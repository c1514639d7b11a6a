/**
 * The drag-and-drop payload parser (`ImQuick.on_drop`): brace-quoted paths
 * come first, in order of appearance and without their braces, then the
 * pieces of what is left split on single spaces; only pieces with a
 * supported extension are opened.
 */
module Drop {
  import opened Wrappers
  import Paths

  /**
   * Where the lazy pattern `{.*?}` that opened just before `j` closes: the
   * first '}' at or after `j`, provided no line break comes first (`.` does
   * not match a newline).
   */
  function CloseFrom(s: string, j: nat): (r: Option<nat>)
    requires j <= |s|
    decreases |s| - j
    ensures r.Some? ==> j <= r.value < |s| && s[r.value] == '}'
    ensures r.Some? ==> forall k :: j <= k < r.value ==> s[k] != '}' && s[k] != '\n'
  {
    if j == |s| || s[j] == '\n' then None
    else if s[j] == '}' then Some(j)
    else CloseFrom(s, j + 1)
  }

  /** A match of `{.*?}` in `s`: `s[start..end]`. */
  ghost predicate IsGroupAt(s: string, start: nat, end: nat) {
    && start + 2 <= end <= |s|
    && s[start] == '{' && s[end - 1] == '}'
    && forall k :: start < k < end - 1 ==> s[k] != '}' && s[k] != '\n'
  }

  /**
   * `re.findall('{.*?}', s[i..])` as spans of `s`: scanning left to right, a
   * '{' that can be closed starts a match and scanning resumes after it.
   * Matches are well formed, in order and do not overlap.
   */
  function Spans(s: string, i: nat): (r: seq<(nat, nat)>)
    requires i <= |s|
    decreases |s| - i
    ensures forall m :: 0 <= m < |r| ==> i <= r[m].0 && IsGroupAt(s, r[m].0, r[m].1)
    ensures forall m :: 0 < m < |r| ==> r[m - 1].1 <= r[m].0
  {
    if i == |s| then []
    else if s[i] == '{' && CloseFrom(s, i + 1).Some? then
      var k := CloseFrom(s, i + 1).value;
      [(i, k + 1)] + Spans(s, k + 1)
    else Spans(s, i + 1)
  }

  /** Position `p` is the start of one of the spans `r` or lies inside it. */
  ghost predicate Covered(r: seq<(nat, nat)>, p: nat) {
    exists m :: 0 <= m < |r| && r[m].0 <= p < r[m].1
  }

  /** A span put in front keeps every position already covered, and covers its own. */
  lemma CoveredCons(sp: (nat, nat), r: seq<(nat, nat)>, p: nat)
    requires (sp.0 <= p < sp.1) || Covered(r, p)
    ensures Covered([sp] + r, p)
  {
    if sp.0 <= p < sp.1 {
      assert ([sp] + r)[0] == sp;
    } else {
      var m :| 0 <= m < |r| && r[m].0 <= p < r[m].1;
      assert ([sp] + r)[m + 1] == r[m];
    }
  }

  /**
   * The scan skips no match: every '{' from `i` on that the lazy pattern can
   * close either starts a span or lies inside one.
   */
  lemma {:induction false} SpansComplete(s: string, i: nat, p: nat)
    requires i <= p < |s|
    requires s[p] == '{' && CloseFrom(s, p + 1).Some?
    decreases |s| - i
    ensures Covered(Spans(s, i), p)
  {
    var opens := s[i] == '{' && CloseFrom(s, i + 1).Some?;
    if opens {
      var k := CloseFrom(s, i + 1).value;
      var rest := Spans(s, k + 1);
      SpansOpen(s, i);
      if k < p {
        SpansComplete(s, k + 1, p);
      }
      CoveredCons((i, k + 1), rest, p);
    } else {
      assert i < p;
      SpansSkip(s, i);
      SpansComplete(s, i + 1, p);
    }
  }

  /** A '{' that can be closed starts the next span. */
  lemma SpansOpen(s: string, i: nat)
    requires i < |s| && s[i] == '{' && CloseFrom(s, i + 1).Some?
    ensures CloseFrom(s, i + 1).value + 1 <= |s|
    ensures Spans(s, i) == [(i, CloseFrom(s, i + 1).value + 1)] + Spans(s, CloseFrom(s, i + 1).value + 1)
  {
  }

  /** Any other character is passed over. */
  lemma SpansSkip(s: string, i: nat)
    requires i < |s| && !(s[i] == '{' && CloseFrom(s, i + 1).Some?)
    ensures Spans(s, i) == Spans(s, i + 1)
  {
  }

  /** The matched groups, braces included, in order of appearance. */
  function Groups(s: string): (r: seq<string>)
    ensures |r| == |Spans(s, 0)|
    ensures forall m :: 0 <= m < |r| ==> r[m] == s[Spans(s, 0)[m].0..Spans(s, 0)[m].1]
  {
    var sp := Spans(s, 0);
    seq(|sp|, m requires 0 <= m < |sp| => s[sp[m].0..sp[m].1])
  }

  /** `obj[1:-1]`. */
  function Unbrace(g: string): string {
    if |g| < 2 then [] else g[1..|g| - 1]
  }

  /** Every group without braces is free of '}' and of line breaks. */
  lemma GroupContent(s: string, m: nat)
    requires m < |Groups(s)|
    ensures var u := Unbrace(Groups(s)[m]);
      forall k :: 0 <= k < |u| ==> u[k] != '}' && u[k] != '\n'
  {
    var sp := Spans(s, 0)[m];
    assert IsGroupAt(s, sp.0, sp.1);
    var g := Groups(s)[m];
    assert forall k :: 0 <= k < |Unbrace(g)| ==> Unbrace(g)[k] == s[sp.0 + 1 + k];
  }

  /** `s.replace(pat, "")`: occurrences removed left to right, without overlap. */
  function RemoveAll(s: string, pat: string): (r: string)
    requires |pat| > 0
    ensures |r| <= |s|
  {
    if |s| < |pat| then s
    else if s[..|pat|] == pat then RemoveAll(s[|pat|..], pat)
    else [s[0]] + RemoveAll(s[1..], pat)
  }

  /** `pat` occurs in `s` starting at index `k`. */
  predicate OccursAt(s: string, k: nat, pat: string) {
    k + |pat| <= |s| && s[k..k + |pat|] == pat
  }

  /** Text with no occurrence of the pattern is left as it is. */
  lemma {:induction false} RemoveAbsent(s: string, pat: string)
    requires |pat| > 0
    requires forall k: nat :: !OccursAt(s, k, pat)
    ensures RemoveAll(s, pat) == s
  {
    if |s| >= |pat| {
      assert !OccursAt(s, 0, pat);
      assert s[0..|pat|] == s[..|pat|];
      var t := s[1..];
      forall k: nat ensures !OccursAt(t, k, pat) {
        assert !OccursAt(s, k + 1, pat);
        if k + |pat| <= |t| {
          assert t[k..k + |pat|] == s[k + 1..k + 1 + |pat|];
        }
      }
      RemoveAbsent(t, pat);
      assert s == [s[0]] + t;
    }
  }

  /** The line after each group in turn has been replaced by nothing. */
  function RemoveGroups(line: string, groups: seq<string>): (r: string)
    requires forall m :: 0 <= m < |groups| ==> |groups[m]| > 0
    ensures |r| <= |line|
    ensures groups == [] ==> r == line
    decreases |groups|
  {
    if groups == [] then line else RemoveGroups(RemoveAll(line, groups[0]), groups[1..])
  }

  /** `s.split(" ")`: the pieces between single spaces, empty pieces included. */
  function SplitSpaces(s: string): (r: seq<string>)
    ensures |r| >= 1
  {
    if ' ' !in s then [s]
    else
      var k := FirstSpace(s);
      [s[..k]] + SplitSpaces(s[k + 1..])
  }

  /** No piece holds a space. */
  lemma {:induction false} PiecesHaveNoSpace(s: string)
    ensures forall m, k :: 0 <= m < |SplitSpaces(s)| && 0 <= k < |SplitSpaces(s)[m]| ==> SplitSpaces(s)[m][k] != ' '
  {
    if ' ' in s {
      var k := FirstSpace(s);
      PiecesHaveNoSpace(s[k + 1..]);
      var rest := SplitSpaces(s[k + 1..]);
      assert SplitSpaces(s) == [s[..k]] + rest;
      forall m, j | 0 <= m < |SplitSpaces(s)| && 0 <= j < |SplitSpaces(s)[m]|
        ensures SplitSpaces(s)[m][j] != ' '
      {
        if m == 0 {
          assert s[..k][j] in s[..k];
        } else {
          assert SplitSpaces(s)[m] == rest[m - 1];
        }
      }
    }
  }

  function FirstSpace(s: string): (k: nat)
    requires ' ' in s
    ensures k < |s| && s[k] == ' ' && ' ' !in s[..k]
  {
    if s[0] == ' ' then 0 else
      var k := FirstSpace(s[1..]) + 1;
      assert s[..k] == [s[0]] + s[1..][..k - 1];
      k
  }

  /** `" ".join(pieces)`. */
  function JoinSpaces(pieces: seq<string>): string
    requires |pieces| >= 1
  {
    if |pieces| == 1 then pieces[0] else pieces[0] + " " + JoinSpaces(pieces[1..])
  }

  /** Splitting loses nothing: joining the pieces with single spaces gives the text back. */
  lemma {:induction false} SplitJoin(s: string)
    ensures JoinSpaces(SplitSpaces(s)) == s
  {
    if ' ' in s {
      var k := FirstSpace(s);
      SplitFirst(s);
      JoinFirst(s[..k], SplitSpaces(s[k + 1..]));
      SplitJoin(s[k + 1..]);
    }
  }

  lemma SplitFirst(s: string)
    requires ' ' in s
    ensures SplitSpaces(s) == [s[..FirstSpace(s)]] + SplitSpaces(s[FirstSpace(s) + 1..])
    ensures s == s[..FirstSpace(s)] + " " + s[FirstSpace(s) + 1..]
  {
    var k := FirstSpace(s);
    assert s == s[..k] + [s[k]] + s[k + 1..];
  }

  lemma JoinFirst(piece: string, rest: seq<string>)
    requires |rest| >= 1
    ensures JoinSpaces([piece] + rest) == piece + " " + JoinSpaces(rest)
  {
    assert ([piece] + rest)[1..] == rest;
  }

  /**
   * The list `on_drop` walks: the unbraced groups in order, then the pieces of
   * the line with every group removed.
   */
  function DropPaths(data: string): (r: seq<string>)
    ensures |r| > |Groups(data)|
    ensures forall m :: 0 <= m < |Groups(data)| ==> r[m] == Unbrace(Groups(data)[m])
    ensures forall m, k :: |Groups(data)| <= m < |r| && 0 <= k < |r[m]| ==> r[m][k] != ' '
    ensures NonEmptyGroupsHold(data) && r[|Groups(data)|..] == SplitSpaces(RemoveGroups(data, Groups(data)))
  {
    var groups := Groups(data);
    NonEmptyGroups(data);
    PiecesHaveNoSpace(RemoveGroups(data, groups));
    seq(|groups|, m requires 0 <= m < |groups| => Unbrace(groups[m]))
      + SplitSpaces(RemoveGroups(data, groups))
  }

  /** Every group holds at least its two braces, so removing it is well defined. */
  predicate NonEmptyGroupsHold(data: string) {
    forall m :: 0 <= m < |Groups(data)| ==> |Groups(data)[m]| > 0
  }

  /** The pieces after the groups join back, with single spaces, to the line with every group removed. */
  lemma DropTailJoins(data: string)
    ensures NonEmptyGroupsHold(data)
    ensures |DropPaths(data)| > |Groups(data)|
    ensures JoinSpaces(DropPaths(data)[|Groups(data)|..]) == RemoveGroups(data, Groups(data))
  {
    NonEmptyGroups(data);
    SplitJoin(RemoveGroups(data, Groups(data)));
  }

  lemma NonEmptyGroups(data: string)
    ensures forall m :: 0 <= m < |Groups(data)| ==> |Groups(data)[m]| >= 2
  {
    forall m | 0 <= m < |Groups(data)| ensures |Groups(data)[m]| >= 2 {
      var sp := Spans(data, 0)[m];
      assert IsGroupAt(data, sp.0, sp.1);
    }
  }

  /** The loop of `on_drop` that builds `to_open` while rewriting `line`. */
  method ParseDrop(data: string) returns (toOpen: seq<string>)
    ensures toOpen == DropPaths(data)
  {
    var groups := Groups(data);
    NonEmptyGroups(data);
    var line := data;
    toOpen := [];
    var i := 0;
    while i < |groups|
      invariant 0 <= i <= |groups|
      invariant toOpen == seq(i, m requires 0 <= m < i => Unbrace(groups[m]))
      invariant RemoveGroups(line, groups[i..]) == RemoveGroups(data, groups)
    {
      assert groups[i..][1..] == groups[i + 1..];
      toOpen := toOpen + [Unbrace(groups[i])];
      line := RemoveAll(line, groups[i]);
      i := i + 1;
    }
    assert groups[i..] == [];
    toOpen := toOpen + SplitSpaces(line);
  }

  /** The files a drop opens: supported pieces only, brace-quoted ones first, each part in order. */
  function FilesToOpen(data: string): (r: seq<string>)
    ensures forall x :: x in r <==> x in DropPaths(data) && Paths.IsSupported(x)
  {
    Paths.SupportedMembers(DropPaths(data));
    Paths.FilterSupported(DropPaths(data))
  }

  lemma FilesToOpenOrder(data: string)
    ensures
      var groups := Groups(data);
      var n := |groups|;
      FilesToOpen(data) ==
        Paths.Filter(DropPaths(data)[..n], Paths.IsSupported) +
        Paths.Filter(DropPaths(data)[n..], Paths.IsSupported)
  {
    var r := DropPaths(data);
    var n := |Groups(data)|;
    assert r == r[..n] + r[n..];
    Paths.FilterAppend(r[..n], r[n..], Paths.IsSupported);
  }
}
