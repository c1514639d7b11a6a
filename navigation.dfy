/**
 * Index arithmetic of the file series: the next and previous file of the
 * current directory, with wrap-around at both ends.
 */
module FileSeries {

  /** `next_file`: one step forward, from the last index back to the first. */
  function NextIndex(i: nat, len: nat): (r: nat)
    requires i < len
    ensures r < len
    ensures i < len - 1 ==> r == i + 1
    ensures i == len - 1 ==> r == 0
  {
    if i < len - 1 then i + 1 else 0
  }

  /** `prev_file`: one step back, from the first index round to the last. */
  function PrevIndex(i: nat, len: nat): (r: nat)
    requires i < len
    ensures r < len
    ensures i > 0 ==> r == i - 1
    ensures i == 0 ==> r == len - 1
  {
    if i > 0 then i - 1 else len - 1
  }

  /** Both steps are the successor and predecessor modulo the length. */
  lemma StepsAreModular(i: nat, len: nat)
    requires i < len
    ensures NextIndex(i, len) == (i + 1) % len
    ensures PrevIndex(i, len) == (i + len - 1) % len
  {
    if i > 0 {
      ModUnique(i + len - 1, 1, i - 1, len);
    }
  }

  /**
   * The index after a navigation key: a list of one file is left alone (the
   * handler returns before touching the index), otherwise one step is taken.
   */
  function Navigate(i: nat, len: nat, forward: bool): (r: nat)
    requires i < len
    ensures r < len
    ensures len == 1 ==> r == i
    ensures len >= 2 && forward ==> r == NextIndex(i, len)
    ensures len >= 2 && !forward ==> r == PrevIndex(i, len)
  {
    if len == 1 then i else if forward then NextIndex(i, len) else PrevIndex(i, len)
  }

  /** Going forward and then back, or back and then forward, returns to the same file. */
  lemma NavigateRoundTrip(i: nat, len: nat)
    requires i < len
    ensures Navigate(Navigate(i, len, true), len, false) == i
    ensures Navigate(Navigate(i, len, false), len, true) == i
  {
  }

  /** The index after `n` presses of the forward key. */
  function Forward(i: nat, len: nat, n: nat): (r: nat)
    requires i < len
    ensures r < len
  {
    if n == 0 then i else Navigate(Forward(i, len, n - 1), len, true)
  }

  /** `n` forward presses move `n` places round the directory, so `len` presses come back to the start. */
  lemma {:induction false} ForwardCycles(i: nat, len: nat, n: nat)
    requires i < len
    ensures Forward(i, len, n) == (i + n) % len
  {
    if n > 0 {
      ForwardCycles(i, len, n - 1);
      var j := Forward(i, len, n - 1);
      if len >= 2 {
        StepsAreModular(j, len);
        ModSucc(i + n - 1, len);
      }
    }
  }

  lemma ModSucc(a: nat, len: nat)
    requires len > 0
    ensures (a % len + 1) % len == (a + 1) % len
  {
    var q, r := a / len, a % len;
    assert a == q * len + r;
    if r + 1 < len {
      ModUnique(a + 1, q, r + 1, len);
      ModUnique(r + 1, 0, r + 1, len);
    } else {
      assert r + 1 == len;
      assert a + 1 == (q + 1) * len + 0;
      ModUnique(a + 1, q + 1, 0, len);
      ModUnique(r + 1, 1, 0, len);
    }
  }

  /** The remainder is the only `r` in `[0, len)` with `a == q * len + r`. */
  lemma ModUnique(a: int, q: int, r: int, len: int)
    requires len > 0 && 0 <= r < len && a == q * len + r
    ensures a % len == r
  {
    var q', r' := a / len, a % len;
    assert (q - q') * len == r' - r;
    if q > q' {
      MulAtLeast(q - q', len);
    } else if q < q' {
      MulAtLeast(q' - q, len);
    }
  }

  lemma MulAtLeast(k: int, len: int)
    requires k >= 1 && len > 0
    ensures k * len >= len
  {
  }

  lemma ForwardFullCircle(i: nat, len: nat)
    requires i < len
    ensures Forward(i, len, len) == i
  {
    ForwardCycles(i, len, len);
    ModUnique(i + len, 1, i, len);
  }

  /** `list.index(x)`: the position of the first occurrence. */
  function IndexOf<T(==)>(xs: seq<T>, x: T): (r: nat)
    requires x in xs
    ensures r < |xs| && xs[r] == x
    ensures forall k :: 0 <= k < r ==> xs[k] != x
  {
    if xs[0] == x then 0 else 1 + IndexOf(xs[1..], x)
  }
}
