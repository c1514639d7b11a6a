/**
 * Planes of an image stack: the reader abstraction, the plane entry
 * (`set_z_plane`) and the plane refresh (`update_z_display`).
 */
module Stack {
  import opened Wrappers
  import Numbers
  import Levels

  /** An opened file: `get_length()` is the number of decoded planes, `get_data(p)` is `data[p]`. */
  datatype Reader = Reader(data: seq<Levels.Image>)

  /**
   * A decoded plane the viewer can show: well shaped, not empty, and of a
   * shape `Image.fromarray` turns into a picture, that is 2-D (channels 0)
   * or with 2, 3 or 4 channels.
   */
  ghost predicate GoodImage(img: Levels.Image) {
    Levels.WellShaped(img) && img.height > 0 && img.width > 0 && img.channels != 1 && img.channels <= 4
  }

  /** Plane p decodes to an image the viewer can show, of the shape of the first plane. */
  ghost predicate PlaneOk(rd: Reader, p: nat)
    requires p < |rd.data|
  {
    GoodImage(rd.data[p]) && Levels.SameShape(rd.data[p], rd.data[0])
  }

  /** Every plane decodes, and all planes share the shape of the first. */
  ghost predicate ReaderOk(rd: Reader) {
    && |rd.data| >= 1
    && forall p :: 0 <= p < |rd.data| ==> PlaneOk(rd, p)
  }

  /** What reaches `set_z_plane`: the text of the entry box, or the rounded slider position. */
  datatype ZInput = Typed(text: string) | Slid(value: int)

  /** The plane number asked for, or None when `int()` raises `ValueError`. */
  function ParsePlane(z: ZInput): (r: Option<int>)
    ensures z == Typed("") ==> r == Some(0)
    ensures z.Slid? ==> r == Some(z.value)
  {
    match z
    case Typed(t) => if t == "" then Some(0) else Numbers.ParseInt(t)
    case Slid(v) => Some(v)
  }

  /** Typing the decimal digits of a plane number asks for that plane. */
  lemma ParseTypedPlane(n: nat)
    ensures ParsePlane(Typed(Numbers.Decimal(n))) == Some(n)
  {
    Numbers.ParseDecimal(n);
  }

  /** The plane value kept: entries above the last plane go to it, negative ones to 0. */
  function ClampPlane(v: int, maxPlane: nat): (r: nat)
    ensures r <= maxPlane
    ensures 0 <= v <= maxPlane ==> r == v
    ensures v > maxPlane ==> r == maxPlane
    ensures v < 0 ==> r == 0
  {
    if v > maxPlane then maxPlane else if v < 0 then 0 else v
  }

  /** Clamping a plane already in range changes nothing, so clamping twice is clamping once. */
  lemma ClampIdempotent(v: int, maxPlane: nat)
    ensures ClampPlane(ClampPlane(v, maxPlane), maxPlane) == ClampPlane(v, maxPlane)
  {
  }

  /**
   * The plane bookkeeping of a viewer: the last plane index, the value of the
   * plane control, the plane the viewer believes it shows, and the plane the
   * image data was actually read from.
   */
  datatype ZState = ZState(maxPlane: nat, zValue: int, displayedPlane: int, dataPlane: nat)

  /** `update_z_display`: reread the data only when there are planes and the control moved. */
  function UpdateZ(s: ZState): (r: ZState)
    ensures s.maxPlane == 0 || s.displayedPlane == s.zValue ==> r == s
    ensures s.maxPlane > 0 && s.displayedPlane != s.zValue && s.zValue >= 0 ==>
      r == s.(displayedPlane := s.zValue, dataPlane := s.zValue)
  {
    if s.maxPlane == 0 || s.displayedPlane == s.zValue then s
    else s.(displayedPlane := s.zValue, dataPlane := if s.zValue < 0 then 0 else s.zValue)
  }

  /** `set_z_plane`: the accepted flag and the new bookkeeping. */
  function SelectPlane(s: ZState, z: ZInput): (r: (bool, ZState))
    ensures ParsePlane(z).None? <==> !r.0
    ensures !r.0 ==> r.1 == s
    ensures r.0 ==> r.1 == UpdateZ(s.(zValue := ClampPlane(ParsePlane(z).value, s.maxPlane)))
  {
    match ParsePlane(z)
    case None => (false, s)
    case Some(v) => (true, UpdateZ(s.(zValue := ClampPlane(v, s.maxPlane))))
  }

  /**
   * The plane part of `load_image` as written: a stack opens on its middle
   * plane and moves the control there, but the displayed plane of the
   * previous file is kept.
   */
  function LoadZAsWritten(s: ZState, length: nat): (r: ZState)
    requires length >= 1
    ensures r.maxPlane == length - 1 && r.displayedPlane == s.displayedPlane
  {
    var maxPlane := length - 1;
    if maxPlane > 0 then ZState(maxPlane, maxPlane / 2, s.displayedPlane, maxPlane / 2)
    else ZState(maxPlane, s.zValue, s.displayedPlane, 0)
  }

  /** The corrected plane part of `load_image`: the displayed plane is the plane just read. */
  function LoadZ(s: ZState, length: nat): (r: ZState)
    requires length >= 1
    ensures r.maxPlane == length - 1 && r.displayedPlane == r.dataPlane
    ensures r == LoadZAsWritten(s, length).(displayedPlane := r.dataPlane)
  {
    var maxPlane := length - 1;
    if maxPlane > 0 then ZState(maxPlane, maxPlane / 2, maxPlane / 2, maxPlane / 2)
    else ZState(maxPlane, s.zValue, 0, 0)
  }

  /** The bookkeeping agrees with the data: on a stack, the plane shown is the plane the control names. */
  ghost predicate InSync(s: ZState) {
    && s.displayedPlane == s.dataPlane
    && s.dataPlane <= s.maxPlane
    && (s.maxPlane > 0 ==> s.zValue == s.dataPlane)
  }

  /** The corrected load leaves viewer and data in step. */
  lemma LoadZInSync(s: ZState, length: nat)
    requires length >= 1
    ensures InSync(LoadZ(s, length))
  {
  }

  /** Every plane entry keeps them in step, and on a stack the data then comes from the clamped plane. */
  lemma SelectPlaneInSync(s: ZState, z: ZInput)
    requires InSync(s)
    ensures InSync(SelectPlane(s, z).1)
    ensures SelectPlane(s, z).0 && s.maxPlane > 0 ==>
      SelectPlane(s, z).1.dataPlane == ClampPlane(ParsePlane(z).value, s.maxPlane)
  {
  }

  /**
   * As written, a nine-plane stack opened in a fresh window shows its middle
   * plane 4 while the displayed plane is still 0, so typing 0 is taken for
   * "no change": the control reads 0 and the data is still plane 4.
   */
  lemma StalePlaneAfterLoad()
    ensures
      var loaded := LoadZAsWritten(ZState(0, 0, 0, 0), 9);
      var after := SelectPlane(loaded, Typed("0"));
      && after.0
      && after.1.zValue == 0
      && after.1.dataPlane == 4
      && !InSync(after.1)
  {
    var loaded := LoadZAsWritten(ZState(0, 0, 0, 0), 9);
    assert loaded == ZState(8, 4, 0, 4);
    assert ParsePlane(Typed("0")) == Some(0) by {
      assert Numbers.Decimal(0) == "0";
      ParseTypedPlane(0);
    }
    var moved := loaded.(zValue := ClampPlane(0, 8));
    assert moved == ZState(8, 0, 0, 4);
    assert UpdateZ(moved) == moved;
    assert SelectPlane(loaded, Typed("0")) == (true, moved);
  }

  /** The corrected load on the same inputs shows plane 0. */
  lemma FreshPlaneAfterLoad()
    ensures
      var loaded := LoadZ(ZState(0, 0, 0, 0), 9);
      var after := SelectPlane(loaded, Typed("0"));
      after.0 && after.1.zValue == 0 && after.1.dataPlane == 0
  {
    assert Numbers.Decimal(0) == "0";
    ParseTypedPlane(0);
  }
}
