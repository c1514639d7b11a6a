/**
 * The viewer window (`ImQuick`) with the state of its contrast popup
 * (`DisplayPopup`): levels, planes, file series, drop handling and zoom.
 *
 * The two slider variables carry write traces in the original; here a write
 * to a variable is the call `SetMinVar` or `SetMaxVar`, which assigns the
 * variable and runs its handler, and the handlers call back into the setters
 * exactly where the original writes a variable from inside its trace.
 */
module ViewerState {
  import opened Wrappers
  import Numbers
  import Levels
  import Paths
  import Drop
  import FileSeries
  import Stack
  import Viewport

  /** The order in which nested handler calls end: a write that cannot re-enter has rank 0. */
  function RankMin(lo: int, hi: int): nat {
    (if lo == 255 then 1 else 0) + (if lo >= hi then 2 else 0)
  }

  function RankMax(lo: int, hi: int): nat {
    (if hi == 0 then 1 else 0) + (if lo >= hi then 2 else 0)
  }

  /** A decoded image of no pixels, standing for the data of a window that never loaded a file. */
  const NoImage: Levels.Image := Levels.Image(0, 0, 0, [])

  /** The image rectangle is the image at the zoom. */
  ghost predicate ContainerFits(container: Option<Viewport.Rect>, zoom: real, width: nat, height: nat) {
    && container.Some?
    && container.value.x1 - container.value.x0 == zoom * width as real
    && container.value.y1 - container.value.y0 == zoom * height as real
  }

  /** Data decoded from plane `dataPlane` of the reader, normalised into `scaled`. */
  ghost predicate DataFits(reader: Stack.Reader, maxPlane: nat, dataPlane: nat, imageData: Levels.Image,
                           scaled: Levels.Image, width: nat, height: nat)
  {
    && Stack.ReaderOk(reader)
    && maxPlane == |reader.data| - 1
    && dataPlane <= maxPlane
    && imageData == reader.data[dataPlane]
    && Stack.GoodImage(imageData)
    && Levels.SameShape(imageData, reader.data[0])
    && |imageData.pixels| > 0
    && (forall j :: 0 <= j < |imageData.pixels| ==> |imageData.pixels[j]| > 0)
    && Levels.SameShape(scaled, imageData) && |scaled.pixels| == |imageData.pixels|
    && scaled == Levels.Rescale(imageData)
    && Levels.WellShaped(scaled) && Levels.EightBit(scaled)
    && width == imageData.width && height == imageData.height
  }

  /**
   * A file the window can show on a canvas of this size: one that is larger
   * than the canvas and so fitted on loading needs a canvas of more than 4
   * pixels on each side, where the fit scale is positive.
   */
  ghost predicate Showable(rd: Stack.Reader, canvasW: nat, canvasH: nat) {
    |rd.data| > 0 && Viewport.NeedsFit(true, rd.data[0].width, rd.data[0].height, canvasW, canvasH) ==>
      canvasW > 4 && canvasH > 4
  }

  /** The files that open and decode, each with its reader and showable on the canvas; opening any other path fails. */
  ghost predicate DiskOk(disk: map<string, Stack.Reader>, canvasW: nat, canvasH: nat) {
    forall p :: p in disk ==> Stack.ReaderOk(disk[p]) && Showable(disk[p], canvasW, canvasH)
  }

  /** The state of a window that a load or a navigation key may change. */
  datatype Snapshot = Snapshot(
    minDisplay: int, maxDisplay: int, displayValues: seq<int>, perChannel: bool, offset: nat,
    file: Option<string>, reader: Stack.Reader, planes: Stack.ZState,
    hasData: bool, imageData: Levels.Image, scaled: Levels.Image, displayed: Levels.Image,
    zoom: real, width: nat, height: nat, container: Option<Viewport.Rect>)

  /** Opening and decoding `p`. */
  function Fetch(disk: map<string, Stack.Reader>, p: string): Option<Stack.Reader> {
    if p in disk then Some(disk[p]) else None
  }

  /** The file of a window after loading `p`: `p` when it opens, none otherwise. */
  function Fetched(disk: map<string, Stack.Reader>, p: string): Option<string> {
    if p in disk then Some(p) else None
  }

  /**
   * The paths of a drop processed in order from the window's file `current`:
   * the paths sent to new windows, and the window's file at the end. An
   * unsupported path is skipped; a supported one goes to a new window when
   * the window has a file and is loaded into it otherwise.
   */
  function Dispatch(paths: seq<string>, current: Option<string>, disk: map<string, Stack.Reader>): (seq<string>, Option<string>)
  {
    if paths == [] then ([], current)
    else DropStep(Dispatch(paths[..|paths| - 1], current, disk), paths[|paths| - 1], disk)
  }

  /** One path of a drop, from the paths sent to new windows so far and the window's file. */
  function DropStep(before: (seq<string>, Option<string>), p: string, disk: map<string, Stack.Reader>): (seq<string>, Option<string>)
  {
    if !Paths.IsSupported(p) then before
    else if before.1.Some? then (before.0 + [p], before.1)
    else (before.0, Fetched(disk, p))
  }

  /** Processing one more path of a drop is one more step. */
  lemma DispatchPrefix(paths: seq<string>, i: nat, current: Option<string>, disk: map<string, Stack.Reader>)
    requires i < |paths|
    ensures Dispatch(paths[..i + 1], current, disk) == DropStep(Dispatch(paths[..i], current, disk), paths[i], disk)
  {
    assert paths[..i + 1][..i] == paths[..i];
  }

  /** Once the window has a file, every supported path of the drop goes to a new window, in order. */
  lemma {:induction false} DispatchWithFile(paths: seq<string>, current: Option<string>, disk: map<string, Stack.Reader>)
    requires current.Some?
    ensures Dispatch(paths, current, disk) == (Paths.Filter(paths, Paths.IsSupported), current)
  {
    if paths != [] {
      var init, last := paths[..|paths| - 1], paths[|paths| - 1];
      DispatchWithFile(init, current, disk);
      assert paths == init + [last];
      Paths.FilterSnoc(init, last, Paths.IsSupported);
    }
  }

  /**
   * Dropped on an empty window, with every supported path readable: the first
   * supported path is opened here and each later one in a new window.
   */
  lemma {:induction false} DispatchAllReadable(paths: seq<string>, disk: map<string, Stack.Reader>)
    requires forall p :: p in Paths.Filter(paths, Paths.IsSupported) ==> p in disk
    ensures
      var kept := Paths.Filter(paths, Paths.IsSupported);
      Dispatch(paths, None, disk) == if kept == [] then ([], None) else (kept[1..], Some(kept[0]))
  {
    if paths != [] {
      var init, last := paths[..|paths| - 1], paths[|paths| - 1];
      assert paths == init + [last];
      Paths.FilterSnoc(init, last, Paths.IsSupported);
      var before := Paths.Filter(init, Paths.IsSupported);
      var kept := Paths.Filter(paths, Paths.IsSupported);
      assert forall p :: p in before ==> p in kept;
      DispatchAllReadable(init, disk);
      if !Paths.IsSupported(last) {
        assert kept == before;
      } else if before == [] {
        assert kept == [last];
        assert Fetched(disk, last) == Some(last);
      } else {
        assert kept == before + [last];
        assert kept[0] == before[0] && kept[1..] == before[1..] + [last];
      }
    }
  }

  class Viewer {
    // Levels: the two slider variables, the per-channel bounds array and mode.
    var minDisplay: int
    var maxDisplay: int
    var displayValues: seq<int>
    var perChannel: bool
    // The contrast popup: open or not, its `working` flag and its array offset.
    var popupOpen: bool
    var working: bool
    var offset: nat
    // The opened file and its planes.
    var file: Option<string>
    var reader: Stack.Reader
    // The plane bookkeeping: last plane, plane control, plane shown, plane the data came from.
    var planes: Stack.ZState
    // Image data: decoded, normalised, and as drawn.
    var hasData: bool
    var imageData: Levels.Image
    var scaled: Levels.Image
    var displayed: Levels.Image
    // The file series of the directory.
    var fileList: seq<string>
    var currentIndex: nat
    // Viewport: zoom factor, image size and the image rectangle on the canvas.
    var zoom: real
    var width: nat
    var height: nat
    var container: Option<Viewport.Rect>

    /** The fields a load or a navigation key may change, as one value. */
    ghost function Shown(): Snapshot
      reads this`minDisplay, this`maxDisplay, this`displayValues, this`perChannel, this`offset,
            this`file, this`reader, this`planes, this`hasData, this`imageData, this`scaled, this`displayed,
            this`zoom, this`width, this`height, this`container
    {
      Snapshot(minDisplay, maxDisplay, displayValues, perChannel, offset, file, reader, planes,
               hasData, imageData, scaled, displayed, zoom, width, height, container)
    }

    /**
     * What `load_image` leaves after opening `path` with reader `rd`, from the
     * plane bookkeeping `z0`: the file, its reader and planes, the plane read
     * decoded and normalised, the default levels and the popup on 'All'.
     */
    ghost predicate Loaded(path: string, rd: Stack.Reader, z0: Stack.ZState)
      reads this`minDisplay, this`maxDisplay, this`displayValues, this`perChannel, this`offset,
            this`file, this`reader, this`planes, this`hasData, this`imageData, this`scaled, this`displayed,
            this`zoom, this`width, this`height, this`container
    {
      && file == Some(path) && reader == rd
      && DataFits(rd, planes.maxPlane, planes.dataPlane, imageData, scaled, width, height)
      && planes == Stack.LoadZ(z0, |rd.data|)
      && minDisplay == 0 && maxDisplay == 255
      && displayValues == Levels.RepeatPair(0, 255, imageData.channels + 1)
      && offset == 0 && !perChannel
      && displayed == scaled
    }

    /**
     * What `load_image(p)` leaves, from the window `s0`: the file loaded when
     * it opens; otherwise no file and no rectangle, everything else as it was.
     */
    ghost predicate Shows(disk: map<string, Stack.Reader>, p: string, s0: Snapshot)
      reads this`minDisplay, this`maxDisplay, this`displayValues, this`perChannel, this`offset,
            this`file, this`reader, this`planes, this`hasData, this`imageData, this`scaled, this`displayed,
            this`zoom, this`width, this`height, this`container
    {
      if p in disk then Loaded(p, disk[p], s0.planes) else Shown() == s0.(file := None, container := None)
    }

    /** The image rectangle is the image at the current zoom. */
    ghost predicate ContainerOk()
      reads this`container, this`zoom, this`width, this`height
    {
      ContainerFits(container, zoom, width, height)
    }

    /** The slider pair is one the variables can hold; before any file it is the default pair. */
    ghost predicate BoundsOk()
      reads this`minDisplay, this`maxDisplay, this`hasData
    {
      && Levels.Reachable(Levels.Bounds(minDisplay, maxDisplay))
      && (!hasData ==> minDisplay == 0 && maxDisplay == 255)
    }

    /** The popup: not `working` between events, the global pair while closed, and only ever opened on data. */
    ghost predicate PopupOk()
      reads this`working, this`popupOpen, this`offset, this`perChannel, this`hasData
    {
      && !working
      && (!popupOpen ==> offset == 0 && !perChannel)
      && (popupOpen ==> hasData)
    }

    /** The view: a positive zoom, and for an opened file its data, its rectangle and its planes in step. */
    ghost predicate ViewOk()
      reads this`file, this`hasData, this`container, this`zoom, this`width, this`height,
            this`planes
    {
      && zoom > 0.0
      && (file.Some? ==> hasData && ContainerOk() && Stack.InSync(planes))
    }

    /** Once data was loaded, it is a plane of the reader, normalised. */
    ghost predicate DataOk()
      reads this`hasData, this`reader, this`planes, this`imageData, this`scaled,
            this`width, this`height
    {
      hasData ==> DataFits(reader, planes.maxPlane, planes.dataPlane, imageData, scaled, width, height)
    }

    /** The position in the file series indexes the series. */
    ghost predicate ListOk()
      reads this`fileList, this`currentIndex
    {
      fileList != [] ==> currentIndex < |fileList|
    }

    /** The invariant of a viewer window between two events. */
    ghost predicate Valid()
      reads this
    {
      Core() && ListOk() && ViewOk()
    }

    /** The invariant without the view and the file series: levels, popup and data. */
    ghost predicate Core()
      reads this`minDisplay, this`maxDisplay, this`displayValues, this`perChannel, this`popupOpen, this`working,
            this`offset, this`hasData, this`reader, this`planes, this`imageData, this`scaled,
            this`displayed, this`width, this`height
    {
      && LevelsOk()
      && BoundsOk()
      && displayed == Contrast()
      && PopupOk()
      && DataOk()
    }

    /** A window opened without a file. */
    constructor ()
      ensures Valid()
      ensures file.None? && !hasData && !popupOpen && fileList == []
      ensures minDisplay == 0 && maxDisplay == 255 && displayValues == [0, 255]
      ensures zoom == 1.0 && planes.maxPlane == 0 && planes.zValue == 0 && planes.displayedPlane == 0
    {
      minDisplay, maxDisplay := 0, 255;
      displayValues := [0, 255];
      perChannel := false;
      popupOpen, working, offset := false, false, 0;
      file := None;
      reader := Stack.Reader([]);
      planes := Stack.ZState(0, 0, 0, 0);
      hasData := false;
      imageData, scaled := NoImage, NoImage;
      displayed := Levels.ApplyWindow(NoImage, 0, 255);
      fileList, currentIndex := [], 0;
      zoom := 1.0;
      width, height := 0, 0;
      container := None;
      new;
      assert Levels.PairAt(displayValues, 0) == Levels.Bounds(0, 255);
    }

    /** The levels state every handler relies on: array size, pair order and offset in range. */
    ghost predicate LevelsOk()
      reads this`scaled, this`displayValues, this`offset, this`perChannel
    {
      && Levels.WellShaped(scaled)
      && |displayValues| == 2 * (scaled.channels + 1)
      && Levels.PairsReachable(displayValues)
      && offset % 2 == 0 && offset + 1 < |displayValues|
      && (perChannel ==> scaled.channels > 0)
    }

    /** What `update_contrast` draws for the current state. */
    ghost function Contrast(): Levels.Image
      reads this`scaled, this`displayValues, this`offset, this`perChannel, this`minDisplay, this`maxDisplay
      requires LevelsOk() && minDisplay < maxDisplay
    {
      Levels.Draw(scaled, displayValues, perChannel, minDisplay, maxDisplay)
    }

    /** `update_contrast`: the global window, or one window per channel taken pair by pair from the array. */
    method UpdateContrast()
      requires LevelsOk() && minDisplay < maxDisplay
      modifies this`displayed
      ensures displayed == Contrast()
    {
      Levels.ReachableOrdered(displayValues);
      if perChannel {
        var minMax := displayValues[2..];
        var pool: seq<seq<nat>> := [];
        var i := 0;
        while i < scaled.channels
          invariant 0 <= i <= scaled.channels
          invariant minMax == displayValues[2 + 2 * i..]
          invariant |pool| == i
          invariant forall k :: 0 <= k < i ==> |pool[k]| == |scaled.pixels|
          invariant forall k :: 0 <= k < i ==>
            Levels.PairOrdered(displayValues, k + 1) &&
            pool[k] == Levels.ChannelWindow(scaled, k, displayValues[2 + 2 * k], displayValues[3 + 2 * k])
        {
          assert Levels.PairOrdered(displayValues, i + 1);
          var newMin := minMax[0];
          var newMax := minMax[1];
          minMax := minMax[2..];
          pool := pool + [Levels.ChannelWindow(scaled, i, newMin, newMax)];
          i := i + 1;
        }
        Levels.DstackIsPerChannel(scaled, displayValues, pool);
        displayed := Levels.Dstack(scaled, pool);
      } else {
        displayed := Levels.ApplyWindow(scaled, minDisplay, maxDisplay);
      }
    }

    /** The array as the handlers leave it: the current pair written at the offset while the popup is open and not working. */
    ghost function Written(vals: seq<int>, b: Levels.Bounds): seq<int>
      reads this`popupOpen, this`working, this`offset
      requires offset + 1 < |vals|
    {
      if popupOpen && !working then vals[offset := b.lo][offset + 1 := b.hi] else vals
    }

    /** A second write of a pair at the offset replaces the first. */
    lemma WrittenTwice(vals: seq<int>, first: Levels.Bounds, second: Levels.Bounds)
      requires offset + 1 < |vals|
      ensures Written(Written(vals, first), second) == Written(vals, second)
    {
    }

    /**
     * `display_values_array[offset]` and `[offset + 1]` set to the current
     * pair. When a nested handler ran, it already wrote that same pair.
     */
    method WriteCurrentPair(ghost nested: bool)
      requires LevelsOk() && Levels.Reachable(Levels.Bounds(minDisplay, maxDisplay))
      requires nested ==> displayValues == displayValues[offset := minDisplay][offset + 1 := maxDisplay]
      modifies this`displayValues
      ensures displayValues == old(displayValues)[offset := minDisplay][offset + 1 := maxDisplay]
      ensures LevelsOk()
      ensures nested ==> displayValues == old(displayValues)
    {
      Levels.WritePair(displayValues, offset / 2, Levels.Bounds(minDisplay, maxDisplay));
      displayValues := displayValues[offset := minDisplay][offset + 1 := maxDisplay];
    }

    /** `min_display_value.set(m)`: assign the variable and run its trace `update_min_display`. */
    method SetMinVar(m: int)
      requires LevelsOk() && -1 <= m <= 255 && 1 <= maxDisplay <= 256
      modifies this`minDisplay, this`maxDisplay, this`displayValues, this`displayed
      decreases RankMin(m, maxDisplay), 2
      ensures Levels.Bounds(minDisplay, maxDisplay) == Levels.AfterMinWrite(m, old(maxDisplay))
      ensures displayValues == Written(old(displayValues), Levels.Bounds(minDisplay, maxDisplay))
      ensures LevelsOk() && minDisplay < maxDisplay && displayed == Contrast()
    {
      minDisplay := m;
      UpdateMinDisplay();
    }

    /** `update_min_display`: correct the pair, then store and draw it. */
    method UpdateMinDisplay()
      requires LevelsOk() && -1 <= minDisplay <= 255 && 1 <= maxDisplay <= 256
      modifies this`minDisplay, this`maxDisplay, this`displayValues, this`displayed
      decreases RankMin(minDisplay, maxDisplay), 1
      ensures Levels.Bounds(minDisplay, maxDisplay) == Levels.AfterMinWrite(old(minDisplay), old(maxDisplay))
      ensures displayValues == Written(old(displayValues), Levels.Bounds(minDisplay, maxDisplay))
      ensures LevelsOk() && minDisplay < maxDisplay && displayed == Contrast()
    {
      var minD := minDisplay;
      ghost var vals := displayValues;
      var dirty := CorrectMin();
      Finish(vals, minD == 255 || dirty, dirty);
    }

    /**
     * The two corrections of `update_min_display`: a minimum of 255 is
     * written back as 254, and a minimum at or above the maximum pushes the
     * maximum to one above it. `dirty` says the second one ran.
     */
    method CorrectMin() returns (dirty: bool)
      requires LevelsOk() && -1 <= minDisplay <= 255 && 1 <= maxDisplay <= 256
      modifies this`minDisplay, this`maxDisplay, this`displayValues, this`displayed
      decreases RankMin(minDisplay, maxDisplay), 0
      ensures dirty == (old(minDisplay) >= old(maxDisplay))
      ensures Levels.Bounds(minDisplay, maxDisplay) == Levels.AfterMinWrite(old(minDisplay), old(maxDisplay))
      ensures LevelsOk() && Levels.Reachable(Levels.Bounds(minDisplay, maxDisplay))
      ensures old(minDisplay) == 255 || dirty ==>
        displayValues == Written(old(displayValues), Levels.Bounds(minDisplay, maxDisplay))
      ensures !(old(minDisplay) == 255 || dirty) ==> displayValues == old(displayValues)
      ensures dirty ==> displayed == Contrast()
    {
      var minD := minDisplay;
      var maxD := maxDisplay;
      if minD == 255 {
        SetMinVar(254);
      }
      dirty := minD >= maxD;
      if dirty {
        SetMaxVar(minD + 1);
      }
    }

    /** `max_display_value.set(m)`: assign the variable and run its trace `update_max_display`. */
    method SetMaxVar(m: int)
      requires LevelsOk() && 0 <= m <= 256 && -1 <= minDisplay <= 254
      modifies this`minDisplay, this`maxDisplay, this`displayValues, this`displayed
      decreases RankMax(minDisplay, m), 2
      ensures Levels.Bounds(minDisplay, maxDisplay) == Levels.AfterMaxWrite(old(minDisplay), m)
      ensures displayValues == Written(old(displayValues), Levels.Bounds(minDisplay, maxDisplay))
      ensures LevelsOk() && minDisplay < maxDisplay && displayed == Contrast()
    {
      maxDisplay := m;
      UpdateMaxDisplay();
    }

    /** `update_max_display`: correct the pair, then store and draw it. */
    method UpdateMaxDisplay()
      requires LevelsOk() && 0 <= maxDisplay <= 256 && -1 <= minDisplay <= 254
      modifies this`minDisplay, this`maxDisplay, this`displayValues, this`displayed
      decreases RankMax(minDisplay, maxDisplay), 1
      ensures Levels.Bounds(minDisplay, maxDisplay) == Levels.AfterMaxWrite(old(minDisplay), old(maxDisplay))
      ensures displayValues == Written(old(displayValues), Levels.Bounds(minDisplay, maxDisplay))
      ensures LevelsOk() && minDisplay < maxDisplay && displayed == Contrast()
    {
      var maxD := maxDisplay;
      ghost var vals := displayValues;
      var dirty := CorrectMax();
      Finish(vals, maxD == 0 || dirty, dirty);
    }

    /**
     * The two corrections of `update_max_display`: a maximum of 0 is written
     * back as 1, and a maximum at or below the minimum pushes the minimum to
     * one below it. `dirty` says the second one ran.
     */
    method CorrectMax() returns (dirty: bool)
      requires LevelsOk() && 0 <= maxDisplay <= 256 && -1 <= minDisplay <= 254
      modifies this`minDisplay, this`maxDisplay, this`displayValues, this`displayed
      decreases RankMax(minDisplay, maxDisplay), 0
      ensures dirty == (old(minDisplay) >= old(maxDisplay))
      ensures Levels.Bounds(minDisplay, maxDisplay) == Levels.AfterMaxWrite(old(minDisplay), old(maxDisplay))
      ensures LevelsOk() && Levels.Reachable(Levels.Bounds(minDisplay, maxDisplay))
      ensures old(maxDisplay) == 0 || dirty ==>
        displayValues == Written(old(displayValues), Levels.Bounds(minDisplay, maxDisplay))
      ensures !(old(maxDisplay) == 0 || dirty) ==> displayValues == old(displayValues)
      ensures dirty ==> displayed == Contrast()
    {
      var minD := minDisplay;
      var maxD := maxDisplay;
      if maxD == 0 {
        SetMaxVar(1);
      }
      dirty := minD >= maxD;
      if dirty {
        SetMinVar(maxD - 1);
      }
    }

    /**
     * The end of both handlers: the pair is stored at the offset while the
     * popup is open and not working (a nested handler stored it already), and
     * the image is redrawn unless a nested handler drew it.
     */
    method Finish(ghost vals: seq<int>, ghost nested: bool, dirty: bool)
      requires LevelsOk() && Levels.Reachable(Levels.Bounds(minDisplay, maxDisplay)) && |vals| == |displayValues|
      requires nested ==> displayValues == Written(vals, Levels.Bounds(minDisplay, maxDisplay))
      requires !nested ==> displayValues == vals
      requires dirty ==> nested && displayed == Contrast()
      modifies this`displayValues, this`displayed
      ensures displayValues == Written(vals, Levels.Bounds(minDisplay, maxDisplay))
      ensures LevelsOk() && displayed == Contrast()
    {
      if popupOpen && !working {
        WriteCurrentPair(nested);
      }
      if !dirty {
        UpdateContrast();
      }
    }

    /** The popup's minimum slider moved to `m` (a `Scale` from 0 to 255 bound to the variable). */
    method MoveMinSlider(m: int)
      requires Valid() && popupOpen && 0 <= m <= 255
      modifies this`minDisplay, this`maxDisplay, this`displayValues, this`displayed
      ensures Valid()
      ensures Levels.Bounds(minDisplay, maxDisplay) == Levels.AfterMinWrite(m, old(maxDisplay))
      ensures displayValues == old(displayValues)[offset := minDisplay][offset + 1 := maxDisplay]
    {
      Levels.SetMinFromSlider(Levels.Bounds(minDisplay, maxDisplay), m);
      SetMinVar(m);
    }

    /** The popup's maximum slider moved to `m`. */
    method MoveMaxSlider(m: int)
      requires Valid() && popupOpen && 0 <= m <= 255
      modifies this`minDisplay, this`maxDisplay, this`displayValues, this`displayed
      ensures Valid()
      ensures Levels.Bounds(minDisplay, maxDisplay) == Levels.AfterMaxWrite(old(minDisplay), m)
      ensures displayValues == old(displayValues)[offset := minDisplay][offset + 1 := maxDisplay]
    {
      Levels.SetMaxFromSlider(Levels.Bounds(minDisplay, maxDisplay), m);
      SetMaxVar(m);
    }

    /**
     * `auto_contrast`: the bounds become the least and the greatest normalised
     * sample, minimum first, and the image is redrawn.
     */
    method AutoContrast()
      requires Valid()
      modifies this`minDisplay, this`maxDisplay, this`displayValues, this`displayed
      ensures Valid()
      ensures old(file).None? ==> unchanged(this)
      ensures old(file).Some? ==>
        var dmin := Levels.SampleMin(scaled.pixels);
        var dmax := Levels.SampleMax(scaled.pixels);
        && Levels.Bounds(minDisplay, maxDisplay) ==
             Levels.AfterMaxWrite(Levels.AfterMinWrite(dmin, old(maxDisplay)).lo, dmax)
        && (dmin < dmax ==> minDisplay == dmin && maxDisplay == dmax)
        && displayValues == Written(old(displayValues), Levels.Bounds(minDisplay, maxDisplay))
    {
      if file.None? {
        return;
      }
      StretchLevels();
    }

    /** The levels part of `auto_contrast`, on a normalised image of at least one pixel. */
    method StretchLevels()
      requires LevelsOk() && Levels.Reachable(Levels.Bounds(minDisplay, maxDisplay))
      requires |scaled.pixels| > 0 && Levels.EightBit(scaled)
      modifies this`minDisplay, this`maxDisplay, this`displayValues, this`displayed
      ensures LevelsOk() && Levels.Reachable(Levels.Bounds(minDisplay, maxDisplay)) && displayed == Contrast()
      ensures Levels.Bounds(minDisplay, maxDisplay) ==
        Levels.AfterMaxWrite(Levels.AfterMinWrite(Levels.SampleMin(scaled.pixels), old(maxDisplay)).lo,
                             Levels.SampleMax(scaled.pixels))
      ensures Levels.SampleMin(scaled.pixels) < Levels.SampleMax(scaled.pixels) ==>
        minDisplay == Levels.SampleMin(scaled.pixels) && maxDisplay == Levels.SampleMax(scaled.pixels)
      ensures displayValues == Written(old(displayValues), Levels.Bounds(minDisplay, maxDisplay))
    {
      Levels.EightBitRange(scaled);
      var dmin := Levels.SampleMin(scaled.pixels);
      var dmax := Levels.SampleMax(scaled.pixels);
      Levels.AutoContrastBounds(Levels.Bounds(minDisplay, maxDisplay), dmin, dmax);
      WriteBounds(dmin, dmax);
      UpdateContrast();
    }

    /** The two writes of `auto_contrast`, minimum first: the array holds only the pair they end at. */
    method WriteBounds(lo: int, hi: int)
      requires LevelsOk() && Levels.Reachable(Levels.Bounds(minDisplay, maxDisplay)) && 0 <= lo <= hi <= 255
      modifies this`minDisplay, this`maxDisplay, this`displayValues, this`displayed
      ensures Levels.Bounds(minDisplay, maxDisplay) == Levels.AfterMaxWrite(Levels.AfterMinWrite(lo, old(maxDisplay)).lo, hi)
      ensures displayValues == Written(old(displayValues), Levels.Bounds(minDisplay, maxDisplay))
      ensures LevelsOk() && minDisplay < maxDisplay && displayed == Contrast()
    {
      Levels.ReachableOrdered(displayValues);
      SetMinVar(lo);
      ghost var first := Levels.Bounds(minDisplay, maxDisplay);
      SetMaxVar(hi);
      WrittenTwice(old(displayValues), first, Levels.Bounds(minDisplay, maxDisplay));
    }

    /** `DisplayPopup.switch_image`: back to 'All', offset 0, global mode. */
    method SwitchImage()
      modifies this`offset, this`perChannel
      ensures offset == 0 && !perChannel
    {
      offset := 0;
      perChannel := false;
    }

    /** `adjust_contrast`: open the popup for the current file, or just raise it. */
    method AdjustContrast()
      requires Valid()
      modifies this`popupOpen, this`offset, this`perChannel
      ensures Valid()
      ensures popupOpen == (old(popupOpen) || old(file).Some?)
      ensures !old(popupOpen) && old(file).Some? ==> offset == 0 && !perChannel
      ensures old(popupOpen) || old(file).None? ==> offset == old(offset) && perChannel == old(perChannel)
    {
      if file.None? || popupOpen {
        return;
      }
      popupOpen := true;
      SwitchImage();
    }

    /** The two writes of `channel_mode_select`, made while `working`: the variables take the pair at the offset. */
    method RecallPair()
      requires LevelsOk() && working && Levels.Reachable(Levels.Bounds(minDisplay, maxDisplay))
      modifies this`minDisplay, this`maxDisplay, this`displayValues, this`displayed
      ensures LevelsOk() && displayValues == old(displayValues)
      ensures Levels.Bounds(minDisplay, maxDisplay) == Levels.PairAt(displayValues, offset / 2)
      ensures minDisplay < maxDisplay && displayed == Contrast()
    {
      var stored := Levels.PairAt(displayValues, offset / 2);
      assert Levels.Reachable(stored);
      Levels.RestorePair(Levels.Bounds(minDisplay, maxDisplay), stored);
      SetMinVar(displayValues[offset]);
      SetMaxVar(displayValues[offset + 1]);
    }

    /**
     * `channel_mode_select` with the selection mapped to its offset: the
     * stored pair of that selection is written to both variables while the
     * popup is `working`, so the array is left alone and the variables end
     * at exactly the stored pair.
     */
    method ChannelModeSelect(sel: Levels.Selection)
      requires Valid() && popupOpen
      requires sel.Channel? ==> sel.k < scaled.channels
      modifies this`perChannel, this`offset, this`working, this`minDisplay, this`maxDisplay,
               this`displayValues, this`displayed
      ensures Valid()
      ensures perChannel == sel.Channel? && offset == Levels.ChannelOffset(sel)
      ensures displayValues == old(displayValues)
      ensures Levels.Bounds(minDisplay, maxDisplay) == Levels.PairAt(displayValues, offset / 2)
    {
      assert sel.Channel? ==> scaled.channels == imageData.channels <= 4;
      SelectMode(sel);
    }

    /**
     * The body of `channel_mode_select`: mode set, the offset read off the
     * label's last character, and the stored pair recalled while `working`.
     * Images have at most four channels, so that character is the channel's
     * only digit.
     */
    method SelectMode(sel: Levels.Selection)
      requires LevelsOk() && Levels.Reachable(Levels.Bounds(minDisplay, maxDisplay))
      requires sel.Channel? ==> sel.k < scaled.channels <= 4
      modifies this`perChannel, this`offset, this`working, this`minDisplay, this`maxDisplay,
               this`displayValues, this`displayed
      ensures !working && perChannel == sel.Channel? && offset == Levels.ChannelOffset(sel)
      ensures LevelsOk() && displayValues == old(displayValues)
      ensures Levels.Bounds(minDisplay, maxDisplay) == Levels.PairAt(displayValues, offset / 2)
      ensures Levels.Reachable(Levels.Bounds(minDisplay, maxDisplay))
      ensures minDisplay < maxDisplay && displayed == Contrast()
    {
      var k := if sel.All? then 0 else sel.k + 1;
      assert Levels.ChannelOffset(sel) == 2 * k && 2 * k + 1 < |displayValues|;
      if sel.Channel? {
        Levels.LabelOffsetIsLastDigit(sel.k);
      }
      perChannel := sel.Channel?;
      offset := Levels.OffsetFromLabel(Levels.SelectionLabel(sel));
      working := true;
      RecallPair();
      working := false;
    }

    // -------------------------------------------------------------------------
    // Loading and the first view
    // -------------------------------------------------------------------------

    /** The two resets of `load_image`: minimum to 0 and maximum to 255, each only if it differs. */
    method ResetBounds()
      requires LevelsOk() && BoundsOk() && displayed == Contrast()
      modifies this`minDisplay, this`maxDisplay, this`displayValues, this`displayed
      ensures LevelsOk() && minDisplay == 0 && maxDisplay == 255
    {
      if minDisplay != 0 {
        SetMinVar(0);
      }
      if maxDisplay != 255 {
        SetMaxVar(255);
      }
    }

    /**
     * The body of `fit_to_window`: a fresh rectangle at the image's own size,
     * centred, scaled about the canvas centre by the fit scale, which becomes
     * the zoom.
     */
    method FitView(canvasW: nat, canvasH: nat)
      requires canvasW > 4 && canvasH > 4
      requires file.Some? ==> width > 0 && height > 0
      modifies this`zoom, this`container
      ensures old(file).None? ==> zoom == old(zoom) && container == old(container)
      ensures file.Some? ==>
        && zoom == Viewport.FitScale(canvasW, canvasH, width, height)
        && container == Some(Viewport.ScaleAbout(Viewport.InitialRect(canvasW, canvasH, width, height),
                                                 canvasW as real / 2.0, canvasH as real / 2.0, zoom))
        && zoom > 0.0 && ContainerOk()
    {
      if file.None? {
        return;
      }
      var scale := Viewport.FitScale(canvasW, canvasH, width, height);
      FitFacts(canvasW, canvasH, width, height);
      zoom := scale;
      var rect := Viewport.InitialRect(canvasW, canvasH, width, height);
      container := Some(Viewport.ScaleAbout(rect, canvasW as real / 2.0, canvasH as real / 2.0, scale));
    }

    /** `fit_to_window`, the button and the resize of a fitted window (a no-op without a file). */
    method FitToWindow(canvasW: nat, canvasH: nat)
      requires Valid() && canvasW > 4 && canvasH > 4
      modifies this`zoom, this`container
      ensures Valid()
      ensures old(file).None? ==> zoom == old(zoom) && container == old(container)
      ensures file.Some? ==>
        && zoom == Viewport.FitScale(canvasW, canvasH, width, height)
        && container == Some(Viewport.ScaleAbout(Viewport.InitialRect(canvasW, canvasH, width, height),
                                                 canvasW as real / 2.0, canvasH as real / 2.0, zoom))
    {
      FitView(canvasW, canvasH);
    }

    /**
     * The body of `first_show_image`: on loading, an image larger than the
     * canvas is fitted; otherwise it is shown at zoom 1 in a centred rectangle.
     */
    method FirstView(canvasW: nat, canvasH: nat, loading: bool)
      requires file.Some? ==> width > 0 && height > 0
      requires Viewport.NeedsFit(loading, width, height, canvasW, canvasH) ==> canvasW > 4 && canvasH > 4
      modifies this`zoom, this`container
      ensures old(file).None? ==> zoom == old(zoom) && container == old(container)
      ensures file.Some? ==> zoom > 0.0 && ContainerOk()
      ensures file.Some? && !Viewport.NeedsFit(loading, width, height, canvasW, canvasH) ==>
        zoom == 1.0 && container == Some(Viewport.InitialRect(canvasW, canvasH, width, height))
      ensures file.Some? && Viewport.NeedsFit(loading, width, height, canvasW, canvasH) ==>
        zoom == Viewport.FitScale(canvasW, canvasH, width, height)
    {
      if file.None? {
        return;
      }
      if Viewport.NeedsFit(loading, width, height, canvasW, canvasH) {
        FitView(canvasW, canvasH);
      } else {
        zoom := 1.0;
        container := Some(Viewport.InitialRect(canvasW, canvasH, width, height));
      }
    }

    /** `first_show_image` from the reset button: zoom 1 in a centred rectangle (a no-op without a file). */
    method FirstShowImage(canvasW: nat, canvasH: nat)
      requires Valid()
      modifies this`zoom, this`container
      ensures Valid()
      ensures old(file).None? ==> zoom == old(zoom) && container == old(container)
      ensures file.Some? ==> zoom == 1.0 && container == Some(Viewport.InitialRect(canvasW, canvasH, width, height))
    {
      FirstView(canvasW, canvasH, false);
    }

    // -------------------------------------------------------------------------
    // Zoom
    // -------------------------------------------------------------------------

    /**
     * The zoom factor multiplied by `s`, then `zoom_image(x, y, s)`: the
     * rectangle is scaled by `s` about (x, y), so it stays the image at the zoom.
     */
    method ZoomBy(x: real, y: real, s: real)
      requires zoom > 0.0 && s > 0.0 && ContainerOk()
      modifies this`zoom, this`container
      ensures zoom == old(zoom) * s && zoom > 0.0
      ensures container == Some(Viewport.ScaleAbout(old(container).value, x, y, s))
      ensures ContainerOk()
    {
      RescaledFits(container.value, x, y, s, zoom, width, height);
      zoom := zoom * s;
      container := Some(Viewport.ScaleAbout(container.value, x, y, s));
    }

    /** `zoom_in`: towards the canvas centre by `Delta`, unless the zoom is already above a fifth of the smaller canvas side. */
    method ZoomIn(canvasW: int, canvasH: int)
      requires Valid()
      modifies this`zoom, this`container
      ensures Valid()
      ensures old(file).None? || Viewport.ZoomInBlocked(canvasW, canvasH, old(zoom)) ==>
        zoom == old(zoom) && container == old(container)
      ensures old(file).Some? && !Viewport.ZoomInBlocked(canvasW, canvasH, old(zoom)) ==>
        && zoom == old(zoom) * Viewport.Delta
        && container == Some(Viewport.ScaleAbout(old(container).value, canvasW as real / 2.0, canvasH as real / 2.0,
                                                 Viewport.Delta))
    {
      if file.None? || Viewport.ZoomInBlocked(canvasW, canvasH, zoom) {
        return;
      }
      ZoomBy(canvasW as real / 2.0, canvasH as real / 2.0, Viewport.Delta);
    }

    /** `zoom_out`: from the canvas centre by `1/Delta`, unless the smaller image side would be drawn under 30 pixels. */
    method ZoomOut(canvasW: int, canvasH: int)
      requires Valid()
      modifies this`zoom, this`container
      ensures Valid()
      ensures old(file).None? || Viewport.ZoomOutBlocked(width, height, old(zoom)) ==>
        zoom == old(zoom) && container == old(container)
      ensures old(file).Some? && !Viewport.ZoomOutBlocked(width, height, old(zoom)) ==>
        && zoom == old(zoom) / Viewport.Delta
        && container == Some(Viewport.ScaleAbout(old(container).value, canvasW as real / 2.0, canvasH as real / 2.0,
                                                 1.0 / Viewport.Delta))
    {
      if file.None? || Viewport.ZoomOutBlocked(width, height, zoom) {
        return;
      }
      ZoomBy(canvasW as real / 2.0, canvasH as real / 2.0, 1.0 / Viewport.Delta);
    }

    /**
     * `zoom_mouse` at canvas point (x, y), `bbox` being the bounding box of the
     * image rectangle: nothing unless the cursor is strictly inside it; then
     * the wheel scale about the cursor, under the guard of its direction.
     */
    method ZoomMouse(x: real, y: real, bbox: (int, int, int, int), delta: int, canvasW: int, canvasH: int)
      requires Valid()
      modifies this`zoom, this`container
      ensures Valid()
      ensures old(file).None? || !Viewport.Inside(x, y, bbox) ||
              Viewport.WheelScale(delta, width, height, canvasW, canvasH, old(zoom)).None? ==>
        zoom == old(zoom) && container == old(container)
      ensures old(file).Some? && Viewport.Inside(x, y, bbox) &&
              Viewport.WheelScale(delta, width, height, canvasW, canvasH, old(zoom)).Some? ==>
        var s := Viewport.WheelScale(delta, width, height, canvasW, canvasH, old(zoom)).value;
        zoom == old(zoom) * s && container == Some(Viewport.ScaleAbout(old(container).value, x, y, s))
    {
      if file.None? || !Viewport.Inside(x, y, bbox) {
        return;
      }
      var scale := Viewport.WheelScale(delta, width, height, canvasW, canvasH, zoom);
      if scale.None? {
        return;
      }
      ZoomBy(x, y, scale.value);
    }

    /** Scaling the image rectangle at zoom `z` by `s` about any point gives the image at zoom `z * s`. */
    static lemma RescaledFits(r: Viewport.Rect, ax: real, ay: real, s: real, z: real, width: nat, height: nat)
      requires ContainerFits(Some(r), z, width, height)
      ensures ContainerFits(Some(Viewport.ScaleAbout(r, ax, ay, s)), z * s, width, height)
    {
      assert s * (z * width as real) == (z * s) * width as real;
      assert s * (z * height as real) == (z * s) * height as real;
    }

    // -------------------------------------------------------------------------
    // The pixel under the cursor
    // -------------------------------------------------------------------------

    /**
     * `hover_pixel` at canvas point (px, py), `box` being the bounding box of
     * the image rectangle if there is one: the column, the row and the decoded
     * pixel there, or None (the labels show '-').
     */
    method HoverPixel(px: real, py: real, box: Option<(int, int, int, int)>) returns (r: Option<(nat, nat, seq<nat>)>)
      requires Valid()
      ensures r.Some? <==>
        file.Some? && box.Some? && Viewport.HoverLookup(px, py, box.value.0, box.value.1, zoom, height, width).Some?
      ensures r.Some? ==>
        && (r.value.0, r.value.1) == Viewport.HoverLookup(px, py, box.value.0, box.value.1, zoom, height, width).value
        && r.value.1 * width + r.value.0 < |imageData.pixels|
        && r.value.2 == imageData.pixels[r.value.1 * width + r.value.0]
    {
      if file.None? || box.None? {
        return None;
      }
      var at := Viewport.HoverLookup(px, py, box.value.0, box.value.1, zoom, height, width);
      if at.None? {
        return None;
      }
      var (x, y) := at.value;
      RowMajor(x, y, width, height);
      r := Some((x, y, imageData.pixels[y * width + x]));
    }

    /** Pixel (x, y) of a row-major image of `height` rows of `width` pixels is inside it. */
    static lemma RowMajor(x: nat, y: nat, width: nat, height: nat)
      requires x < width && y < height
      ensures y * width + x < height * width
    {
      assert y * width + x < (y + 1) * width;
      assert (y + 1) * width <= height * width;
    }

    // -------------------------------------------------------------------------
    // Planes
    // -------------------------------------------------------------------------

    /**
     * `update_z_display`: with a file, more than one plane and the control
     * moved, the plane the control names is read, normalised and drawn.
     */
    method UpdateZDisplay()
      requires LevelsOk() && minDisplay < maxDisplay && displayed == Contrast()
      requires DataOk()
      requires file.Some? ==> hasData && planes.displayedPlane == planes.dataPlane && (planes.maxPlane > 0 ==> 0 <= planes.zValue <= planes.maxPlane)
      modifies this`planes, this`imageData, this`scaled, this`displayed
      ensures planes == (if file.Some? then Stack.UpdateZ(old(planes)) else old(planes))
      ensures DataOk()
      ensures LevelsOk() && displayed == Contrast()
      ensures planes.displayedPlane == old(planes.displayedPlane) ==>
        unchanged(this`imageData, this`scaled, this`displayed)
      ensures planes.displayedPlane != old(planes.displayedPlane) ==>
        imageData == reader.data[planes.displayedPlane] && scaled == Levels.Rescale(imageData)
    {
      if file.None? || planes.maxPlane == 0 || planes.displayedPlane == planes.zValue {
        return;
      }
      ReadPlane(planes.zValue);
      UpdateContrast();
    }

    /** Plane `p` of the reader becomes the displayed plane, decoded and normalised. */
    method ReadPlane(p: nat)
      requires LevelsOk() && hasData && DataFits(reader, planes.maxPlane, planes.dataPlane, imageData, scaled, width, height)
      requires p <= planes.maxPlane
      modifies this`planes, this`imageData, this`scaled
      ensures planes == old(planes).(displayedPlane := p, dataPlane := p)
      ensures LevelsOk() && DataFits(reader, planes.maxPlane, planes.dataPlane, imageData, scaled, width, height)
      ensures imageData == reader.data[p] && scaled == Levels.Rescale(imageData)
    {
      planes := planes.(displayedPlane := p, dataPlane := p);
      assert Stack.PlaneOk(reader, p);
      imageData := reader.data[p];
      PixelsNonEmpty(imageData);
      Levels.RescaleShape(imageData);
      scaled := Levels.Rescale(imageData);
    }

    /**
     * `set_z_plane` for the entry box or the slider: a text that is not a
     * number is refused and changes nothing; otherwise the plane control takes
     * the entry clamped to the planes ('' meaning 0) and the display follows.
     */
    method SetZPlane(z: Stack.ZInput) returns (ok: bool)
      requires Valid()
      modifies this`planes, this`imageData, this`scaled, this`displayed
      ensures Valid()
      ensures ok == Stack.ParsePlane(z).Some?
      ensures old(file).Some? ==> (ok, planes) == Stack.SelectPlane(old(planes), z)
      ensures old(file).None? ==>
        planes == if ok then old(planes).(zValue := Stack.ClampPlane(Stack.ParsePlane(z).value, planes.maxPlane)) else old(planes)
      ensures planes.displayedPlane == old(planes.displayedPlane) ==>
        unchanged(this`imageData, this`scaled, this`displayed)
      ensures planes.displayedPlane != old(planes.displayedPlane) ==>
        imageData == reader.data[planes.displayedPlane] && scaled == Levels.Rescale(imageData)
    {
      ok := EnterPlane(z);
    }

    /** The body of `set_z_plane`. */
    method EnterPlane(z: Stack.ZInput) returns (ok: bool)
      requires LevelsOk() && minDisplay < maxDisplay && displayed == Contrast()
      requires DataOk()
      requires file.Some? ==> hasData && Stack.InSync(planes)
      modifies this`planes, this`imageData, this`scaled, this`displayed
      ensures ok == Stack.ParsePlane(z).Some?
      ensures file.Some? ==> (ok, planes) == Stack.SelectPlane(old(planes), z) && Stack.InSync(planes)
      ensures file.None? ==>
        planes == if ok then old(planes).(zValue := Stack.ClampPlane(Stack.ParsePlane(z).value, planes.maxPlane)) else old(planes)
      ensures DataOk()
      ensures LevelsOk() && displayed == Contrast()
      ensures planes.displayedPlane == old(planes.displayedPlane) ==>
        unchanged(this`imageData, this`scaled, this`displayed)
      ensures planes.displayedPlane != old(planes.displayedPlane) ==>
        imageData == reader.data[planes.displayedPlane] && scaled == Levels.Rescale(imageData)
    {
      var v := Stack.ParsePlane(z);
      if v.None? {
        return false;
      }
      if file.Some? {
        Stack.SelectPlaneInSync(planes, z);
      }
      planes := planes.(zValue := Stack.ClampPlane(v.value, planes.maxPlane));
      UpdateZDisplay();
      ok := true;
    }

    /**
     * `load_image`. `source` is the reader of the file, or None when opening
     * or decoding it fails.
     */
    method LoadImage(path: string, source: Option<Stack.Reader>, canvasW: nat, canvasH: nat)
      requires Core() && ListOk() && zoom > 0.0
      requires source.Some? ==> Stack.ReaderOk(source.value) && Showable(source.value, canvasW, canvasH)
      modifies this`minDisplay, this`maxDisplay, this`reader, this`planes,
               this`imageData, this`scaled, this`width, this`height, this`displayValues, this`displayed,
               this`file, this`hasData, this`offset, this`perChannel, this`container, this`zoom
      ensures Valid()
      ensures source.None? ==> Shown() == old(Shown()).(file := None, container := None)
      ensures source.Some? ==> Loaded(path, source.value, old(planes))
    {
      if source.None? {
        OpenFailed();
      } else {
        Load(path, source.value, canvasW, canvasH);
      }
    }

    /** `load_image(p)` on the files of `disk`: the file loaded when it opens and decodes, the failure branch otherwise. */
    method OpenPath(p: string, disk: map<string, Stack.Reader>, canvasW: nat, canvasH: nat)
      requires Core() && ListOk() && zoom > 0.0 && DiskOk(disk, canvasW, canvasH)
      modifies this`minDisplay, this`maxDisplay, this`reader, this`planes,
               this`imageData, this`scaled, this`width, this`height, this`displayValues, this`displayed,
               this`file, this`hasData, this`offset, this`perChannel, this`container, this`zoom
      ensures Valid()
      ensures Shows(disk, p, old(Shown()))
    {
      LoadImage(p, Fetch(disk, p), canvasW, canvasH);
    }

    /** The failure branch of `load_image`: no file any more, and the canvas cleared; the previous data stays. */
    method OpenFailed()
      requires Core() && ListOk() && zoom > 0.0
      modifies this`file, this`container
      ensures Valid() && file.None? && container.None?
      ensures Shown() == old(Shown()).(file := None, container := None)
    {
      container := None;
      file := None;
    }

    /**
     * The success branch of `load_image`. The two resets of the slider
     * variables run first: their handlers only read the previous normalised
     * data, array and popup, which the original replaces after them.
     */
    method Load(path: string, rd: Stack.Reader, canvasW: nat, canvasH: nat)
      requires LevelsOk() && BoundsOk() && displayed == Contrast()
      requires !working && (!popupOpen ==> offset == 0 && !perChannel)
      requires ListOk()
      requires Stack.ReaderOk(rd) && Showable(rd, canvasW, canvasH)
      modifies this`minDisplay, this`maxDisplay, this`reader, this`planes,
               this`imageData, this`scaled, this`width, this`height, this`displayValues, this`displayed,
               this`file, this`hasData, this`offset, this`perChannel, this`container, this`zoom
      ensures Valid()
      ensures file == Some(path) && reader == rd
      ensures planes == Stack.LoadZ(old(planes), |rd.data|)
      ensures imageData == rd.data[planes.dataPlane] && scaled == Levels.Rescale(imageData)
      ensures minDisplay == 0 && maxDisplay == 255
      ensures displayValues == Levels.RepeatPair(0, 255, imageData.channels + 1)
      ensures offset == 0 && !perChannel && displayed == scaled
    {
      ResetBounds();
      Install(path, rd, canvasW, canvasH);
    }

    /** What `load_image` does after the resets: read, reset the array, reset the popup and show. */
    method Install(path: string, rd: Stack.Reader, canvasW: nat, canvasH: nat)
      requires minDisplay == 0 && maxDisplay == 255
      requires !working && (!popupOpen ==> offset == 0 && !perChannel)
      requires ListOk()
      requires Stack.ReaderOk(rd) && Showable(rd, canvasW, canvasH)
      modifies this`reader, this`planes,
               this`imageData, this`scaled, this`width, this`height, this`displayValues, this`displayed,
               this`file, this`hasData, this`offset, this`perChannel, this`container, this`zoom
      ensures Valid()
      ensures file == Some(path) && reader == rd
      ensures planes == Stack.LoadZ(old(planes), |rd.data|)
      ensures imageData == rd.data[planes.dataPlane] && scaled == Levels.Rescale(imageData)
      ensures displayValues == Levels.RepeatPair(0, 255, imageData.channels + 1)
      ensures offset == 0 && !perChannel && displayed == scaled
    {
      ReadFile(path, rd, canvasW, canvasH);
      LoadedCore();
    }

    /** The levels, popup and data that `load_image` leaves behind keep the invariant. */
    lemma LoadedCore()
      requires hasData && DataFits(reader, planes.maxPlane, planes.dataPlane, imageData, scaled, width, height)
      requires displayValues == Levels.RepeatPair(0, 255, scaled.channels + 1) && Levels.PairsReachable(displayValues)
      requires displayed == Levels.ApplyWindow(scaled, 0, 255)
      requires minDisplay == 0 && maxDisplay == 255 && !working && offset == 0 && !perChannel
      ensures Core()
    {
    }

    /** The state changes of `load_image`, the first view included. */
    method ReadFile(path: string, rd: Stack.Reader, canvasW: nat, canvasH: nat)
      requires !popupOpen ==> offset == 0 && !perChannel
      requires Stack.ReaderOk(rd) && Showable(rd, canvasW, canvasH)
      modifies this`reader, this`planes,
               this`imageData, this`scaled, this`width, this`height, this`displayValues, this`displayed,
               this`file, this`hasData, this`offset, this`perChannel, this`container, this`zoom
      ensures reader == rd && planes == Stack.LoadZ(old(planes), |rd.data|) && Stack.InSync(planes)
      ensures DataFits(reader, planes.maxPlane, planes.dataPlane, imageData, scaled, width, height)
      ensures imageData == rd.data[planes.dataPlane] && scaled == Levels.Rescale(imageData)
      ensures width > 0 && height > 0
      ensures displayValues == Levels.RepeatPair(0, 255, scaled.channels + 1)
      ensures Levels.PairsReachable(displayValues)
      ensures displayed == scaled && displayed == Levels.ApplyWindow(scaled, 0, 255)
      ensures file == Some(path) && hasData && offset == 0 && !perChannel
      ensures ViewOk()
    {
      ReadPlanes(rd);
      ResetLevels();
      Opened(path, canvasW, canvasH);
    }

    /** `load_image` takes the file, clears the canvas, puts an open popup back to 'All' and shows the image. */
    method Opened(path: string, canvasW: nat, canvasH: nat)
      requires !popupOpen ==> offset == 0 && !perChannel
      requires width > 0 && height > 0
      requires Viewport.NeedsFit(true, width, height, canvasW, canvasH) ==> canvasW > 4 && canvasH > 4
      modifies this`file, this`hasData, this`offset, this`perChannel, this`container, this`zoom
      ensures file == Some(path) && hasData && offset == 0 && !perChannel
      ensures zoom > 0.0 && ContainerOk()
    {
      file, hasData := Some(path), true;
      if popupOpen {
        SwitchImage();
      }
      container := None;
      FirstView(canvasW, canvasH, true);
    }

    /**
     * The reading part of `load_image`: the reader is kept, the middle plane
     * of a stack (the only plane otherwise) is decoded and normalised, and
     * the control moves to that plane. Unlike the original, the displayed
     * plane is set to the plane just read.
     */
    method ReadPlanes(rd: Stack.Reader)
      requires Stack.ReaderOk(rd)
      modifies this`reader, this`planes,
               this`imageData, this`scaled, this`width, this`height
      ensures reader == rd && planes == Stack.LoadZ(old(planes), |rd.data|) && Stack.InSync(planes)
      ensures DataFits(reader, planes.maxPlane, planes.dataPlane, imageData, scaled, width, height)
      ensures imageData == rd.data[planes.dataPlane] && scaled == Levels.Rescale(imageData)
      ensures width > 0 && height > 0
    {
      ghost var z0 := planes;
      reader := rd;
      var last := |rd.data| - 1;
      var plane := if last > 0 then last / 2 else 0;
      assert Stack.PlaneOk(rd, plane);
      imageData := rd.data[plane];
      assert Stack.GoodImage(imageData) && Levels.SameShape(imageData, rd.data[0]);
      planes := Stack.ZState(last, if last > 0 then last / 2 else planes.zValue, plane, plane);
      assert planes == Stack.LoadZ(z0, |rd.data|);
      Stack.LoadZInSync(z0, |rd.data|);
      PixelsNonEmpty(imageData);
      Levels.RescaleShape(imageData);
      scaled := Levels.Rescale(imageData);
      width, height := imageData.width, imageData.height;
    }

    /** The array of `load_image`: the default pair once for the whole image and once per channel; the image drawn as normalised. */
    method ResetLevels()
      requires Levels.WellShaped(scaled) && Levels.EightBit(scaled)
      modifies this`displayValues, this`displayed
      ensures displayValues == Levels.RepeatPair(0, 255, scaled.channels + 1)
      ensures Levels.PairsReachable(displayValues)
      ensures displayed == scaled && displayed == Levels.ApplyWindow(scaled, 0, 255)
    {
      displayValues := Levels.RepeatPair(0, 255, scaled.channels + 1);
      Levels.InitialValuesReachable(scaled.channels);
      Levels.DefaultWindowIsIdentity(scaled);
      displayed := scaled;
    }

    // -------------------------------------------------------------------------
    // The file series, the open dialog and dropped files
    // -------------------------------------------------------------------------

    /**
     * `make_file_list` on the directory `listing` (full paths, in the order
     * the directory lists them): the supported ones, and the position of the
     * current file among them, which must be there.
     */
    method MakeFileList(listing: seq<string>)
      requires Valid() && file.Some? && file.value in Paths.FilterSupported(listing)
      modifies this`fileList, this`currentIndex
      ensures Valid()
      ensures fileList == Paths.FilterSupported(listing)
      ensures currentIndex == FileSeries.IndexOf(fileList, file.value) && fileList[currentIndex] == file.value
    {
      fileList, currentIndex := Paths.FilterSupported(listing), FileSeries.IndexOf(Paths.FilterSupported(listing), file.value);
    }

    /** `next_file`. */
    method NextFile(listing: seq<string>, disk: map<string, Stack.Reader>, canvasW: nat, canvasH: nat)
      requires Valid() && DiskOk(disk, canvasW, canvasH)
      requires file.Some? && fileList == [] ==> file.value in Paths.FilterSupported(listing)
      modifies this`minDisplay, this`maxDisplay, this`reader, this`planes,
               this`imageData, this`scaled, this`width, this`height, this`displayValues, this`displayed,
               this`file, this`hasData, this`offset, this`perChannel, this`container, this`zoom, this`fileList, this`currentIndex
      ensures Valid()
      ensures Browsed(true, listing, disk, old(Shown()), old(fileList), old(currentIndex))
    {
      Browse(true, listing, disk, canvasW, canvasH);
    }

    /** `prev_file`. */
    method PrevFile(listing: seq<string>, disk: map<string, Stack.Reader>, canvasW: nat, canvasH: nat)
      requires Valid() && DiskOk(disk, canvasW, canvasH)
      requires file.Some? && fileList == [] ==> file.value in Paths.FilterSupported(listing)
      modifies this`minDisplay, this`maxDisplay, this`reader, this`planes,
               this`imageData, this`scaled, this`width, this`height, this`displayValues, this`displayed,
               this`file, this`hasData, this`offset, this`perChannel, this`container, this`zoom, this`fileList, this`currentIndex
      ensures Valid()
      ensures Browsed(false, listing, disk, old(Shown()), old(fileList), old(currentIndex))
    {
      Browse(false, listing, disk, canvasW, canvasH);
    }

    /**
     * What a navigation key leaves behind, from the window `s0`, series and
     * position before it: nothing changed without a file; otherwise the series
     * (made from the listing when empty), and unless it holds a single file,
     * one step through it and the file there loaded at zoom 1.
     */
    ghost predicate Browsed(forward: bool, listing: seq<string>, disk: map<string, Stack.Reader>,
                            s0: Snapshot, list0: seq<string>, index0: nat)
      reads this`minDisplay, this`maxDisplay, this`displayValues, this`perChannel, this`offset,
            this`file, this`reader, this`planes, this`hasData, this`imageData, this`scaled, this`displayed,
            this`zoom, this`width, this`height, this`container,
            this`fileList, this`currentIndex
      requires s0.file.Some? && list0 == [] ==> s0.file.value in Paths.FilterSupported(listing)
      requires list0 != [] ==> index0 < |list0|
    {
      if s0.file.None? then
        Shown() == s0 && fileList == list0 && currentIndex == index0
      else
        var series := if list0 == [] then Paths.FilterSupported(listing) else list0;
        var start := if list0 == [] then FileSeries.IndexOf(series, s0.file.value) else index0;
        && fileList == series
        && currentIndex == FileSeries.Navigate(start, |series|, forward)
        && (|series| == 1 ==> Shown() == s0)
        && (|series| >= 2 ==> Shows(disk, series[currentIndex], s0.(zoom := 1.0)))
    }

    /** The body shared by `next_file` and `prev_file`. */
    method Browse(forward: bool, listing: seq<string>, disk: map<string, Stack.Reader>, canvasW: nat, canvasH: nat)
      requires Valid() && DiskOk(disk, canvasW, canvasH)
      requires file.Some? && fileList == [] ==> file.value in Paths.FilterSupported(listing)
      modifies this`minDisplay, this`maxDisplay, this`reader, this`planes,
               this`imageData, this`scaled, this`width, this`height, this`displayValues, this`displayed,
               this`file, this`hasData, this`offset, this`perChannel, this`container, this`zoom, this`fileList, this`currentIndex
      ensures Valid()
      ensures Browsed(forward, listing, disk, old(Shown()), old(fileList), old(currentIndex))
    {
      if file.None? {
        return;
      }
      if fileList == [] {
        MakeFileList(listing);
      }
      if |fileList| == 1 {
        return;
      }
      Step(forward, disk, canvasW, canvasH);
    }

    /** One step through a series of two or more files, at zoom 1, and the file there loaded. */
    method Step(forward: bool, disk: map<string, Stack.Reader>, canvasW: nat, canvasH: nat)
      requires Valid() && DiskOk(disk, canvasW, canvasH) && |fileList| >= 2
      modifies this`minDisplay, this`maxDisplay, this`reader, this`planes,
               this`imageData, this`scaled, this`width, this`height, this`displayValues, this`displayed,
               this`file, this`hasData, this`offset, this`perChannel, this`container, this`zoom, this`currentIndex
      ensures Valid()
      ensures currentIndex == FileSeries.Navigate(old(currentIndex), |fileList|, forward)
      ensures Shows(disk, fileList[currentIndex], old(Shown()).(zoom := 1.0))
    {
      Advance(forward);
      OpenPath(fileList[currentIndex], disk, canvasW, canvasH);
    }

    /** The position one step through the series, and the zoom back to 1. */
    method Advance(forward: bool)
      requires ListOk() && |fileList| >= 2
      modifies this`currentIndex, this`zoom
      ensures currentIndex == FileSeries.Navigate(old(currentIndex), |fileList|, forward) && ListOk()
      ensures zoom == 1.0 && Shown() == old(Shown()).(zoom := 1.0)
    {
      currentIndex, zoom := FileSeries.Navigate(currentIndex, |fileList|, forward), 1.0;
    }

    /** `open_file` with the path the dialog returned ("" when cancelled): the series is dropped and the file loaded. */
    method OpenFile(chosen: string, disk: map<string, Stack.Reader>, canvasW: nat, canvasH: nat)
      requires Valid() && DiskOk(disk, canvasW, canvasH)
      modifies this`minDisplay, this`maxDisplay, this`reader, this`planes,
               this`imageData, this`scaled, this`width, this`height, this`displayValues, this`displayed,
               this`file, this`hasData, this`offset, this`perChannel, this`container, this`zoom, this`fileList
      ensures Valid()
      ensures chosen == "" ==> unchanged(this)
      ensures chosen != "" ==> Shows(disk, chosen, old(Shown())) && fileList == []
    {
      if chosen == "" {
        return;
      }
      fileList := [];
      OpenPath(chosen, disk, canvasW, canvasH);
    }

    /**
     * `on_drop`: the paths of the drop in order; a supported one is loaded
     * here while the window has no file, and opened in a new window once it
     * has one. `windows` lists the paths given to new windows.
     */
    method OnDrop(data: string, disk: map<string, Stack.Reader>, canvasW: nat, canvasH: nat) returns (windows: seq<string>)
      requires Valid() && DiskOk(disk, canvasW, canvasH)
      modifies this`minDisplay, this`maxDisplay, this`reader, this`planes,
               this`imageData, this`scaled, this`width, this`height, this`displayValues, this`displayed,
               this`file, this`hasData, this`offset, this`perChannel, this`container, this`zoom
      ensures Valid()
      ensures (windows, file) == Dispatch(Drop.DropPaths(data), old(file), disk)
    {
      var toOpen := Drop.ParseDrop(data);
      windows := [];
      var i := 0;
      while i < |toOpen|
        invariant 0 <= i <= |toOpen| && Valid()
        invariant (windows, file) == Dispatch(toOpen[..i], old(file), disk)
      {
        DispatchPrefix(toOpen, i, old(file), disk);
        var elsewhere := DropOne(toOpen[i], windows, disk, canvasW, canvasH);
        if elsewhere {
          windows := windows + [toOpen[i]];
        }
        i := i + 1;
      }
      assert toOpen[..i] == toOpen;
    }

    /** One path of a drop: skipped unless supported, sent to a new window when this one has a file, loaded here otherwise. */
    method DropOne(p: string, ghost sent: seq<string>, disk: map<string, Stack.Reader>, canvasW: nat, canvasH: nat)
      returns (elsewhere: bool)
      requires Valid() && DiskOk(disk, canvasW, canvasH)
      modifies this`minDisplay, this`maxDisplay, this`reader, this`planes,
               this`imageData, this`scaled, this`width, this`height, this`displayValues, this`displayed,
               this`file, this`hasData, this`offset, this`perChannel, this`container, this`zoom
      ensures Valid()
      ensures elsewhere == (Paths.IsSupported(p) && old(file).Some?)
      ensures file == if Paths.IsSupported(p) && old(file).None? then Fetched(disk, p) else old(file)
      ensures DropStep((sent, old(file)), p, disk) == (if elsewhere then sent + [p] else sent, file)
    {
      if !Paths.IsSupported(p) {
        return false;
      }
      if file.Some? {
        return true;
      }
      OpenPath(p, disk, canvasW, canvasH);
      elsewhere := false;
    }

    /** A decoded image with at least one row and column has pixels, each holding a sample. */
    static lemma PixelsNonEmpty(img: Levels.Image)
      requires Stack.GoodImage(img)
      ensures |img.pixels| > 0
      ensures forall j :: 0 <= j < |img.pixels| ==> |img.pixels[j]| > 0
    {
      assert img.height * img.width > 0;
    }

    /** The fitted view: a positive zoom whose rectangle is the image at that zoom, inside the canvas margin. */
    static lemma FitFacts(canvasW: nat, canvasH: nat, width: nat, height: nat)
      requires canvasW > 4 && canvasH > 4 && width > 0 && height > 0
      ensures Viewport.FitScale(canvasW, canvasH, width, height) > 0.0
      ensures ContainerFits(Some(Viewport.ScaleAbout(Viewport.InitialRect(canvasW, canvasH, width, height),
                                                     canvasW as real / 2.0, canvasH as real / 2.0,
                                                     Viewport.FitScale(canvasW, canvasH, width, height))),
                            Viewport.FitScale(canvasW, canvasH, width, height), width, height)
    {
      FitScalePositive(canvasW, canvasH, width, height);
      ScaledFits(Viewport.InitialRect(canvasW, canvasH, width, height), canvasW as real / 2.0, canvasH as real / 2.0,
                 Viewport.FitScale(canvasW, canvasH, width, height), width, height);
    }

    /** A rectangle of the image's size, scaled by `s` about any point, is the image at zoom `s`. */
    static lemma ScaledFits(r: Viewport.Rect, ax: real, ay: real, s: real, width: nat, height: nat)
      requires r.x1 - r.x0 == width as real && r.y1 - r.y0 == height as real
      ensures ContainerFits(Some(Viewport.ScaleAbout(r, ax, ay, s)), s, width, height)
    {
    }

    static lemma FitScalePositive(canvasW: nat, canvasH: nat, width: nat, height: nat)
      requires canvasW > 4 && canvasH > 4 && width > 0 && height > 0
      ensures Viewport.FitScale(canvasW, canvasH, width, height) > 0.0
    {
      var sx := (canvasW - 4) as real / width as real;
      var sy := (canvasH - 4) as real / height as real;
      assert sx > 0.0 && sy > 0.0;
    }
  }
}
