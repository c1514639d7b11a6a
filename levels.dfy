/**
 * Sample normalisation and the levels (contrast) window of the viewer.
 *
 * An image is a row-major sequence of pixels; every pixel is a sequence of
 * channel samples. A two-dimensional (grey) image has `channels == 0` and one
 * sample per pixel; an image with `channels == C > 0` has C samples per pixel.
 */
module Levels {
  import Numbers

  datatype Image = Image(height: nat, width: nat, channels: nat, pixels: seq<seq<nat>>)

  /** Samples per pixel: one for a 2-D image, C for a 3-D image with C channels. */
  function Depth(channels: nat): (d: nat)
    ensures d >= 1
    ensures channels > 0 ==> d == channels
  {
    if channels == 0 then 1 else channels
  }

  ghost predicate WellShaped(img: Image) {
    && |img.pixels| == img.height * img.width
    && forall j :: 0 <= j < |img.pixels| ==> |img.pixels[j]| == Depth(img.channels)
  }

  /** Two images with the same height, width and channel count. */
  predicate SameShape(a: Image, b: Image) {
    a.height == b.height && a.width == b.width && a.channels == b.channels
  }

  function Max(a: int, b: int): int { if a >= b then a else b }
  function Min(a: int, b: int): int { if a <= b then a else b }

  // ---------------------------------------------------------------------------
  // Normalisation (rescale_data)
  // ---------------------------------------------------------------------------

  /** Largest sample of one pixel. */
  function PixelMax(p: seq<nat>): nat
    requires |p| > 0
  {
    if |p| == 1 then p[0] else Max(PixelMax(p[..|p| - 1]), p[|p| - 1])
  }

  /** The largest sample of a pixel bounds every sample of it and is one of them. */
  lemma {:induction false} PixelMaxIsMax(p: seq<nat>)
    requires |p| > 0
    ensures forall i :: 0 <= i < |p| ==> p[i] <= PixelMax(p)
    ensures exists i :: 0 <= i < |p| && p[i] == PixelMax(p)
  {
    if |p| > 1 {
      var q := p[..|p| - 1];
      PixelMaxIsMax(q);
      assert forall i :: 0 <= i < |q| ==> q[i] == p[i];
      if PixelMax(q) < p[|p| - 1] {
        assert p[|p| - 1] == PixelMax(p);
      } else {
        var i :| 0 <= i < |q| && q[i] == PixelMax(q);
        assert p[i] == PixelMax(p);
      }
    } else {
      assert p[0] == PixelMax(p);
    }
  }

  /** Largest sample of a whole image, `data.max()`. */
  function SampleMax(px: seq<seq<nat>>): nat
    requires |px| > 0
    requires forall j :: 0 <= j < |px| ==> |px[j]| > 0
  {
    var last := PixelMax(px[|px| - 1]);
    if |px| == 1 then last
    else
      assert forall j :: 0 <= j < |px| - 1 ==> px[..|px| - 1][j] == px[j];
      Max(SampleMax(px[..|px| - 1]), last)
  }

  /** The largest sample of an image bounds every sample and is one of them. */
  lemma {:induction false} SampleMaxIsMax(px: seq<seq<nat>>)
    requires |px| > 0
    requires forall j :: 0 <= j < |px| ==> |px[j]| > 0
    ensures forall j, i :: 0 <= j < |px| && 0 <= i < |px[j]| ==> px[j][i] <= SampleMax(px)
    ensures exists j, i :: 0 <= j < |px| && 0 <= i < |px[j]| && px[j][i] == SampleMax(px)
  {
    var n := |px| - 1;
    PixelMaxIsMax(px[n]);
    if n > 0 {
      var q := px[..n];
      assert forall j :: 0 <= j < |q| ==> q[j] == px[j];
      SampleMaxIsMax(q);
      if SampleMax(q) < PixelMax(px[n]) {
        var i :| 0 <= i < |px[n]| && px[n][i] == PixelMax(px[n]);
        assert px[n][i] == SampleMax(px);
      } else {
        var j, i :| 0 <= j < |q| && 0 <= i < |q[j]| && q[j][i] == SampleMax(q);
        assert px[j][i] == SampleMax(px);
      }
    } else {
      var i :| 0 <= i < |px[n]| && px[n][i] == PixelMax(px[n]);
      assert px[n][i] == SampleMax(px);
    }
  }

  /** Smallest sample of one pixel. */
  function PixelMin(p: seq<nat>): nat
    requires |p| > 0
  {
    if |p| == 1 then p[0] else Min(PixelMin(p[..|p| - 1]), p[|p| - 1])
  }

  /** The smallest sample of a pixel is below every sample of it and is one of them. */
  lemma {:induction false} PixelMinIsMin(p: seq<nat>)
    requires |p| > 0
    ensures forall i :: 0 <= i < |p| ==> PixelMin(p) <= p[i]
    ensures exists i :: 0 <= i < |p| && p[i] == PixelMin(p)
  {
    if |p| > 1 {
      var q := p[..|p| - 1];
      PixelMinIsMin(q);
      assert forall i :: 0 <= i < |q| ==> q[i] == p[i];
      if PixelMin(q) > p[|p| - 1] {
        assert p[|p| - 1] == PixelMin(p);
      } else {
        var i :| 0 <= i < |q| && q[i] == PixelMin(q);
        assert p[i] == PixelMin(p);
      }
    } else {
      assert p[0] == PixelMin(p);
    }
  }

  /** Smallest sample of a whole image, `data.min()`. */
  function SampleMin(px: seq<seq<nat>>): nat
    requires |px| > 0
    requires forall j :: 0 <= j < |px| ==> |px[j]| > 0
  {
    var last := PixelMin(px[|px| - 1]);
    if |px| == 1 then last
    else
      assert forall j :: 0 <= j < |px| - 1 ==> px[..|px| - 1][j] == px[j];
      Min(SampleMin(px[..|px| - 1]), last)
  }

  /** The smallest sample of an image is below every sample and is one of them. */
  lemma {:induction false} SampleMinIsMin(px: seq<seq<nat>>)
    requires |px| > 0
    requires forall j :: 0 <= j < |px| ==> |px[j]| > 0
    ensures forall j, i :: 0 <= j < |px| && 0 <= i < |px[j]| ==> SampleMin(px) <= px[j][i]
    ensures exists j, i :: 0 <= j < |px| && 0 <= i < |px[j]| && px[j][i] == SampleMin(px)
  {
    var n := |px| - 1;
    PixelMinIsMin(px[n]);
    if n > 0 {
      var q := px[..n];
      assert forall j :: 0 <= j < |q| ==> q[j] == px[j];
      SampleMinIsMin(q);
      if SampleMin(q) > PixelMin(px[n]) {
        var i :| 0 <= i < |px[n]| && px[n][i] == PixelMin(px[n]);
        assert px[n][i] == SampleMin(px);
      } else {
        var j, i :| 0 <= j < |q| && 0 <= i < |q[j]| && q[j][i] == SampleMin(q);
        assert px[j][i] == SampleMin(px);
      }
    } else {
      var i :| 0 <= i < |px[n]| && px[n][i] == PixelMin(px[n]);
      assert px[n][i] == SampleMin(px);
    }
  }

  /** The conversion to an unsigned 8-bit sample: the low eight bits. */
  function ToUint8(x: nat): (r: nat)
    ensures r < 256
    ensures x < 256 ==> r == x
  {
    x % 256
  }

  /**
   * One sample of `rescale_data`: the branch is chosen by the image maximum
   * `maxval` alone; the quotient of a non-negative sample by a positive
   * divisor, truncated, is the floor division.
   */
  function RescaleSample(v: nat, maxval: nat): (r: nat)
    ensures r < 256
    ensures maxval > 1 ==> r == ToUint8(v / Divisor(maxval))
    ensures maxval <= 1 ==> r == ToUint8(v * 256)
  {
    if maxval >= 4096 then ToUint8(v / 265)
    else if maxval >= 1024 then ToUint8(v / 16)
    else if maxval >= 256 then ToUint8(v / 4)
    else if maxval <= 1 then ToUint8(v * 256)
    else ToUint8(v)
  }

  /** The divisor the step function picks for a maximum above one. */
  function Divisor(maxval: nat): (d: nat)
    ensures d == 1 || d == 4 || d == 16 || d == 265
    ensures d == 1 <==> maxval < 256
  {
    if maxval >= 4096 then 265 else if maxval >= 1024 then 16 else if maxval >= 256 then 4 else 1
  }

  /** One pixel of `rescale_data`: each sample stepped by the image maximum `m`. */
  function RescalePixel(p: seq<nat>, m: nat): (r: seq<nat>)
    ensures |r| == |p|
  {
    seq(|p|, i requires 0 <= i < |p| => RescaleSample(p[i], m))
  }

  /** The pixels of `rescale_data`, one pixel after the other. */
  function RescaleRows(px: seq<seq<nat>>, m: nat): (r: seq<seq<nat>>)
    ensures |r| == |px|
  {
    if px == [] then [] else [RescalePixel(px[0], m)] + RescaleRows(px[1..], m)
  }

  /** Pixel j of the rescaled pixels is pixel j of the input, stepped. */
  lemma {:induction false} RescaleRowsAt(px: seq<seq<nat>>, m: nat, j: nat)
    requires j < |px|
    ensures RescaleRows(px, m)[j] == RescalePixel(px[j], m)
  {
    if j > 0 {
      RescaleRowsAt(px[1..], m, j - 1);
    }
  }

  /** `rescale_data`: every sample normalised against the image maximum. */
  function Rescale(img: Image): (r: Image)
    requires |img.pixels| > 0
    requires forall j :: 0 <= j < |img.pixels| ==> |img.pixels[j]| > 0
    ensures SameShape(r, img) && |r.pixels| == |img.pixels|
  {
    img.(pixels := RescaleRows(img.pixels, SampleMax(img.pixels)))
  }

  /** Each pixel of the rescaled image keeps its sample count, and each sample is stepped by the image's own maximum. */
  lemma RescaleAt(img: Image, j: nat, i: nat)
    requires |img.pixels| > 0
    requires forall k :: 0 <= k < |img.pixels| ==> |img.pixels[k]| > 0
    requires j < |img.pixels|
    ensures |Rescale(img).pixels[j]| == |img.pixels[j]|
    ensures i < |img.pixels[j]| ==> Rescale(img).pixels[j][i] == RescaleSample(img.pixels[j][i], SampleMax(img.pixels))
  {
    RescaleRowsAt(img.pixels, SampleMax(img.pixels), j);
  }

  /**
   * For integer samples whose maximum lies in 2..65535 every output is the
   * floor of the sample by the divisor of the step function (265, 16, 4 or 1),
   * and it lies in 0..255: no sample wraps.
   */
  lemma RescaleStep(img: Image, j: nat, i: nat)
    requires |img.pixels| > 0
    requires forall k :: 0 <= k < |img.pixels| ==> |img.pixels[k]| > 0
    requires 1 < SampleMax(img.pixels) <= 65535
    requires j < |img.pixels| && i < |img.pixels[j]|
    ensures i < |Rescale(img).pixels[j]|
    ensures Rescale(img).pixels[j][i] == img.pixels[j][i] / Divisor(SampleMax(img.pixels))
    ensures Rescale(img).pixels[j][i] <= 255
  {
    RescaleAt(img, j, i);
    SampleMaxIsMax(img.pixels);
    var m := SampleMax(img.pixels);
    var v := img.pixels[j][i];
    assert v <= m;
    if m >= 4096 {
      assert v / 265 <= 65535 / 265;
    } else if m >= 1024 {
      assert v / 16 <= 4095 / 16;
    } else if m >= 256 {
      assert v / 4 <= 1023 / 4;
    }
  }

  /** Within one image the normalisation never reverses the order of two samples (maximum 2..65535). */
  lemma RescaleMonotone(img: Image, j1: nat, i1: nat, j2: nat, i2: nat)
    requires |img.pixels| > 0
    requires forall k :: 0 <= k < |img.pixels| ==> |img.pixels[k]| > 0
    requires 1 < SampleMax(img.pixels) <= 65535
    requires j1 < |img.pixels| && i1 < |img.pixels[j1]|
    requires j2 < |img.pixels| && i2 < |img.pixels[j2]|
    requires img.pixels[j1][i1] <= img.pixels[j2][i2]
    ensures i1 < |Rescale(img).pixels[j1]| && i2 < |Rescale(img).pixels[j2]|
    ensures Rescale(img).pixels[j1][i1] <= Rescale(img).pixels[j2][i2]
  {
    RescaleStep(img, j1, i1);
    RescaleStep(img, j2, i2);
    DivMonotone(img.pixels[j1][i1], img.pixels[j2][i2], Divisor(SampleMax(img.pixels)));
  }

  lemma DivMonotone(a: nat, b: nat, d: nat)
    requires a <= b && d > 0
    ensures a / d <= b / d
  {
    if a / d > b / d {
      calc {
        b;
      <  (b / d + 1) * d;
      <= (a / d) * d;
      <= a;
      }
    }
  }

  /**
   * The `max <= 1` branch multiplies by 256 before the 8-bit conversion, so an
   * integer image holding only 0 and 1 (a mask) normalises to all zeros.
   */
  lemma RescaleUnitMaxIsZero(img: Image, j: nat, i: nat)
    requires |img.pixels| > 0
    requires forall k :: 0 <= k < |img.pixels| ==> |img.pixels[k]| > 0
    requires SampleMax(img.pixels) <= 1
    requires j < |img.pixels| && i < |img.pixels[j]|
    ensures i < |Rescale(img).pixels[j]| && Rescale(img).pixels[j][i] == 0
  {
    RescaleAt(img, j, i);
    SampleMaxIsMax(img.pixels);
    var v := img.pixels[j][i];
    assert v <= 1;
  }

  /** Boundary values of the divisor step: 255/256, 1023/1024, 4095/4096. */
  lemma DivisorBoundaries()
    ensures Divisor(255) == 1 && Divisor(256) == 4
    ensures Divisor(1023) == 4 && Divisor(1024) == 16
    ensures Divisor(4095) == 16 && Divisor(4096) == 265
  {
  }

  // ---------------------------------------------------------------------------
  // The levels window (update_contrast)
  // ---------------------------------------------------------------------------

  /**
   * One sample through the window `lo < hi`: samples below `lo` are raised to
   * `lo`, the range is mapped linearly onto [0, 1], values above 1 are cut to 1,
   * and the result is scaled by 255 and truncated (exact arithmetic).
   */
  function WindowSample(v: int, lo: int, hi: int): (r: int)
    requires lo < hi
    ensures 0 <= r <= 255
    ensures v <= lo ==> r == 0
    ensures v >= hi ==> r == 255
  {
    var t := (Max(v, lo) - lo) as real / (hi - lo) as real;
    assert v >= hi ==> t >= 1.0 by { if v >= hi { QuotientAtLeastOne(Max(v, lo) - lo, hi - lo); } }
    var c := if t > 1.0 then 1.0 else t;
    (c * 255.0).Floor
  }

  lemma QuotientAtLeastOne(a: int, b: int)
    requires 0 < b <= a
    ensures a as real / b as real >= 1.0
  {
  }

  /** The same map written with integer division only: a reference definition. */
  function WindowSampleInt(v: int, lo: int, hi: int): int
    requires lo < hi
  {
    if v >= hi then 255 else ((Max(v, lo) - lo) * 255) / (hi - lo)
  }

  lemma {:induction false} WindowSampleExact(v: int, lo: int, hi: int)
    requires lo < hi
    ensures WindowSample(v, lo, hi) == WindowSampleInt(v, lo, hi)
  {
    if lo < v < hi {
      var a, b := v - lo, hi - lo;
      var q, rem := (a * 255) / b, (a * 255) % b;
      assert a * 255 == q * b + rem && 0 <= rem < b;
      var t := a as real / b as real;
      assert t < 1.0 by { DivLess(a, b); }
      assert t * 255.0 == (a * 255) as real / b as real;
      FloorOfQuotient(a * 255, b);
    }
  }

  lemma DivLess(a: int, b: int)
    requires 0 <= a < b
    ensures a as real / b as real < 1.0
  {
  }

  lemma FloorOfQuotient(n: int, d: int)
    requires n >= 0 && d > 0
    ensures (n as real / d as real).Floor == n / d
  {
    var q, r := n / d, n % d;
    assert n == q * d + r && 0 <= r < d;
    assert n as real / d as real == q as real + r as real / d as real;
    assert 0.0 <= r as real / d as real < 1.0;
  }

  /** The window map never reverses the order of two samples. */
  lemma WindowMonotone(v1: int, v2: int, lo: int, hi: int)
    requires lo < hi && v1 <= v2
    ensures WindowSample(v1, lo, hi) <= WindowSample(v2, lo, hi)
  {
    WindowSampleExact(v1, lo, hi);
    WindowSampleExact(v2, lo, hi);
    if v2 < hi {
      var a1, a2 := (Max(v1, lo) - lo) * 255, (Max(v2, lo) - lo) * 255;
      DivMonotone(a1, a2, hi - lo);
    } else if v1 < hi {
      assert (Max(v1, lo) - lo) * 255 < (hi - lo) * 255;
      DivBelow((Max(v1, lo) - lo) * 255, hi - lo, 255);
    }
  }

  lemma DivBelow(n: nat, d: nat, k: nat)
    requires d > 0 && n < d * k
    ensures n / d < k
  {
  }

  /** The default window (0, 255) shows every 8-bit sample unchanged. */
  lemma WindowIdentity(v: int)
    requires 0 <= v <= 255
    ensures WindowSample(v, 0, 255) == v
  {
    WindowSampleExact(v, 0, 255);
  }

  /** One pixel in global mode: each sample through the window (lo, hi). */
  function WindowPixel(p: seq<nat>, lo: int, hi: int): (r: seq<nat>)
    requires lo < hi
    ensures |r| == |p|
  {
    seq(|p|, i requires 0 <= i < |p| => WindowSample(p[i], lo, hi) as nat)
  }

  /** The pixels in global mode, one pixel after the other. */
  function WindowRows(px: seq<seq<nat>>, lo: int, hi: int): (r: seq<seq<nat>>)
    requires lo < hi
    ensures |r| == |px|
  {
    if px == [] then [] else [WindowPixel(px[0], lo, hi)] + WindowRows(px[1..], lo, hi)
  }

  lemma {:induction false} WindowRowsAt(px: seq<seq<nat>>, lo: int, hi: int, j: nat)
    requires lo < hi && j < |px|
    ensures WindowRows(px, lo, hi)[j] == WindowPixel(px[j], lo, hi)
  {
    if j > 0 {
      WindowRowsAt(px[1..], lo, hi, j - 1);
    }
  }

  /** Global mode: one window for every sample of every channel. */
  function ApplyWindow(img: Image, lo: int, hi: int): (r: Image)
    requires lo < hi
    ensures SameShape(r, img) && |r.pixels| == |img.pixels|
  {
    img.(pixels := WindowRows(img.pixels, lo, hi))
  }

  /** Pixel j of the windowed image: as many samples as before, each one through the window. */
  lemma ApplyWindowAt(img: Image, lo: int, hi: int, j: nat)
    requires lo < hi && j < |img.pixels|
    ensures |ApplyWindow(img, lo, hi).pixels[j]| == |img.pixels[j]|
    ensures forall i :: 0 <= i < |img.pixels[j]| ==>
      ApplyWindow(img, lo, hi).pixels[j][i] == WindowSample(img.pixels[j][i], lo, hi)
  {
    WindowRowsAt(img.pixels, lo, hi, j);
  }

  /** Every sample fits in eight bits. */
  ghost predicate EightBit(img: Image) {
    forall j, i :: 0 <= j < |img.pixels| && 0 <= i < |img.pixels[j]| ==> img.pixels[j][i] <= 255
  }

  /** A normalised image of at least one pixel: every pixel holds samples, and its least and greatest sample are ordered bytes. */
  lemma EightBitRange(img: Image)
    requires WellShaped(img) && |img.pixels| > 0 && EightBit(img)
    ensures forall j :: 0 <= j < |img.pixels| ==> |img.pixels[j]| > 0
    ensures 0 <= SampleMin(img.pixels) <= SampleMax(img.pixels) <= 255
  {
    assert forall j :: 0 <= j < |img.pixels| ==> |img.pixels[j]| == Depth(img.channels);
    SampleRange(img.pixels);
  }

  /** The normalised image is eight-bit and keeps the shape of the decoded one. */
  lemma RescaleShape(img: Image)
    requires WellShaped(img) && |img.pixels| > 0
    ensures forall j :: 0 <= j < |img.pixels| ==> |img.pixels[j]| > 0
    ensures WellShaped(Rescale(img)) && EightBit(Rescale(img))
  {
    assert forall j :: 0 <= j < |img.pixels| ==> |img.pixels[j]| == Depth(img.channels);
    var r := Rescale(img);
    forall j | 0 <= j < |r.pixels|
      ensures |r.pixels[j]| == Depth(r.channels)
      ensures forall i :: 0 <= i < |r.pixels[j]| ==> r.pixels[j][i] <= 255
    {
      RescaleAt(img, j, 0);
      forall i | 0 <= i < |r.pixels[j]| ensures r.pixels[j][i] <= 255 {
        RescaleAt(img, j, i);
      }
    }
  }

  /** The least and greatest samples of a non-empty eight-bit image are ordered bytes. */
  lemma SampleRange(px: seq<seq<nat>>)
    requires |px| > 0
    requires forall j :: 0 <= j < |px| ==> |px[j]| > 0
    requires forall j, i :: 0 <= j < |px| && 0 <= i < |px[j]| ==> px[j][i] <= 255
    ensures 0 <= SampleMin(px) <= SampleMax(px) <= 255
  {
    SampleMinIsMin(px);
    SampleMaxIsMax(px);
    var lo := SampleMin(px);
    var hi := SampleMax(px);
    var j, i :| 0 <= j < |px| && 0 <= i < |px[j]| && px[j][i] == hi;
    assert lo <= px[j][i];
  }

  /** The default window leaves an eight-bit image as it is: a freshly loaded image is shown as normalised. */
  lemma DefaultWindowIsIdentity(img: Image)
    requires EightBit(img)
    ensures ApplyWindow(img, 0, 255) == img
  {
    var r := ApplyWindow(img, 0, 255);
    forall j | 0 <= j < |img.pixels| ensures r.pixels[j] == img.pixels[j] {
      ApplyWindowAt(img, 0, 255, j);
      forall i | 0 <= i < |img.pixels[j]| ensures r.pixels[j][i] == img.pixels[j][i] {
        WindowIdentity(img.pixels[j][i]);
      }
    }
  }

  /**
   * The per-channel bounds array: slots 0 and 1 hold the global pair, slots
   * 2k + 2 and 2k + 3 the pair of channel k. Every pair is ordered.
   */
  ghost predicate PairsOrdered(bounds: seq<int>) {
    && |bounds| % 2 == 0
    && forall k :: 0 <= k < |bounds| / 2 ==> PairOrdered(bounds, k)
  }

  /** Slot pair k, that is slots 2k and 2k + 1, is ordered. */
  ghost predicate PairOrdered(bounds: seq<int>, k: nat)
    requires 2 * k + 1 < |bounds|
  {
    bounds[2 * k] < bounds[2 * k + 1]
  }

  /** One pixel in per-channel mode: its channel i goes through pair i + 1 of `bounds`. */
  function PixelPerChannel(p: seq<nat>, bounds: seq<int>): (r: seq<nat>)
    requires |bounds| >= 2 * (|p| + 1) && PairsOrdered(bounds)
    ensures |r| == |p|
    ensures forall i :: 0 <= i < |p| ==>
      PairOrdered(bounds, i + 1) && r[i] == WindowSample(p[i], bounds[2 + 2 * i], bounds[3 + 2 * i])
  {
    seq(|p|, i requires 0 <= i < |p| =>
      assert PairOrdered(bounds, i + 1);
      WindowSample(p[i], bounds[2 + 2 * i], bounds[3 + 2 * i]) as nat)
  }

  /** The pixels in per-channel mode, one pixel after the other. */
  function PerChannelRows(px: seq<seq<nat>>, bounds: seq<int>): (r: seq<seq<nat>>)
    requires forall j :: 0 <= j < |px| ==> |bounds| >= 2 * (|px[j]| + 1)
    requires PairsOrdered(bounds)
    ensures |r| == |px|
  {
    if px == [] then [] else [PixelPerChannel(px[0], bounds)] + PerChannelRows(px[1..], bounds)
  }

  lemma {:induction false} PerChannelRowsAt(px: seq<seq<nat>>, bounds: seq<int>, j: nat)
    requires forall k :: 0 <= k < |px| ==> |bounds| >= 2 * (|px[k]| + 1)
    requires PairsOrdered(bounds) && j < |px|
    ensures PerChannelRows(px, bounds)[j] == PixelPerChannel(px[j], bounds)
  {
    if j > 0 {
      PerChannelRowsAt(px[1..], bounds, j - 1);
    }
  }

  /** Per-channel mode: channel i of every pixel goes through its own pair; channel order is kept. */
  function ApplyPerChannel(img: Image, bounds: seq<int>): (r: Image)
    requires img.channels > 0 && WellShaped(img)
    requires |bounds| >= 2 * (img.channels + 1) && PairsOrdered(bounds)
    ensures SameShape(r, img) && |r.pixels| == |img.pixels|
  {
    assert forall j :: 0 <= j < |img.pixels| ==> |img.pixels[j]| == img.channels;
    img.(pixels := PerChannelRows(img.pixels, bounds))
  }

  /** Pixel j in per-channel mode: one sample per channel, channel i through pair i + 1. */
  lemma ApplyPerChannelAt(img: Image, bounds: seq<int>, j: nat)
    requires img.channels > 0 && WellShaped(img)
    requires |bounds| >= 2 * (img.channels + 1) && PairsOrdered(bounds)
    requires j < |img.pixels|
    ensures |ApplyPerChannel(img, bounds).pixels[j]| == img.channels
    ensures forall i :: 0 <= i < img.channels ==>
      PairOrdered(bounds, i + 1) &&
      ApplyPerChannel(img, bounds).pixels[j][i] == WindowSample(img.pixels[j][i], bounds[2 + 2 * i], bounds[3 + 2 * i])
  {
    assert forall k :: 0 <= k < |img.pixels| ==> |img.pixels[k]| == img.channels;
    PerChannelRowsAt(img.pixels, bounds, j);
  }

  /** What `update_contrast` draws: one window per channel in per-channel mode, the global window otherwise. */
  function Draw(img: Image, vals: seq<int>, perChannel: bool, lo: int, hi: int): Image
    requires WellShaped(img) && |vals| == 2 * (img.channels + 1) && PairsReachable(vals)
    requires perChannel ==> img.channels > 0
    requires lo < hi
  {
    ReachableOrdered(vals);
    if perChannel then ApplyPerChannel(img, vals) else ApplyWindow(img, lo, hi)
  }

  /** `channel_data` of one loop pass: channel i of every pixel through the window (lo, hi). */
  function ChannelWindow(img: Image, i: nat, lo: int, hi: int): (r: seq<nat>)
    requires WellShaped(img) && i < img.channels && lo < hi
    ensures |r| == |img.pixels|
    ensures forall j :: 0 <= j < |r| ==> r[j] == WindowSample(img.pixels[j][i], lo, hi)
  {
    seq(|img.pixels|, j requires 0 <= j < |img.pixels| => WindowSample(img.pixels[j][i], lo, hi) as nat)
  }

  /** `np.dstack`: the channel planes of `pool` put back together, pixel by pixel. */
  function Dstack(img: Image, pool: seq<seq<nat>>): (r: Image)
    requires |pool| == img.channels
    requires forall i :: 0 <= i < |pool| ==> |pool[i]| == |img.pixels|
    ensures SameShape(r, img) && |r.pixels| == |img.pixels|
    ensures forall j, i :: 0 <= j < |r.pixels| && 0 <= i < |pool| ==> |r.pixels[j]| == |pool| && r.pixels[j][i] == pool[i][j]
  {
    img.(pixels := seq(|img.pixels|, j requires 0 <= j < |img.pixels| =>
      seq(|pool|, i requires 0 <= i < |pool| => pool[i][j])))
  }

  /** Windowing the channels one at a time and stacking them is the per-channel window. */
  lemma DstackIsPerChannel(img: Image, bounds: seq<int>, pool: seq<seq<nat>>)
    requires img.channels > 0 && WellShaped(img)
    requires |bounds| >= 2 * (img.channels + 1) && PairsOrdered(bounds)
    requires |pool| == img.channels
    requires forall i :: 0 <= i < |pool| ==> |pool[i]| == |img.pixels|
    requires forall i :: 0 <= i < |pool| ==>
      PairOrdered(bounds, i + 1) && pool[i] == ChannelWindow(img, i, bounds[2 + 2 * i], bounds[3 + 2 * i])
    ensures Dstack(img, pool) == ApplyPerChannel(img, bounds)
  {
    var d := Dstack(img, pool);
    var a := ApplyPerChannel(img, bounds);
    assert |d.pixels| == |a.pixels|;
    forall j | 0 <= j < |d.pixels| ensures d.pixels[j] == a.pixels[j] {
      ApplyPerChannelAt(img, bounds, j);
      assert |d.pixels[j]| == img.channels == |a.pixels[j]|;
      forall i | 0 <= i < img.channels ensures d.pixels[j][i] == a.pixels[j][i] {
        assert d.pixels[j][i] == pool[i][j];
      }
    }
  }

  // ---------------------------------------------------------------------------
  // Bound correction (update_min_display / update_max_display)
  // ---------------------------------------------------------------------------

  /** The pair of display bounds held by the two slider variables. */
  datatype Bounds = Bounds(lo: int, hi: int)

  /**
   * The bounds once the minimum handler and every handler it re-enters have
   * run, given the variables just after the minimum was written as `lo`.
   * The bound the user set is kept (except 255, pulled down to 254), the
   * other bound moves only when the pair would not be ordered, and the
   * result is always ordered.
   */
  function AfterMinWrite(lo: int, hi: int): (r: Bounds)
    ensures r.lo < r.hi
    ensures lo != 255 ==> r.lo == lo
    ensures lo == 255 ==> r.lo == 254
    ensures lo < hi && lo != 255 ==> r == Bounds(lo, hi)
    ensures lo >= hi && 0 <= lo <= 254 ==> r.hi == lo + 1
  {
    if lo == 255 then Bounds(254, if hi <= 255 then 256 else hi)
    else if lo >= hi then (if lo == -1 then Bounds(-1, 1) else Bounds(lo, lo + 1))
    else Bounds(lo, hi)
  }

  /** The mirror image for the maximum handler: 0 is pushed up to 1. */
  function AfterMaxWrite(lo: int, hi: int): (r: Bounds)
    ensures r.lo < r.hi
    ensures hi != 0 ==> r.hi == hi
    ensures hi == 0 ==> r.hi == 1
    ensures lo < hi && hi != 0 ==> r == Bounds(lo, hi)
    ensures lo >= hi && 1 <= hi <= 255 ==> r.lo == hi - 1
  {
    if hi == 0 then (if lo >= 0 then Bounds(-1, 1) else Bounds(lo, 1))
    else if lo >= hi then (if hi == 256 then Bounds(254, 256) else Bounds(hi - 1, hi))
    else Bounds(lo, hi)
  }

  /**
   * The pairs the two variables can hold: ordered, the minimum in -1..254 and
   * the maximum in 1..256 (the two overshoots come from the edge cascades).
   */
  predicate Reachable(b: Bounds) {
    -1 <= b.lo <= 254 && 1 <= b.hi <= 256 && b.lo < b.hi
  }

  /** Slot pair k of the bounds array. */
  function PairAt(vals: seq<int>, k: nat): Bounds
    requires 2 * k + 1 < |vals|
  {
    Bounds(vals[2 * k], vals[2 * k + 1])
  }

  /** A bounds array made of whole pairs, each one a pair the variables can hold. */
  ghost predicate PairsReachable(vals: seq<int>) {
    && |vals| % 2 == 0
    && forall k :: 0 <= k < |vals| / 2 ==> Reachable(PairAt(vals, k))
  }

  lemma ReachableOrdered(vals: seq<int>)
    requires PairsReachable(vals)
    ensures PairsOrdered(vals)
  {
    forall k | 0 <= k < |vals| / 2 ensures PairOrdered(vals, k) {
      assert Reachable(PairAt(vals, k));
    }
  }

  /** Writing a reachable pair over pair k keeps the array well formed and changes only that pair. */
  lemma WritePair(vals: seq<int>, k: nat, b: Bounds)
    requires PairsReachable(vals) && 2 * k + 1 < |vals| && Reachable(b)
    ensures var w := vals[2 * k := b.lo][2 * k + 1 := b.hi];
      && PairsReachable(w) && PairAt(w, k) == b
      && forall m :: 0 <= m < |vals| / 2 && m != k ==> PairAt(w, m) == PairAt(vals, m)
  {
    var w := vals[2 * k := b.lo][2 * k + 1 := b.hi];
    forall m | 0 <= m < |w| / 2 ensures Reachable(PairAt(w, m)) {
      if m != k {
        assert PairAt(w, m) == PairAt(vals, m);
      }
    }
  }

  /** `[lo, hi] * n`. */
  function RepeatPair(lo: int, hi: int, n: nat): (r: seq<int>)
    ensures |r| == 2 * n
    ensures forall k :: 0 <= k < n ==> PairAt(r, k) == Bounds(lo, hi)
  {
    if n == 0 then [] else
      var rest := RepeatPair(lo, hi, n - 1);
      assert forall k :: 1 <= k < n ==> PairAt([lo, hi] + rest, k) == PairAt(rest, k - 1);
      [lo, hi] + rest
  }

  /** The array a load sets up: the default pair for the global slot and for every channel. */
  lemma InitialValuesReachable(channels: nat)
    ensures PairsReachable(RepeatPair(0, 255, channels + 1))
  {
  }

  /**
   * Setting the minimum to a slider value m in 0..255: m in 0..254 is kept and
   * the maximum becomes m + 1 exactly when m >= max; 255 ends at (254, 256).
   */
  lemma SetMinFromSlider(old_: Bounds, m: int)
    requires Reachable(old_) && 0 <= m <= 255
    ensures Reachable(AfterMinWrite(m, old_.hi))
    ensures m <= 254 && m >= old_.hi ==> AfterMinWrite(m, old_.hi) == Bounds(m, m + 1)
    ensures m <= 254 && m < old_.hi ==> AfterMinWrite(m, old_.hi) == Bounds(m, old_.hi)
    ensures m == 255 ==> AfterMinWrite(m, old_.hi) == Bounds(254, 256)
  {
  }

  /**
   * Setting the maximum to a slider value M in 0..255: M in 1..255 is kept and
   * the minimum becomes M - 1 exactly when min >= M; 0 ends at (-1, 1).
   */
  lemma SetMaxFromSlider(old_: Bounds, m: int)
    requires Reachable(old_) && 0 <= m <= 255
    ensures Reachable(AfterMaxWrite(old_.lo, m))
    ensures m >= 1 && old_.lo >= m ==> AfterMaxWrite(old_.lo, m) == Bounds(m - 1, m)
    ensures m >= 1 && old_.lo < m ==> AfterMaxWrite(old_.lo, m) == Bounds(old_.lo, m)
    ensures m == 0 ==> AfterMaxWrite(old_.lo, m) == Bounds(-1, 1)
  {
  }

  /**
   * Writing both variables from a stored reachable pair (minimum first, as the
   * channel selector does) ends exactly at that pair, whatever came before.
   */
  lemma RestorePair(cur: Bounds, stored: Bounds)
    requires Reachable(cur) && Reachable(stored)
    ensures AfterMaxWrite(AfterMinWrite(stored.lo, cur.hi).lo, stored.hi) == stored
  {
  }

  /**
   * Auto-contrast writes the minimum of the normalised data, then its maximum.
   * Distinct extremes become the bounds; a constant image with value v ends at
   * (v - 1, v), or at (-1, 1) when v is 0.
   */
  lemma AutoContrastBounds(cur: Bounds, dmin: int, dmax: int)
    requires Reachable(cur) && 0 <= dmin <= dmax <= 255
    ensures var r := AfterMaxWrite(AfterMinWrite(dmin, cur.hi).lo, dmax);
      && Reachable(r)
      && (dmin < dmax ==> r == Bounds(dmin, dmax))
      && (dmin == dmax && dmin > 0 ==> r == Bounds(dmin - 1, dmin))
      && (dmin == dmax == 0 ==> r == Bounds(-1, 1))
  {
  }

  // ---------------------------------------------------------------------------
  // Channel selection (DisplayPopup.channel_mode_select)
  // ---------------------------------------------------------------------------

  /** An entry of the channel selector: 'All' or 'Channel k'. */
  datatype Selection = All | Channel(k: nat)

  /** The text the selector shows for channel k. */
  function ChannelLabel(k: nat): string { "Channel " + Numbers.Decimal(k) }

  /** The text the selector shows for an entry. */
  function SelectionLabel(sel: Selection): (r: string)
    ensures r == "All" <==> sel.All?
  {
    match sel
    case All => "All"
    case Channel(k) => ChannelLabel(k)
  }

  /** The entries offered for an image with `channels` channels (none for a 2-D image). */
  function Choices(channels: nat): (r: seq<Selection>)
    ensures |r| == channels + 1 && r[0] == All
    ensures forall k :: 0 <= k < channels ==> r[k + 1] == Channel(k)
  {
    [All] + seq(channels, k requires 0 <= k < channels => Channel(k))
  }

  /**
   * Slot of the selection's pair in the bounds array: 0 for 'All' and
   * 2(k + 1) for channel k, so a selection offered for a C-channel image and its
   * successor slot both index an array of length 2(C + 1).
   */
  function ChannelOffset(sel: Selection): (offset: nat)
    ensures offset % 2 == 0
    ensures sel.All? <==> offset == 0
    ensures sel.Channel? ==> offset == 2 * (sel.k + 1)
  {
    match sel
    case All => 0
    case Channel(k) => 2 * (k + 1)
  }

  lemma OffsetInBounds(channels: nat, c: nat)
    requires c < |Choices(channels)|
    ensures ChannelOffset(Choices(channels)[c]) + 1 < 2 * (channels + 1)
  {
    if c > 0 {
      assert Choices(channels)[c] == Channel(c - 1);
    }
  }

  /**
   * The offset as the source computes it: from the label's last character
   * only, `int(label[-1])`.
   */
  function OffsetFromLabel(text: string): (offset: nat)
    requires text == "All" || (|text| > 0 && Numbers.IsDigit(text[|text| - 1]))
    ensures offset % 2 == 0 && offset <= 20
    ensures offset == 0 <==> text == "All"
  {
    if text == "All" then 0 else 2 * (Numbers.DigitValue(text[|text| - 1]) + 1)
  }

  /** Reading only the last character selects channel k mod 10. */
  lemma LabelOffsetIsLastDigit(k: nat)
    ensures ChannelLabel(k) != "All" && Numbers.IsDigit(ChannelLabel(k)[|ChannelLabel(k)| - 1])
    ensures OffsetFromLabel(ChannelLabel(k)) == 2 * (k % 10 + 1)
    ensures k < 10 ==> OffsetFromLabel(ChannelLabel(k)) == ChannelOffset(Channel(k))
  {
    var d := Numbers.Decimal(k);
    var l := ChannelLabel(k);
    assert l[|l| - 1] == d[|d| - 1];
    assert l != "All" by { assert l[0] == 'C'; }
  }

  /** 'Channel 10' of an image with eleven or more channels selects channel 0's slot. */
  lemma LabelOffsetWrongForChannelTen()
    ensures OffsetFromLabel(ChannelLabel(10)) == 2
    ensures ChannelOffset(Channel(10)) == 22
  {
    LabelOffsetIsLastDigit(10);
  }
}
