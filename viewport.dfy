/**
 * Viewport geometry: zoom guards, the image rectangle on the canvas, the fit
 * scale, the tile drawn by `show_image` and the pixel under the cursor.
 *
 * Canvas sizes and the integer bounding box of the image rectangle come from
 * the canvas; the viewer's own coordinates (zoom factor, rectangle corners,
 * visible area) are exact reals.
 */
module Viewport {
  import opened Wrappers

  /** The zoom step. */
  const Delta: real := 1.3

  function MinInt(a: int, b: int): int { if a <= b then a else b }
  function MaxReal(a: real, b: real): real { if a >= b then a else b }
  function MinReal(a: real, b: real): real { if a <= b then a else b }

  /** `int(x)`: truncation toward zero. */
  function Trunc(x: real): (r: int)
    ensures x >= 0.0 ==> r >= 0 && r as real <= x < r as real + 1.0
    ensures x <= 0.0 ==> r <= 0 && r as real - 1.0 < x <= r as real
  {
    if x >= 0.0 then x.Floor else -((-x).Floor)
  }

  /** `math.floor` and `math.ceil`. */
  function Ceil(x: real): (r: int)
    ensures x <= r as real < x + 1.0
  {
    if x.Floor as real == x then x.Floor else x.Floor + 1
  }

  // ---------------------------------------------------------------------------
  // Zoom guards
  // ---------------------------------------------------------------------------

  /** `zoom_in` returns early once the zoom exceeds a fifth of the smaller canvas side. */
  predicate ZoomInBlocked(canvasW: int, canvasH: int, zoom: real): (b: bool)
    ensures 5.0 * zoom <= canvasW as real && 5.0 * zoom <= canvasH as real ==> !b
    ensures canvasW >= 0 && canvasH >= 0 && b ==> zoom > 0.0
  {
    (MinInt(canvasW, canvasH) as real) / 5.0 < zoom
  }

  /** `zoom_out` returns early once the smaller image side would be drawn under 30 pixels. */
  predicate ZoomOutBlocked(width: nat, height: nat, zoom: real): (b: bool)
    ensures b <==> (width as real * zoom < 30.0 || height as real * zoom < 30.0)
  {
    TruncBelow(MinInt(width, height) as real * zoom, 30);
    MinTimes(width, height, zoom);
    Trunc(MinInt(width, height) as real * zoom) < 30
  }

  /** Truncation stays below a positive bound exactly when its argument does. */
  lemma TruncBelow(x: real, n: int)
    requires n > 0
    ensures Trunc(x) < n <==> x < n as real
  {
  }

  /** Scaling the smaller side gives a value under 30 exactly when scaling either side does. */
  lemma MinTimes(width: nat, height: nat, zoom: real)
    ensures (MinInt(width, height) as real * zoom < 30.0) <==> (width as real * zoom < 30.0 || height as real * zoom < 30.0)
  {
    var w, h := width as real, height as real;
    var m := MinInt(width, height) as real;
    if zoom < 0.0 {
      ScaleSign(w, zoom);
      ScaleSign(h, zoom);
      ScaleSign(m, zoom);
    } else if width <= height {
      ScaleOrder(w, h, zoom);
    } else {
      ScaleOrder(h, w, zoom);
    }
    SmallestBelow(MinInt(width, height) as real * zoom, width as real * zoom, height as real * zoom);
  }

  /** The smallest of two values, or any value when both are at most zero, is under 30 exactly when one of them is. */
  lemma SmallestBelow(pm: real, pw: real, ph: real)
    requires (pm == pw && pw <= ph) || (pm == ph && ph <= pw) || (pm <= 0.0 && pw <= 0.0 && ph <= 0.0)
    ensures pm < 30.0 <==> pw < 30.0 || ph < 30.0
  {
  }

  lemma ScaleSign(a: real, z: real)
    requires a >= 0.0 && z < 0.0
    ensures a * z <= 0.0
  {
  }

  lemma ScaleOrder(a: real, b: real, z: real)
    requires a <= b && z >= 0.0
    ensures a * z <= b * z
  {
  }

  /** A zoom out that is allowed starts from an image whose smaller side is drawn at 30 pixels or more. */
  lemma ZoomOutFloor(width: nat, height: nat, zoom: real)
    requires zoom > 0.0 && !ZoomOutBlocked(width, height, zoom)
    ensures MinInt(width, height) as real * zoom >= 30.0
  {
  }

  /** `zoom_mouse` acts only on a cursor strictly inside the bounding box of the image rectangle. */
  predicate Inside(x: real, y: real, bbox: (int, int, int, int)): (b: bool)
    ensures b ==> bbox.0 < bbox.2 && bbox.1 < bbox.3
  {
    bbox.0 as real < x < bbox.2 as real && bbox.1 as real < y < bbox.3 as real
  }

  /**
   * The scale `zoom_mouse` applies for a wheel `delta`: out by `1/Delta` below
   * zero and in by `Delta` above it, each under its own guard (None when the
   * guard returns), and 1 for a delta of zero.
   */
  function WheelScale(delta: int, width: nat, height: nat, canvasW: int, canvasH: int, zoom: real): (r: Option<real>)
    ensures delta == 0 ==> r == Some(1.0)
    ensures delta < 0 ==> (r.None? <==> ZoomOutBlocked(width, height, zoom))
    ensures delta > 0 ==> (r.None? <==> ZoomInBlocked(canvasW, canvasH, zoom))
    ensures r.Some? ==> r.value > 0.0 && (r.value == 1.0 || r.value == Delta || r.value == 1.0 / Delta)
    ensures r.Some? && delta < 0 ==> zoom * r.value == zoom / Delta
    ensures r.Some? && delta > 0 ==> zoom * r.value == zoom * Delta
  {
    if delta < 0 then (if ZoomOutBlocked(width, height, zoom) then None else Some(1.0 / Delta))
    else if delta > 0 then (if ZoomInBlocked(canvasW, canvasH, zoom) then None else Some(Delta))
    else Some(1.0)
  }

  // ---------------------------------------------------------------------------
  // The image rectangle
  // ---------------------------------------------------------------------------

  /** Corners of the rectangle that stands for the image on the canvas. */
  datatype Rect = Rect(x0: real, y0: real, x1: real, y1: real)

  /**
   * `canvas.scale(item, ax, ay, s, s)`: every corner moves away from the
   * anchor by the factor `s`. The rectangle grows by `s` and the anchor keeps
   * its relative place inside it.
   */
  function ScaleAbout(r: Rect, ax: real, ay: real, s: real): (q: Rect)
    ensures q.x1 - q.x0 == s * (r.x1 - r.x0)
    ensures q.y1 - q.y0 == s * (r.y1 - r.y0)
    ensures ax - q.x0 == s * (ax - r.x0) && ay - q.y0 == s * (ay - r.y0)
  {
    Rect(ax + s * (r.x0 - ax), ay + s * (r.y0 - ay), ax + s * (r.x1 - ax), ay + s * (r.y1 - ay))
  }

  /** Scaling by `s` and then by `1/s` about the same anchor gives the rectangle back. */
  lemma ScaleRoundTrip(r: Rect, ax: real, ay: real, s: real)
    requires s != 0.0
    ensures ScaleAbout(ScaleAbout(r, ax, ay, s), ax, ay, 1.0 / s) == r
  {
    var q := ScaleAbout(r, ax, ay, s);
    assert (1.0 / s) * (s * (r.x0 - ax)) == r.x0 - ax;
    assert (1.0 / s) * (s * (r.y0 - ay)) == r.y0 - ay;
    assert (1.0 / s) * (s * (r.x1 - ax)) == r.x1 - ax;
    assert (1.0 / s) * (s * (r.y1 - ay)) == r.y1 - ay;
  }

  /**
   * Zooming in about (ax, ay) from a zoom at which zooming out is allowed:
   * zooming out stays allowed, and zooming out about the same point gives
   * back the zoom and the image rectangle.
   */
  lemma ZoomInUndone(width: nat, height: nat, zoom: real, r: Rect, ax: real, ay: real)
    requires zoom > 0.0 && !ZoomOutBlocked(width, height, zoom)
    ensures !ZoomOutBlocked(width, height, zoom * Delta)
    ensures zoom * Delta / Delta == zoom
    ensures ScaleAbout(ScaleAbout(r, ax, ay, Delta), ax, ay, 1.0 / Delta) == r
  {
    var m := MinInt(width, height) as real;
    assert m * (zoom * Delta) == m * zoom + m * zoom * (Delta - 1.0);
    TruncMonotone(m * zoom, m * (zoom * Delta));
    ScaleRoundTrip(r, ax, ay, Delta);
  }

  /**
   * Zooming out about (ax, ay) from a zoom at which zooming in is allowed:
   * zooming in stays allowed, and zooming in about the same point gives back
   * the zoom and the image rectangle.
   */
  lemma ZoomOutUndone(canvasW: int, canvasH: int, zoom: real, r: Rect, ax: real, ay: real)
    requires zoom > 0.0 && !ZoomInBlocked(canvasW, canvasH, zoom)
    ensures !ZoomInBlocked(canvasW, canvasH, zoom / Delta)
    ensures zoom / Delta * Delta == zoom
    ensures ScaleAbout(ScaleAbout(r, ax, ay, 1.0 / Delta), ax, ay, Delta) == r
  {
    assert zoom / Delta <= zoom;
    assert 1.0 / (1.0 / Delta) == Delta;
    ScaleRoundTrip(r, ax, ay, 1.0 / Delta);
  }

  /** Truncation of non-negative reals is monotone. */
  lemma TruncMonotone(x: real, y: real)
    requires 0.0 <= x <= y
    ensures Trunc(x) <= Trunc(y)
  {
  }

  /** `canvas_size // 2 - image_size // 2`: where the unscaled image starts. */
  function InitialOrigin(canvasSize: nat, imageSize: nat): (o: int)
    ensures -1 <= 2 * o + imageSize - canvasSize <= 1
  {
    canvasSize / 2 - imageSize / 2
  }

  /** The rectangle `first_show_image` and `fit_to_window` create: the image at its own size, centred. */
  function InitialRect(canvasW: nat, canvasH: nat, width: nat, height: nat): (r: Rect)
    ensures r.x1 - r.x0 == width as real && r.y1 - r.y0 == height as real
    ensures r.x0 == InitialOrigin(canvasW, width) as real && r.y0 == InitialOrigin(canvasH, height) as real
  {
    var ox := InitialOrigin(canvasW, width);
    var oy := InitialOrigin(canvasH, height);
    Rect(ox as real, oy as real, (ox + width) as real, (oy + height) as real)
  }

  /** On loading, an image larger than the canvas on either side is fitted instead of shown at 1:1. */
  predicate NeedsFit(loading: bool, width: nat, height: nat, canvasW: nat, canvasH: nat): (b: bool)
    ensures !loading ==> !b
    ensures b && width > 0 && height > 0 ==> FitScale(canvasW, canvasH, width, height) < 1.0
  {
    loading && (width > canvasW || height > canvasH)
  }

  /** `fit_to_window`: the largest zoom at which the image fits a canvas with a 2-pixel margin. */
  function FitScale(canvasW: int, canvasH: int, width: nat, height: nat): (s: real)
    requires width > 0 && height > 0
    ensures s * width as real <= (canvasW - 4) as real
    ensures s * height as real <= (canvasH - 4) as real
    ensures s * width as real == (canvasW - 4) as real || s * height as real == (canvasH - 4) as real
  {
    var sx := (canvasW - 4) as real / width as real;
    var sy := (canvasH - 4) as real / height as real;
    QuotientTimes((canvasW - 4) as real, width as real);
    QuotientTimes((canvasH - 4) as real, height as real);
    if sx <= sy then
      assert sx * height as real <= sy * height as real;
      sx
    else
      assert sy * width as real < sx * width as real;
      sy
  }

  lemma QuotientTimes(a: real, b: real)
    requires b > 0.0
    ensures a / b * b == a
  {
  }

  // ---------------------------------------------------------------------------
  // show_image
  // ---------------------------------------------------------------------------

  /** A box in canvas coordinates. */
  datatype Box = Box(x0: real, y0: real, x1: real, y1: real)

  /**
   * One axis of the tile: the visible part in image pixels, the size drawn,
   * the whole-pixel crop around it, the size the crop is resampled to and the
   * sub-pixel offset of the final crop.
   */
  datatype AxisTile = AxisTile(des1: real, des2: real, out: int, crop0: int, crop1: int, resize: int, off: real)

  /** The part of the image that is drawn: the visible part relative to the image box, both axes, and the north-west corner. */
  datatype Tile = Tile(x1: real, y1: real, x2: real, y2: real, ax: AxisTile, ay: AxisTile, anchorX: real, anchorY: real)

  /** What `show_image` computes: the scroll region and, when something is visible, the tile. */
  datatype View = View(scroll: Box, tile: Option<Tile>)

  /** One axis of the scroll region: the hull of image and visible area, or the image alone when the visible area covers it. */
  function ScrollAxis(i0: real, i1: real, v0: real, v1: real): (r: (real, real))
    ensures r.0 <= i0 && i1 <= r.1
    ensures v0 <= i0 && i1 <= v1 ==> r == (i0, i1)
    ensures !(v0 <= i0 && i1 <= v1) ==> r == (MinReal(i0, v0), MaxReal(i1, v1))
  {
    var lo := MinReal(i0, v0);
    var hi := MaxReal(i1, v1);
    if lo == v0 && hi == v1 then (i0, i1) else (lo, hi)
  }

  /** One axis of the tile: where the visible area starts and ends inside the image box. */
  function TileAxis(i0: real, i1: real, v0: real, v1: real): (r: (real, real))
    ensures 0.0 <= r.0 && r.1 <= i1 - i0
    ensures r.0 == MaxReal(v0 - i0, 0.0) && r.1 == MinReal(v1, i1) - i0
  {
    (MaxReal(v0 - i0, 0.0), MinReal(v1, i1) - i0)
  }

  /**
   * `show_image` on the integer bounding box `bbox` of the image rectangle,
   * the visible area `visible` and the zoom factor: the box is first shrunk
   * by one pixel on every side.
   */
  function Show(bbox: (int, int, int, int), visible: Box, zoom: real): (v: View)
    requires zoom > 0.0
    ensures var ib := Box(bbox.0 as real + 1.0, bbox.1 as real + 1.0, bbox.2 as real - 1.0, bbox.3 as real - 1.0);
      && v.scroll.x0 <= ib.x0 && ib.x1 <= v.scroll.x1
      && v.scroll.y0 <= ib.y0 && ib.y1 <= v.scroll.y1
      && (visible.x0 <= ib.x0 && ib.x1 <= visible.x1 ==> v.scroll.x0 == ib.x0 && v.scroll.x1 == ib.x1)
      && (visible.y0 <= ib.y0 && ib.y1 <= visible.y1 ==> v.scroll.y0 == ib.y0 && v.scroll.y1 == ib.y1)
      && (v.tile.Some? ==>
           var t := v.tile.value;
           && 0.0 <= t.x1 && t.x2 <= ib.x1 - ib.x0
           && 0.0 <= t.y1 && t.y2 <= ib.y1 - ib.y0
           && t.ax.out > 0 && t.ay.out > 0
           && t.ax.crop0 as real <= t.ax.des1 < t.ax.des2 <= t.ax.crop1 as real
           && t.ay.crop0 as real <= t.ay.des1 < t.ay.des2 <= t.ay.crop1 as real
           && t.anchorX == ib.x0 + t.x1 && t.anchorY == ib.y0 + t.y1)
    ensures v.tile.None? <==>
      var ib := Box(bbox.0 as real + 1.0, bbox.1 as real + 1.0, bbox.2 as real - 1.0, bbox.3 as real - 1.0);
      var tx := TileAxis(ib.x0, ib.x1, visible.x0, visible.x1);
      var ty := TileAxis(ib.y0, ib.y1, visible.y0, visible.y1);
      Trunc(tx.1 - tx.0) <= 0 || Trunc(ty.1 - ty.0) <= 0
  {
    var ib := Box(bbox.0 as real + 1.0, bbox.1 as real + 1.0, bbox.2 as real - 1.0, bbox.3 as real - 1.0);
    var sx := ScrollAxis(ib.x0, ib.x1, visible.x0, visible.x1);
    var sy := ScrollAxis(ib.y0, ib.y1, visible.y0, visible.y1);
    var scroll := Box(sx.0, sy.0, sx.1, sy.1);
    var tx := TileAxis(ib.x0, ib.x1, visible.x0, visible.x1);
    var ty := TileAxis(ib.y0, ib.y1, visible.y0, visible.y1);
    if Trunc(tx.1 - tx.0) > 0 && Trunc(ty.1 - ty.0) > 0 then
      View(scroll, Some(MakeTile(tx, ty, zoom, MaxReal(visible.x0, ib.x0), MaxReal(visible.y0, ib.y0))))
    else
      View(scroll, None)
  }

  /** The tile of `show_image` once the visible part is known to be at least a pixel each way. */
  function MakeTile(tx: (real, real), ty: (real, real), zoom: real, anchorX: real, anchorY: real): (t: Tile)
    requires zoom > 0.0 && Trunc(tx.1 - tx.0) > 0 && Trunc(ty.1 - ty.0) > 0
    ensures t.x1 == tx.0 && t.x2 == tx.1 && t.y1 == ty.0 && t.y2 == ty.1
    ensures t.ax == AxisOf(tx.0, tx.1, zoom) && t.ay == AxisOf(ty.0, ty.1, zoom)
    ensures t.anchorX == anchorX && t.anchorY == anchorY
  {
    Tile(tx.0, ty.0, tx.1, ty.1, AxisOf(tx.0, tx.1, zoom), AxisOf(ty.0, ty.1, zoom), anchorX, anchorY)
  }

  /**
   * One axis of the tile for the visible part `a1..a2` of the image box: the
   * part in image pixels lies inside its whole-pixel crop, and at least one
   * canvas pixel is drawn.
   */
  function AxisOf(a1: real, a2: real, zoom: real): (t: AxisTile)
    requires zoom > 0.0 && Trunc(a2 - a1) > 0
    ensures t.out > 0 && t.out == Trunc(a2 - a1)
    ensures t.crop0 == t.des1.Floor && t.crop1 == Ceil(t.des2)
    ensures t.crop0 as real <= t.des1 < t.des2 <= t.crop1 as real
    ensures t.des1 * zoom == a1 && t.des2 * zoom == a2
  {
    var des1 := a1 / zoom;
    var des2 := a2 / zoom;
    QuotientMonotone(a1, a2, zoom);
    var out := Trunc(a2 - a1);
    var rnd := Ceil(des2) - des1.Floor;
    var realW := des2 - des1;
    var resize := Trunc(out as real / realW * rnd as real);
    var off := out as real / rnd as real * (des1 - des1.Floor as real);
    QuotientTimes(a1, zoom);
    QuotientTimes(a2, zoom);
    AxisTile(des1, des2, out, des1.Floor, Ceil(des2), resize, off)
  }

  lemma QuotientMonotone(a: real, b: real, z: real)
    requires z > 0.0 && a < b
    ensures a / z < b / z
  {
    QuotientTimes(a, z);
    QuotientTimes(b, z);
  }

  /**
   * At zoom 2, with the visible area (10, 10)-(50, 50) and the image box
   * (0, 0)-(200, 200), the one-pixel shrink makes the tile start at 9 canvas
   * pixels into the image: the crop covers image pixels 4.5 to 24.5, rounded
   * out to 4 and 25, and 40 canvas pixels are drawn each way.
   */
  lemma ShowScenario()
    ensures var v := Show((0, 0, 200, 200), Box(10.0, 10.0, 50.0, 50.0), 2.0);
      && v.tile.Some?
      && v.tile.value.ax == v.tile.value.ay
      && v.tile.value.ax.des1 == 4.5 && v.tile.value.ax.des2 == 24.5
      && v.tile.value.ax.crop0 == 4 && v.tile.value.ax.crop1 == 25
      && v.tile.value.ax.out == 40
      && v.tile.value.anchorX == 10.0 && v.tile.value.anchorY == 10.0
      && v.scroll == Box(1.0, 1.0, 199.0, 199.0)
  {
    var tx := TileAxis(1.0, 199.0, 10.0, 50.0);
    assert tx == (9.0, 49.0);
    assert Trunc(40.0) == 40;
    assert (4.5).Floor == 4;
    assert (24.5).Floor == 24;
  }

  // ---------------------------------------------------------------------------
  // hover_pixel
  // ---------------------------------------------------------------------------

  /**
   * The image pixel under the cursor at canvas position (px, py), for a
   * rectangle whose bounding box starts at (box0, box1): column and row, or
   * None off the image.
   */
  function HoverLookup(px: real, py: real, box0: int, box1: int, zoom: real, height: nat, width: nat): (r: Option<(nat, nat)>)
    requires zoom > 0.0
    ensures r.Some? <==>
      (0 <= Trunc((px - box0 as real) / zoom) < width && 0 <= Trunc((py - box1 as real) / zoom) < height)
    ensures r.Some? ==> r.value.0 < width && r.value.1 < height
    ensures r.Some? ==> r.value.0 == Trunc((px - box0 as real) / zoom) && r.value.1 == Trunc((py - box1 as real) / zoom)
  {
    var x := Trunc((px - box0 as real) / zoom);
    var y := Trunc((py - box1 as real) / zoom);
    if 0 <= y < height && 0 <= x < width then Some((x, y)) else None
  }

  /** The cursor at the centre of drawn pixel (x, y) reads back that pixel. */
  lemma HoverCentre(x: nat, y: nat, box0: int, box1: int, zoom: real, height: nat, width: nat)
    requires zoom > 0.0 && x < width && y < height
    ensures HoverLookup(box0 as real + (x as real + 0.5) * zoom, box1 as real + (y as real + 0.5) * zoom,
                        box0, box1, zoom, height, width) == Some((x, y))
  {
    var px := box0 as real + (x as real + 0.5) * zoom;
    var py := box1 as real + (y as real + 0.5) * zoom;
    assert px - box0 as real == (x as real + 0.5) * zoom;
    assert py - box1 as real == (y as real + 0.5) * zoom;
    TimesQuotient(px - box0 as real, x as real + 0.5, zoom);
    TimesQuotient(py - box1 as real, y as real + 0.5, zoom);
    assert (x as real + 0.5).Floor == x;
    assert (y as real + 0.5).Floor == y;
    var dx := (px - box0 as real) / zoom;
    var dy := (py - box1 as real) / zoom;
    assert dx == x as real + 0.5;
    assert dy == y as real + 0.5;
    assert Trunc(dx) == x;
    assert Trunc(dy) == y;
  }

  /** A quotient by a positive number keeps strict bounds: `lo * z < a < hi * z` gives `lo < a / z < hi`. */
  lemma QuotientBetween(a: real, z: real, lo: real, hi: real)
    requires z > 0.0 && lo * z < a < hi * z
    ensures lo < a / z < hi
  {
    var q := a / z;
    QuotientTimes(a, z);
    if q <= lo {
      MulMonotone(q, lo, z);
    }
    if q >= hi {
      MulMonotone(hi, q, z);
    }
  }

  lemma MulMonotone(a: real, b: real, z: real)
    requires a <= b && z > 0.0
    ensures a * z <= b * z
  {
  }

  lemma TimesQuotient(p: real, a: real, z: real)
    requires z > 0.0 && p == a * z
    ensures p / z == a
  {
  }

  /**
   * Truncation toward zero folds the strip less than one drawn pixel left of
   * the box onto column 0: a cursor there still reads the first column.
   */
  lemma HoverLeftOfBox(px: real, py: real, box0: int, box1: int, zoom: real, height: nat, width: nat)
    requires zoom > 0.0 && width > 0
    requires box0 as real - zoom < px < box0 as real
    requires 0 <= Trunc((py - box1 as real) / zoom) < height
    ensures HoverLookup(px, py, box0, box1, zoom, height, width).Some?
    ensures HoverLookup(px, py, box0, box1, zoom, height, width).value.0 == 0
  {
    QuotientBetween(px - box0 as real, zoom, -1.0, 0.0);
  }
}
