/**
 The rectangle arithmetic of pipeline/compositor.py and pipeline/template.py with exact ratios.  libvips
 rounds a resized dimension to the nearest pixel, at least one; Python's `round` goes to the nearest even
 integer on a tie.
 */
module Geometry {
  import opened Results

  type Size = n: int | n >= 1 witness 1

  datatype Fit = Cover | Contain | Fill

  datatype Slot = Slot(x: int, y: int, w: Size, h: Size, fit: Fit)

  /** An axis-parallel rectangle of pixels. */
  datatype Rect = Rect(x: int, y: int, w: int, h: int)

  predicate Covers(outer: Rect, inner: Rect) {
    && outer.x <= inner.x && inner.x + inner.w <= outer.x + outer.w
    && outer.y <= inner.y && inner.y + inner.h <= outer.y + outer.h
  }

  // ---------------------------------------------------------------- rounding

  /** A dimension after `resize`: nearest, half up, at least one pixel. */
  function Resized(n: Size, scale: real): (r: Size)
    requires scale > 0.0
  {
    var exact := (n as real * scale + 0.5).Floor;
    if exact < 1 then 1 else exact
  }

  /** `round(n / 2)`: half to even. */
  function RoundHalf(n: int): (r: int)
  {
    if n % 2 == 0 then n / 2
    else if (n - 1) / 2 % 2 == 0 then (n - 1) / 2 else (n + 1) / 2
  }

  /** `round` on any number: half to even. */
  function Round(x: real): (r: int)
  {
    var low := x.Floor;
    var part := x - low as real;
    if part < 0.5 || (part == 0.5 && low % 2 == 0) then low else low + 1
  }

  /** Rounding keeps halves between their integer bounds, and is never off by more than half. */
  lemma RoundHalfIsRound(n: int)
    ensures RoundHalf(n) == Round(n as real / 2.0)
    ensures n >= 0 ==> 0 <= RoundHalf(n) <= n
  {
    var x := n as real / 2.0;
    if n % 2 == 0 {
      assert x == (n / 2) as real;
      assert x.Floor == n / 2;
    } else {
      assert x == ((n - 1) / 2) as real + 0.5;
      assert x.Floor == (n - 1) / 2;
    }
  }

  /** Rounding is never off by more than half, and on a tie goes to the even neighbour. */
  lemma RoundIsNearest(x: real)
    ensures -0.5 <= Round(x) as real - x <= 0.5
    ensures Round(x) as real - x in {-0.5, 0.5} ==> Round(x) % 2 == 0
  {
  }

  // ---------------------------------------------------------------- resizing for a slot

  function Ratio(target: Size, source: Size): (r: real)
    ensures r > 0.0
  {
    target as real / source as real
  }

  function Max(a: real, b: real): real { if a >= b then a else b }

  function Min(a: real, b: real): real { if a <= b then a else b }

  /** `_resize_for_slot`: the size the source is resized to, the window cropped out of it, and where that
      window is pasted relative to the slot. */
  datatype Placement = Placement(width: Size, height: Size, window: Rect, pasteX: int, pasteY: int)

  function ResizeForSlot(imageW: Size, imageH: Size, slot: Slot): Placement {
    match slot.fit
    case Fill =>
      var w, h := Resized(imageW, Ratio(slot.w, imageW)), Resized(imageH, Ratio(slot.h, imageH));
      Placement(w, h, Rect(0, 0, w, h), 0, 0)
    case Cover =>
      var scale := Max(Ratio(slot.w, imageW), Ratio(slot.h, imageH));
      var w, h := Resized(imageW, scale), Resized(imageH, scale);
      Placement(w, h, Rect(RoundHalf(w - slot.w), RoundHalf(h - slot.h), slot.w, slot.h), 0, 0)
    case Contain =>
      var scale := Min(Ratio(slot.w, imageW), Ratio(slot.h, imageH));
      var w, h := Resized(imageW, scale), Resized(imageH, scale);
      Placement(w, h, Rect(0, 0, w, h), RoundHalf(slot.w - w), RoundHalf(slot.h - h))
  }

  lemma ResizedToRatio(target: Size, source: Size)
    ensures Resized(source, Ratio(target, source)) == target
  {
    assert source as real * Ratio(target, source) == target as real;
    assert (target as real + 0.5).Floor == target;
  }

  lemma ScaledProduct(n: Size, target: Size, scale: real)
    requires scale > 0.0
    ensures scale >= Ratio(target, n) ==> n as real * scale >= target as real
    ensures scale <= Ratio(target, n) ==> n as real * scale <= target as real
  {
    var r := Ratio(target, n);
    assert n as real * r == target as real;
    if scale >= r {
      assert n as real * (scale - r) >= 0.0;
    }
    if scale <= r {
      assert n as real * (r - scale) >= 0.0;
    }
  }

  /** A larger scale gives at least the target, a smaller one at most. */
  lemma ResizedIsMonotone(n: Size, target: Size, scale: real)
    requires scale > 0.0
    ensures scale >= Ratio(target, n) ==> Resized(n, scale) >= target
    ensures scale <= Ratio(target, n) ==> Resized(n, scale) <= target
  {
    ScaledProduct(n, target, scale);
    var product := n as real * scale;
    if scale >= Ratio(target, n) {
      assert product + 0.5 >= target as real + 0.5;
    }
    if scale <= Ratio(target, n) {
      assert product + 0.5 <= target as real + 0.5;
      assert (product + 0.5).Floor as real <= target as real + 0.5;
    }
  }

  /** The window lies inside the resized image; pasted, it lies inside the slot; `cover` and `fill` paint the
      whole slot, and `contain` touches it on at least one axis. */
  lemma PlacementFits(imageW: Size, imageH: Size, slot: Slot)
    ensures var p := ResizeForSlot(imageW, imageH, slot);
            && Covers(Rect(0, 0, p.width, p.height), p.window)
            && p.window.w >= 1 && p.window.h >= 1
            && p.pasteX >= 0 && p.pasteY >= 0
            && Covers(Rect(0, 0, slot.w, slot.h), Rect(p.pasteX, p.pasteY, p.window.w, p.window.h))
            && (slot.fit != Contain ==> p.window.w == slot.w && p.window.h == slot.h)
            && (slot.fit == Contain ==> p.window.w == slot.w || p.window.h == slot.h)
  {
    var rw, rh := Ratio(slot.w, imageW), Ratio(slot.h, imageH);
    ResizedToRatio(slot.w, imageW);
    ResizedToRatio(slot.h, imageH);
    var scale := if slot.fit == Cover then Max(rw, rh) else Min(rw, rh);
    ResizedIsMonotone(imageW, slot.w, scale);
    ResizedIsMonotone(imageH, slot.h, scale);
    RoundHalfIsRound(Resized(imageW, scale) - slot.w);
    RoundHalfIsRound(Resized(imageH, scale) - slot.h);
    RoundHalfIsRound(slot.w - Resized(imageW, scale));
    RoundHalfIsRound(slot.h - Resized(imageH, scale));
  }

  /** `n` is the nearest whole number of pixels to a source dimension times the scale, but at least one. */
  predicate NearestTo(n: Size, source: Size, scale: real) {
    var exact := source as real * scale;
    -0.5 <= n as real - exact <= 0.5 || (n == 1 && exact < 0.5)
  }

  lemma ResizedIsNearest(n: Size, scale: real)
    requires scale > 0.0
    ensures NearestTo(Resized(n, scale), n, scale)
  {
    var exact := n as real * scale;
    assert (exact + 0.5).Floor as real <= exact + 0.5 < (exact + 0.5).Floor as real + 1.0;
  }

  /** `inner` placed at `offset` in `outer`: what is left over on both sides differs by at most one pixel. */
  predicate Centred(outer: int, inner: int, offset: int) {
    -1 <= offset - (outer - inner - offset) <= 1
  }

  lemma RoundHalfCentres(n: int)
    ensures -1 <= RoundHalf(n) - (n - RoundHalf(n)) <= 1
  {
  }

  /** The least scale at which the image covers the slot: on one axis it covers exactly. */
  predicate CoversAt(imageW: Size, imageH: Size, slot: Slot, scale: real) {
    && imageW as real * scale >= slot.w as real && imageH as real * scale >= slot.h as real
    && (imageW as real * scale == slot.w as real || imageH as real * scale == slot.h as real)
  }

  /** The greatest scale at which the image fits into the slot: on one axis it fits exactly. */
  predicate FitsAt(imageW: Size, imageH: Size, slot: Slot, scale: real) {
    && imageW as real * scale <= slot.w as real && imageH as real * scale <= slot.h as real
    && (imageW as real * scale == slot.w as real || imageH as real * scale == slot.h as real)
  }

  /** A smaller scale leaves a gap, a greater one sticks out. */
  lemma NoOtherScale(imageW: Size, imageH: Size, slot: Slot, scale: real, other: real)
    ensures CoversAt(imageW, imageH, slot, scale) && other < scale ==>
              imageW as real * other < slot.w as real || imageH as real * other < slot.h as real
    ensures FitsAt(imageW, imageH, slot, scale) && other > scale ==>
              imageW as real * other > slot.w as real || imageH as real * other > slot.h as real
  {
    Stretches(imageW, scale, other);
    Stretches(imageH, scale, other);
  }

  lemma Stretches(n: Size, a: real, b: real)
    ensures a < b ==> n as real * a < n as real * b
    ensures a > b ==> n as real * a > n as real * b
  {
    assert n as real * b - n as real * a == n as real * (b - a);
    if a < b {
      assert n as real * (b - a) >= 1.0 * (b - a);
    } else if a > b {
      assert n as real * (a - b) >= 1.0 * (a - b);
    }
  }

  lemma ScaleOfMax(imageW: Size, imageH: Size, slot: Slot)
    ensures CoversAt(imageW, imageH, slot, Max(Ratio(slot.w, imageW), Ratio(slot.h, imageH)))
    ensures FitsAt(imageW, imageH, slot, Min(Ratio(slot.w, imageW), Ratio(slot.h, imageH)))
  {
    var rw, rh := Ratio(slot.w, imageW), Ratio(slot.h, imageH);
    ScaledProduct(imageW, slot.w, Max(rw, rh));
    ScaledProduct(imageH, slot.h, Max(rw, rh));
    ScaledProduct(imageW, slot.w, Min(rw, rh));
    ScaledProduct(imageH, slot.h, Min(rw, rh));
  }

  /** `cover` and `contain` keep the picture's shape: one scale serves both axes, the least that covers or the greatest
      that fits, so at least one axis has exactly the slot's length.  And they centre it: the crop in the image, the
      image in the slot.  `fill` gives both axes the slot's length. */
  lemma PlacementKeepsShape(imageW: Size, imageH: Size, slot: Slot) returns (scale: real)
    ensures var p := ResizeForSlot(imageW, imageH, slot);
            if slot.fit == Fill then p.width == slot.w && p.height == slot.h && p.pasteX == p.pasteY == 0
            else
              && scale > 0.0 && NearestTo(p.width, imageW, scale) && NearestTo(p.height, imageH, scale)
              && (p.width == slot.w || p.height == slot.h)
              && if slot.fit == Cover
                 then && CoversAt(imageW, imageH, slot, scale)
                      && Centred(p.width, slot.w, p.window.x) && Centred(p.height, slot.h, p.window.y)
                 else && FitsAt(imageW, imageH, slot, scale)
                      && Centred(slot.w, p.width, p.pasteX) && Centred(slot.h, p.height, p.pasteY)
  {
    var rw, rh := Ratio(slot.w, imageW), Ratio(slot.h, imageH);
    ResizedToRatio(slot.w, imageW);
    ResizedToRatio(slot.h, imageH);
    scale := if slot.fit == Cover then Max(rw, rh) else Min(rw, rh);
    ResizedIsNearest(imageW, scale);
    ResizedIsNearest(imageH, scale);
    ScaleOfMax(imageW, imageH, slot);
    var p := ResizeForSlot(imageW, imageH, slot);
    RoundHalfCentres(p.width - slot.w);
    RoundHalfCentres(p.height - slot.h);
    RoundHalfCentres(slot.w - p.width);
    RoundHalfCentres(slot.h - p.height);
  }

  // ---------------------------------------------------------------- canvas and validation

  datatype Canvas = Canvas(widthMm: real, heightMm: real, dpi: Size)

  function WidthPx(c: Canvas): int { Round(c.widthMm / 25.4 * c.dpi as real) }

  function HeightPx(c: Canvas): int { Round(c.heightMm / 25.4 * c.dpi as real) }

  /** The canvas is the nearest whole number of pixels to its size on paper, on both axes. */
  lemma CanvasWithinHalfPixel(c: Canvas)
    ensures -0.5 <= WidthPx(c) as real - c.widthMm / 25.4 * c.dpi as real <= 0.5
    ensures -0.5 <= HeightPx(c) as real - c.heightMm / 25.4 * c.dpi as real <= 0.5
  {
    RoundIsNearest(c.widthMm / 25.4 * c.dpi as real);
    RoundIsNearest(c.heightMm / 25.4 * c.dpi as real);
  }

  function CanvasRect(c: Canvas): Rect { Rect(0, 0, WidthPx(c), HeightPx(c)) }

  /** The slot check of `load_template`: the index of the first slot that exceeds the canvas. */
  method FirstSlotOutOfBounds(canvas: Canvas, slots: seq<Slot>) returns (bad: Option<nat>)
    ensures bad.None? ==> forall i | 0 <= i < |slots| ::
              slots[i].x + slots[i].w <= WidthPx(canvas) && slots[i].y + slots[i].h <= HeightPx(canvas)
    ensures bad.Some? ==> bad.value < |slots|
    ensures bad.Some? && slots[bad.value].x + slots[bad.value].w <= WidthPx(canvas) ==>
              slots[bad.value].y + slots[bad.value].h > HeightPx(canvas)
    ensures bad.Some? ==> forall i | 0 <= i < bad.value :: WithinFarEdges(canvas, slots[i])
  {
    var canvasW, canvasH := WidthPx(canvas), HeightPx(canvas);
    for i := 0 to |slots|
      invariant forall j | 0 <= j < i :: WithinFarEdges(canvas, slots[j])
    {
      if slots[i].x + slots[i].w > canvasW || slots[i].y + slots[i].h > canvasH {
        return Some(i);
      }
    }
    return None;
  }

  /** A slot whose own corner is on the canvas is accepted exactly when it lies inside, edges included. */
  lemma AcceptedIffInside(canvas: Canvas, slot: Slot)
    requires slot.x >= 0 && slot.y >= 0
    ensures WithinFarEdges(canvas, slot)
       <==> Covers(Rect(0, 0, WidthPx(canvas), HeightPx(canvas)), Rect(slot.x, slot.y, slot.w, slot.h))
  {
  }

  predicate WithinFarEdges(canvas: Canvas, slot: Slot) {
    slot.x + slot.w <= WidthPx(canvas) && slot.y + slot.h <= HeightPx(canvas)
  }

  /** Where `_composite` pastes the source of a slot. */
  function Painted(imageW: Size, imageH: Size, slot: Slot): Rect {
    var p := ResizeForSlot(imageW, imageH, slot);
    Rect(slot.x + p.pasteX, slot.y + p.pasteY, p.window.w, p.window.h)
  }

  /** A source with the slot's own shape is painted over exactly the slot. */
  lemma OwnShapeFillsSlot(slot: Slot)
    ensures Painted(slot.w, slot.h, slot) == Rect(slot.x, slot.y, slot.w, slot.h)
  {
    UnitRatio(slot.w);
    UnitRatio(slot.h);
    ResizedToRatio(slot.w, slot.w);
    ResizedToRatio(slot.h, slot.h);
  }

  lemma UnitRatio(n: Size)
    ensures Ratio(n, n) == 1.0
  {
    assert n as real * Ratio(n, n) == n as real;
  }

  lemma PaintedInsideSlot(imageW: Size, imageH: Size, slot: Slot)
    ensures Covers(Rect(slot.x, slot.y, slot.w, slot.h), Painted(imageW, imageH, slot))
  {
    PlacementFits(imageW, imageH, slot);
  }

  /** The loader checks the far edges only.  A slot it accepts is painted inside the canvas, whatever the
      source, if and only if the slot's own corner is not negative. */
  lemma {:induction false} AcceptedSlotPaintsInside(canvas: Canvas, slot: Slot)
    requires WithinFarEdges(canvas, slot)
    ensures (forall w: Size, h: Size :: Covers(CanvasRect(canvas), Painted(w, h, slot)))
       <==> slot.x >= 0 && slot.y >= 0
  {
    if slot.x >= 0 && slot.y >= 0 {
      forall w: Size, h: Size ensures Covers(CanvasRect(canvas), Painted(w, h, slot)) {
        PaintedInsideSlot(w, h, slot);
      }
    } else {
      OwnShapeFillsSlot(slot);
      assert !Covers(CanvasRect(canvas), Painted(slot.w, slot.h, slot));
    }
  }

  // ---------------------------------------------------------------- scaled variants

  function LongEdge(w: Size, h: Size): Size { if w >= h then w else h }

  function ShortEdge(w: Size, h: Size): Size { if w >= h then h else w }

  /** The web and thumb variants: resized so that the long edge matches. */
  function ScaledVariant(w: Size, h: Size, longEdge: Size): (Size, Size) {
    var scale := Ratio(longEdge, LongEdge(w, h));
    (Resized(w, scale), Resized(h, scale))
  }

  /** The long edge is exactly as asked, and stays the long edge.  The short one is within half a pixel of
      proportional exactly when the proportional length is at least half a pixel: below that the one-pixel
      minimum applies. */
  lemma ScaledVariantEdges(w: Size, h: Size, longEdge: Size)
    ensures var (sw, sh) := ScaledVariant(w, h, longEdge);
            && (w >= h ==> sw == longEdge && sh <= longEdge)
            && (w < h ==> sh == longEdge && sw <= longEdge)
            && (w >= h ==>
                  var exact := h as real * (longEdge as real / w as real);
                  (-0.5 <= sh as real - exact <= 0.5 <==> exact >= 0.5) && (exact < 0.5 ==> sh == 1))
            && (w < h ==>
                  var exact := w as real * (longEdge as real / h as real);
                  (-0.5 <= sw as real - exact <= 0.5 <==> exact >= 0.5) && (exact < 0.5 ==> sw == 1))
  {
    var long, short := LongEdge(w, h), ShortEdge(w, h);
    var scale := Ratio(longEdge, long);
    ResizedToRatio(longEdge, long);
    ShortScalesBelow(short, long, longEdge);
    ResizedIsMonotone(short, longEdge, scale);
    var exact := (short as real * scale + 0.5).Floor;
    assert exact as real <= short as real * scale + 0.5 < exact as real + 1.0;
  }

  lemma ShortScalesBelow(short: Size, long: Size, target: Size)
    requires short <= long
    ensures Ratio(target, long) <= Ratio(target, short)
  {
    var a, b := Ratio(target, short), Ratio(target, long);
    assert a * short as real == target as real == b * long as real;
    assert b * long as real >= b * short as real;
    if b > a {
      assert (b - a) * short as real > 0.0;
    }
  }
}
