/**
 `_composite`: the fold of paints against a per-pixel specification.  Sources are opaque; a pixel of an overlay
 has an opacity.  How libvips computes a resampled pixel, and how it rounds when it blends a partly opaque one
 over another, are parameters.
 */
module Painting {
  import opened Results
  import opened Geometry

  type Color = (int, int, int)

  type Pixel = (int, int)

  type Raster = map<Pixel, Color>

  type Alpha = n: nat | n <= 255

  const OPAQUE_ALPHA: Alpha := 255

  datatype Ink = Ink(color: Color, alpha: Alpha)

  const CLEAR: Ink := Ink((0, 0, 0), 0)

  datatype Source = Source(path: string, width: Size, height: Size)

  /** The colour at (x, y) of a source resized to the given size. */
  type Resampler = (Source, Size, Size, int, int) -> Color

  /** The colour of an ink over a backdrop. */
  type Blender = (Ink, Color) -> Color

  /** What "over" means at both ends of the scale. */
  ghost predicate BlendsOver(blend: Blender) {
    forall c: Color, k: Color :: blend(Ink(c, OPAQUE_ALPHA), k) == c && blend(Ink(c, 0), k) == k
  }

  function Mixed(over: int, under: int, alpha: Alpha): int {
    (over * alpha + under * (OPAQUE_ALPHA - alpha)) / OPAQUE_ALPHA
  }

  /** Linear mixing, rounded down, is such a blender. */
  lemma MixingBlendsOver()
    ensures BlendsOver((ink: Ink, k: Color) => (Mixed(ink.color.0, k.0, ink.alpha), Mixed(ink.color.1, k.1, ink.alpha),
                                                Mixed(ink.color.2, k.2, ink.alpha)))
  {
    assert forall c: int, k: int :: Mixed(c, k, OPAQUE_ALPHA) == c && Mixed(c, k, 0) == k;
  }

  /** An image pasted at a place. */
  datatype Layer = Layer(place: Rect, at: Pixel -> Ink)

  predicate Inside(r: Rect, p: Pixel) {
    r.x <= p.0 < r.x + r.w && r.y <= p.1 < r.y + r.h
  }

  function InkAt(layer: Layer, p: Pixel): Ink {
    if Inside(layer.place, p) then layer.at(p) else CLEAR
  }

  predicate Paints(layer: Layer, p: Pixel) {
    InkAt(layer, p).alpha > 0
  }

  predicate Hides(layer: Layer, p: Pixel) {
    InkAt(layer, p).alpha == OPAQUE_ALPHA
  }

  function SlotLayer(slot: Slot, source: Source, resample: Resampler): Layer {
    var placed := ResizeForSlot(source.width, source.height, slot);
    var place := Painted(source.width, source.height, slot);
    Layer(place, (p: Pixel) => Ink(resample(source, placed.width, placed.height,
                                            p.0 - place.x + placed.window.x, p.1 - place.y + placed.window.y),
                                   OPAQUE_ALPHA))
  }

  // ---------------------------------------------------------------- the fold

  function Blank(w: nat, h: nat, background: Color): Raster {
    map x: int, y: int | 0 <= x < w && 0 <= y < h :: (x, y) := background
  }

  /** Before anything is painted the canvas is its background, and is as wide and as high as it says. */
  lemma BlankCanvas(w: nat, h: nat, background: Color, p: Pixel)
    ensures p in Blank(w, h, background) <==> 0 <= p.0 < w && 0 <= p.1 < h
    ensures p in Blank(w, h, background) ==> Blank(w, h, background)[p] == background
  {
  }

  /** Where the resized source of the given size lies when its top left corner is at (x, y). */
  predicate OnSource(width: int, height: int, x: int, y: int, p: Pixel) {
    0 <= p.0 - x < width && 0 <= p.1 - y < height
  }

  /** What is seen of a source: it is resized as one picture, laid centred over its slot, and every pixel of the slot
      that it reaches shows the pixel of it that lies there.  Nothing outside the slot is painted. */
  lemma SlotShowsSource(slot: Slot, source: Source, resample: Resampler) returns (x: int, y: int)
    ensures var placed := ResizeForSlot(source.width, source.height, slot);
            && Centred(slot.w, placed.width, x - slot.x) && Centred(slot.h, placed.height, y - slot.y)
            && forall p: Pixel ::
                 if Inside(Rect(slot.x, slot.y, slot.w, slot.h), p) && OnSource(placed.width, placed.height, x, y, p)
                 then InkAt(SlotLayer(slot, source, resample), p)
                      == Ink(resample(source, placed.width, placed.height, p.0 - x, p.1 - y), OPAQUE_ALPHA)
                 else InkAt(SlotLayer(slot, source, resample), p) == CLEAR
  {
    var placed := ResizeForSlot(source.width, source.height, slot);
    var scale := PlacementKeepsShape(source.width, source.height, slot);
    PlacementFits(source.width, source.height, slot);
    x := slot.x + placed.pasteX - placed.window.x;
    y := slot.y + placed.pasteY - placed.window.y;
    var layer := SlotLayer(slot, source, resample);
    forall p: Pixel
      ensures Inside(layer.place, p) <==>
                Inside(Rect(slot.x, slot.y, slot.w, slot.h), p) && OnSource(placed.width, placed.height, x, y, p)
    {
      WindowIsOverlap(slot, source.width, source.height, p);
    }
  }

  /** The pasted window is where slot and resized source overlap. */
  lemma WindowIsOverlap(slot: Slot, imageW: Size, imageH: Size, p: Pixel)
    ensures var placed := ResizeForSlot(imageW, imageH, slot);
            Inside(Painted(imageW, imageH, slot), p) <==>
              && Inside(Rect(slot.x, slot.y, slot.w, slot.h), p)
              && OnSource(placed.width, placed.height, slot.x + placed.pasteX - placed.window.x,
                          slot.y + placed.pasteY - placed.window.y, p)
  {
    PlacementFits(imageW, imageH, slot);
  }

  /** `canvas.composite2(image, "over", x, y)`. */
  function Over(canvas: Raster, layer: Layer, blend: Blender): Raster {
    map p | p in canvas :: blend(InkAt(layer, p), canvas[p])
  }

  function PaintAll(canvas: Raster, layers: seq<Layer>, blend: Blender): Raster {
    if |layers| == 0 then canvas
    else Over(PaintAll(canvas, layers[..|layers| - 1], blend), layers[|layers| - 1], blend)
  }

  function SlotLayers(slots: seq<Slot>, sources: seq<Source>, resample: Resampler): (layers: seq<Layer>)
    requires |slots| == |sources|
    ensures |layers| == |slots|
    ensures forall k | 0 <= k < |slots| :: layers[k] == SlotLayer(slots[k], sources[k], resample)
  {
    seq(|slots|, k requires 0 <= k < |slots| => SlotLayer(slots[k], sources[k], resample))
  }

  // ---------------------------------------------------------------- the specification

  /** The inks above one another at one pixel, over a backdrop: no other pixel is looked at. */
  function Stack(under: Color, layers: seq<Layer>, p: Pixel, blend: Blender): Color {
    if |layers| == 0 then under
    else blend(InkAt(layers[|layers| - 1], p), Stack(under, layers[..|layers| - 1], p, blend))
  }

  /** The last layer that hides what is below it at `p`. */
  ghost predicate IsLastOpaque(layers: seq<Layer>, p: Pixel, k: nat) {
    k < |layers| && Hides(layers[k], p) && forall l | k < l < |layers| :: !Hides(layers[l], p)
  }

  /** The only ink to be seen at `p`: opaque, and nothing is painted above it. */
  ghost predicate IsTop(layers: seq<Layer>, p: Pixel, k: nat) {
    k < |layers| && Hides(layers[k], p) && forall l | k < l < |layers| :: !Paints(layers[l], p)
  }

  ghost predicate NothingPainted(layers: seq<Layer>, p: Pixel) {
    forall k | 0 <= k < |layers| :: !Paints(layers[k], p)
  }

  /** What is to be seen at `p`: the last opaque ink and what lies above it, else the background and all layers. */
  ghost predicate Shows(canvas: Raster, base: Raster, layers: seq<Layer>, p: Pixel, blend: Blender)
    requires p in canvas && p in base
  {
    && (forall k | 0 <= k < |layers| && IsLastOpaque(layers, p, k) ::
          canvas[p] == Stack(InkAt(layers[k], p).color, layers[k + 1..], p, blend))
    && ((forall k | 0 <= k < |layers| :: !Hides(layers[k], p)) ==> canvas[p] == Stack(base[p], layers, p, blend))
    && (forall k | 0 <= k < |layers| && IsTop(layers, p, k) :: canvas[p] == InkAt(layers[k], p).color)
    && (NothingPainted(layers, p) ==> canvas[p] == base[p])
  }

  lemma {:induction false} StackSplit(under: Color, first: seq<Layer>, second: seq<Layer>, p: Pixel, blend: Blender)
    ensures Stack(under, first + second, p, blend) == Stack(Stack(under, first, p, blend), second, p, blend)
  {
    if |second| == 0 {
      assert first + second == first;
    } else {
      var n := |second| - 1;
      assert (first + second)[..|first| + n] == first + second[..n];
      StackSplit(under, first, second[..n], p, blend);
    }
  }

  lemma {:induction false} ClearStack(under: Color, layers: seq<Layer>, p: Pixel, blend: Blender)
    requires BlendsOver(blend) && NothingPainted(layers, p)
    ensures Stack(under, layers, p, blend) == under
  {
    if |layers| > 0 {
      var ink := InkAt(layers[|layers| - 1], p);
      assert ink == Ink(ink.color, 0);
      ClearStack(under, layers[..|layers| - 1], p, blend);
    }
  }

  /** An opaque ink hides whatever is below it. */
  lemma {:induction false} OpaqueHides(under: Color, layers: seq<Layer>, p: Pixel, blend: Blender, k: nat)
    requires BlendsOver(blend) && k < |layers| && Hides(layers[k], p)
    ensures Stack(under, layers, p, blend) == Stack(InkAt(layers[k], p).color, layers[k + 1..], p, blend)
  {
    var ink := InkAt(layers[k], p);
    assert ink == Ink(ink.color, OPAQUE_ALPHA);
    assert layers == layers[..k + 1] + layers[k + 1..];
    StackSplit(under, layers[..k + 1], layers[k + 1..], p, blend);
    assert layers[..k + 1][..k] == layers[..k];
    assert Stack(under, layers[..k + 1], p, blend) == blend(ink, Stack(under, layers[..k], p, blend));
  }

  lemma {:induction false} PaintAllIsStack(base: Raster, layers: seq<Layer>, blend: Blender)
    ensures PaintAll(base, layers, blend).Keys == base.Keys
    ensures forall p | p in base :: PaintAll(base, layers, blend)[p] == Stack(base[p], layers, p, blend)
  {
    if |layers| > 0 {
      PaintAllIsStack(base, layers[..|layers| - 1], blend);
    }
  }

  lemma TopIsSeen(under: Color, layers: seq<Layer>, p: Pixel, blend: Blender, k: nat)
    requires BlendsOver(blend) && IsTop(layers, p, k)
    ensures Stack(under, layers, p, blend) == InkAt(layers[k], p).color
  {
    OpaqueHides(under, layers, p, blend, k);
    ClearStack(InkAt(layers[k], p).color, layers[k + 1..], p, blend);
  }

  /** The fold of paints shows at every pixel the last ink that hides what is below it, with what lies above it;
      so the last opaque one where nothing lies above, and the background where nothing is painted. */
  lemma {:induction false} PaintAllShowsTop(base: Raster, layers: seq<Layer>, blend: Blender)
    requires BlendsOver(blend)
    ensures PaintAll(base, layers, blend).Keys == base.Keys
    ensures forall p | p in base :: Shows(PaintAll(base, layers, blend), base, layers, p, blend)
  {
    PaintAllIsStack(base, layers, blend);
    forall p | p in base ensures Shows(PaintAll(base, layers, blend), base, layers, p, blend) {
      forall k | 0 <= k < |layers| && IsLastOpaque(layers, p, k)
        ensures Stack(base[p], layers, p, blend) == Stack(InkAt(layers[k], p).color, layers[k + 1..], p, blend)
      {
        OpaqueHides(base[p], layers, p, blend, k);
      }
      forall k | 0 <= k < |layers| && IsTop(layers, p, k)
        ensures Stack(base[p], layers, p, blend) == InkAt(layers[k], p).color
      {
        TopIsSeen(base[p], layers, p, blend, k);
      }
      if NothingPainted(layers, p) {
        ClearStack(base[p], layers, p, blend);
      }
    }
  }

  /** Among layers that at `p` are opaque or clear, one is on top wherever any paints. */
  lemma {:induction false} TopExists(layers: seq<Layer>, p: Pixel, k: nat) returns (top: nat)
    requires k < |layers| && Paints(layers[k], p)
    requires forall l | 0 <= l < |layers| && Paints(layers[l], p) :: Hides(layers[l], p)
    ensures k <= top && IsTop(layers, p, top)
    decreases |layers| - k
  {
    if l :| k < l < |layers| && Paints(layers[l], p) {
      top := TopExists(layers, p, l);
    } else {
      top := k;
    }
  }

  // ---------------------------------------------------------------- the program

  lemma PaintOneMore(base: Raster, layers: seq<Layer>, k: nat, blend: Blender)
    requires k < |layers|
    ensures PaintAll(base, layers[..k + 1], blend) == Over(PaintAll(base, layers[..k], blend), layers[k], blend)
  {
    assert layers[..k + 1][..k] == layers[..k];
  }

  lemma {:induction false} PaintInTwoGoes(base: Raster, first: seq<Layer>, second: seq<Layer>, blend: Blender)
    ensures PaintAll(base, first + second, blend) == PaintAll(PaintAll(base, first, blend), second, blend)
  {
    if |second| == 0 {
      assert first + second == first;
    } else {
      var n := |second| - 1;
      assert (first + second)[..|first| + n] == first + second[..n];
      PaintInTwoGoes(base, first, second[..n], blend);
    }
  }

  method PaintSlots(base: Raster, slots: seq<Slot>, sources: seq<Source>, resample: Resampler, blend: Blender)
    returns (canvas: Raster)
    requires |slots| == |sources|
    ensures canvas == PaintAll(base, SlotLayers(slots, sources, resample), blend)
  {
    ghost var layers := SlotLayers(slots, sources, resample);
    canvas := base;
    for k := 0 to |slots|
      invariant canvas == PaintAll(base, layers[..k], blend)
    {
      PaintOneMore(base, layers, k, blend);
      canvas := Over(canvas, SlotLayer(slots[k], sources[k], resample), blend);
    }
    assert layers[..|slots|] == layers;
  }

  method PaintOverlays(base: Raster, overlays: seq<Layer>, blend: Blender) returns (canvas: Raster)
    ensures canvas == PaintAll(base, overlays, blend)
  {
    canvas := base;
    for k := 0 to |overlays|
      invariant canvas == PaintAll(base, overlays[..k], blend)
    {
      PaintOneMore(base, overlays, k, blend);
      canvas := Over(canvas, overlays[k], blend);
    }
    assert overlays[..|overlays|] == overlays;
  }

  ghost predicate ShowsEverywhere(canvas: Raster, base: Raster, layers: seq<Layer>, blend: Blender) {
    canvas.Keys == base.Keys && forall p | p in base :: Shows(canvas, base, layers, p, blend)
  }

  datatype CountMismatch = CountMismatch(expected: nat, got: nat)

  /** `_composite`: one source per slot, then the overlays that render to something. */
  method Composite(w: nat, h: nat, background: Color, slots: seq<Slot>, sources: seq<Source>,
                   overlays: seq<Layer>, resample: Resampler, blend: Blender)
    returns (r: Result<Raster, CountMismatch>)
    requires BlendsOver(blend)
    ensures |sources| != |slots| ==> r == Err(CountMismatch(|slots|, |sources|))
    ensures |sources| == |slots| ==>
              && r.Ok?
              && ShowsEverywhere(r.value, Blank(w, h, background),
                                 SlotLayers(slots, sources, resample) + overlays, blend)
  {
    if |sources| != |slots| {
      return Err(CountMismatch(|slots|, |sources|));
    }
    var blank := Blank(w, h, background);
    var canvas := PaintSlots(blank, slots, sources, resample, blend);
    canvas := PaintOverlays(canvas, overlays, blend);
    ghost var layers := SlotLayers(slots, sources, resample);
    PaintInTwoGoes(blank, layers, overlays, blend);
    PaintAllShowsTop(blank, layers + overlays, blend);
    r := Ok(canvas);
  }

  // ---------------------------------------------------------------- order does not matter

  predicate Disjoint(a: Rect, b: Rect) {
    a.x + a.w <= b.x || b.x + b.w <= a.x || a.y + a.h <= b.y || b.y + b.h <= a.y
  }

  function SlotRect(slot: Slot): Rect {
    Rect(slot.x, slot.y, slot.w, slot.h)
  }

  function Layers(pairs: seq<(Slot, Source)>, resample: Resampler): (layers: seq<Layer>)
    ensures |layers| == |pairs|
    ensures forall k | 0 <= k < |pairs| :: layers[k] == SlotLayer(pairs[k].0, pairs[k].1, resample)
  {
    seq(|pairs|, k requires 0 <= k < |pairs| => SlotLayer(pairs[k].0, pairs[k].1, resample))
  }

  ghost predicate SlotsDisjoint(pairs: seq<(Slot, Source)>) {
    forall i, j | 0 <= i < j < |pairs| :: Disjoint(SlotRect(pairs[i].0), SlotRect(pairs[j].0))
  }

  /** Of two disjoint slots at most one paints a given pixel. */
  lemma OnlyOnePaints(a: (Slot, Source), b: (Slot, Source), resample: Resampler, p: Pixel)
    requires Disjoint(SlotRect(a.0), SlotRect(b.0))
    ensures !(Paints(SlotLayer(a.0, a.1, resample), p) && Paints(SlotLayer(b.0, b.1, resample), p))
  {
    PaintedInsideSlot(a.1.width, a.1.height, a.0);
    PaintedInsideSlot(b.1.width, b.1.height, b.0);
  }

  lemma SamePairs(pairs: seq<(Slot, Source)>, permuted: seq<(Slot, Source)>, i: nat) returns (j: nat)
    requires multiset(pairs) == multiset(permuted) && i < |pairs|
    ensures j < |permuted| && permuted[j] == pairs[i]
  {
    assert pairs[i] in multiset(permuted);
    j :| 0 <= j < |permuted| && permuted[j] == pairs[i];
  }

  /** The layers of the pairs are opaque or clear at every pixel. */
  lemma SlotsHide(pairs: seq<(Slot, Source)>, resample: Resampler, p: Pixel, k: nat)
    requires k < |pairs|
    ensures Paints(Layers(pairs, resample)[k], p) ==> Hides(Layers(pairs, resample)[k], p)
  {
    assert Layers(pairs, resample)[k] == SlotLayer(pairs[k].0, pairs[k].1, resample);
  }

  /** The slot that paints a pixel is seen there. */
  lemma OnlyPaintIsSeen(under: Color, pairs: seq<(Slot, Source)>, resample: Resampler, blend: Blender, p: Pixel, i: nat)
    requires BlendsOver(blend) && SlotsDisjoint(pairs)
    requires i < |pairs|
    ensures Paints(Layers(pairs, resample)[i], p) ==>
      Stack(under, Layers(pairs, resample), p, blend) == InkAt(Layers(pairs, resample)[i], p).color
  {
    var layers := Layers(pairs, resample);
    if !Paints(layers[i], p) {
      return;
    }
    AllSlotsHide(pairs, resample, p);
    var top := TopExists(layers, p, i);
    SameIndex(pairs, resample, p, i, top);
    TopIsSeen(under, layers, p, blend, i);
  }

  lemma SameIndex(pairs: seq<(Slot, Source)>, resample: Resampler, p: Pixel, i: nat, j: nat)
    requires SlotsDisjoint(pairs) && i <= j < |pairs|
    ensures Paints(Layers(pairs, resample)[i], p) && Paints(Layers(pairs, resample)[j], p) ==> i == j
  {
    var a, b := pairs[i], pairs[j];
    assert i < j ==> Disjoint(SlotRect(a.0), SlotRect(b.0));
    if Disjoint(SlotRect(a.0), SlotRect(b.0)) {
      OnlyOnePaints(a, b, resample, p);
    }
  }

  lemma AllSlotsHide(pairs: seq<(Slot, Source)>, resample: Resampler, p: Pixel)
    ensures var layers := Layers(pairs, resample);
            forall l | 0 <= l < |layers| && Paints(layers[l], p) :: Hides(layers[l], p)
  {
    var layers := Layers(pairs, resample);
    forall l | 0 <= l < |layers| && Paints(layers[l], p) ensures Hides(layers[l], p) {
      SlotsHide(pairs, resample, p, l);
    }
  }

  lemma PermutedUnpainted(pairs: seq<(Slot, Source)>, permuted: seq<(Slot, Source)>, resample: Resampler, p: Pixel)
    requires multiset(pairs) == multiset(permuted) && NothingPainted(Layers(permuted, resample), p)
    ensures NothingPainted(Layers(pairs, resample), p)
  {
    var a, b := Layers(pairs, resample), Layers(permuted, resample);
    forall i | 0 <= i < |a| ensures !Paints(a[i], p) {
      var j := SamePairs(pairs, permuted, i);
      assert a[i] == b[j];
    }
  }

  lemma {:induction false} SamePixel(under: Color, pairs: seq<(Slot, Source)>, permuted: seq<(Slot, Source)>,
                                     resample: Resampler, blend: Blender, p: Pixel)
    requires BlendsOver(blend) && SlotsDisjoint(pairs) && multiset(pairs) == multiset(permuted)
    ensures Stack(under, Layers(pairs, resample), p, blend) == Stack(under, Layers(permuted, resample), p, blend)
  {
    var a, b := Layers(pairs, resample), Layers(permuted, resample);
    if k :| 0 <= k < |b| && Paints(b[k], p) {
      AllSlotsHide(permuted, resample, p);
      var j := TopExists(b, p, k);
      var i := SamePairs(permuted, pairs, j);
      assert a[i] == b[j];
      OnlyPaintIsSeen(under, pairs, resample, blend, p, i);
      TopIsSeen(under, b, p, blend, j);
    } else {
      PermutedUnpainted(pairs, permuted, resample, p);
      ClearStack(under, a, p, blend);
      ClearStack(under, b, p, blend);
    }
  }

  /** When no two slots overlap, the picture does not depend on the order in which the slot/source pairs
      are painted. */
  lemma {:induction false} OrderDoesNotMatter(base: Raster, pairs: seq<(Slot, Source)>, permuted: seq<(Slot, Source)>,
                                              resample: Resampler, blend: Blender)
    requires BlendsOver(blend) && SlotsDisjoint(pairs) && multiset(pairs) == multiset(permuted)
    ensures PaintAll(base, Layers(pairs, resample), blend) == PaintAll(base, Layers(permuted, resample), blend)
  {
    var a, b := Layers(pairs, resample), Layers(permuted, resample);
    PaintAllIsStack(base, a, blend);
    PaintAllIsStack(base, b, blend);
    forall p | p in base ensures PaintAll(base, a, blend)[p] == PaintAll(base, b, blend)[p] {
      SamePixel(base[p], pairs, permuted, resample, blend, p);
    }
  }
}
