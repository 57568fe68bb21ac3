/** Layer geometry and alignment: the domain of one image layer, the reference
    layer the others are aligned to, the metadata dict attached to each layer,
    the running bounding box across layers, and the choice of the reference.
    Vectors hold physical lengths in one common base unit, except inside the
    domain tracker, which stores numbers in its own working unit. */
module ModelIngestor {
  import opened Wrappers
  import opened Vectors

  /** The center `(re + le) / 2` and width `re - le` of a box, with numpy
      broadcasting of the two edges. */
  function LeReToCenWid(le: Vec, re: Vec): Result<(Vec, Vec)> {
    var sum :- AddB(re, le);
    var width :- SubB(re, le);
    Ok((DivScalar(sum, 2.0), width))
  }

  /** Edges of equal length always give a center and width, and those give the
      edges back: `le = c - w/2` and `re = c + w/2`. */
  lemma CenterWidthRecoverEdges(le: Vec, re: Vec)
    requires |le| == |re|
    ensures LeReToCenWid(le, re).Ok?
    ensures var cw := LeReToCenWid(le, re).value;
      |cw.0| == |cw.1| == |le|
      && forall i :: 0 <= i < |le| ==>
        cw.0[i] - cw.1[i] / 2.0 == le[i] && cw.0[i] + cw.1[i] / 2.0 == re[i]
  {
    var cw := LeReToCenWid(le, re).value;
    forall i | 0 <= i < |le|
      ensures cw.0[i] - cw.1[i] / 2.0 == le[i] && cw.0[i] + cw.1[i] / 2.0 == re[i]
    {
      assert cw.0[i] == (re[i] + le[i]) / 2.0 && cw.1[i] == re[i] - le[i];
    }
  }

  /** Edges of different lengths fail exactly when numpy cannot broadcast them. */
  lemma CenterWidthBroadcast(le: Vec, re: Vec)
    ensures LeReToCenWid(le, re).Ok? <==> (|le| == |re| || |le| == 1 || |re| == 1)
  {
  }

  /** The domain of one layer and the quantities derived from it. `resolution`
      is the pixel count per axis as stored (a one-element resolution may stay
      one element long and is then broadcast). */
  datatype LayerDomain = LayerDomain(
    leftEdge: Vec,
    rightEdge: Vec,
    center: Vec,
    width: Vec,
    resolution: Vec,
    gridWidth: Vec,
    aspectRatio: Vec,
    requiresScale: bool,
    nd: int)

  /** The pixel count that applies to axis `i`, after broadcasting. */
  function ResolutionAt(d: LayerDomain, i: nat): real
    requires |d.resolution| == 1 || i < |d.resolution|
  {
    At(d.resolution, i)
  }

  function ToReals(s: seq<int>): (r: Vec)
    ensures |r| == |s| && forall i :: 0 <= i < |s| ==> r[i] == s[i] as real
  {
    seq(|s|, i requires 0 <= i < |s| => s[i] as real)
  }

  /** A one-element resolution tuple repeated `nd` times (`resolution * n_d`),
      which is empty when `nd` is not positive. */
  function RepeatResolution(res: seq<int>, nd: int): (r: seq<int>)
    requires |res| == 1
    ensures |r| == (if nd <= 0 then 0 else nd)
    ensures forall i :: 0 <= i < |r| ==> r[i] == res[0]
  {
    if nd <= 0 then [] else seq(nd, _ => res[0])
  }

  /** The resolution as stored: the given tuple when its length matches the
      edges, otherwise the one-element tuple repeated `nd` times. */
  function StoredResolution(res: seq<int>, n: nat, nd: int): seq<int>
    requires |res| == n || |res| == 1
  {
    if |res| != n then RepeatResolution(res, nd) else res
  }

  /** Pixel counts with no zero entry and a first width that is not zero. Either
      would make numpy produce an infinity or NaN, which the model leaves out. */
  predicate FiniteDomainInputs(le: Vec, re: Vec, res: seq<int>) {
    (forall i :: 0 <= i < |res| ==> res[i] != 0)
    && (|le| == |re| && |le| > 0 ==> re[0] != le[0])
  }

  /** Building a `LayerDomain`: the edge lengths must agree, a resolution of
      another length must have one element (it is then repeated `nd` times),
      the derived arrays must broadcast, and the width must have a first entry. */
  function NewLayerDomain(le: Vec, re: Vec, res: seq<int>, nd: int): (r: Result<LayerDomain>)
    requires FiniteDomainInputs(le, re, res)
    ensures |le| != |re| ==> r == Err(ValueError)
    ensures |res| != |le| && |res| != 1 ==> r == Err(ValueError)
    ensures r.Ok? <==>
      |le| == |re| > 0 && (|res| == |le| || (|res| == 1 && (nd == |le| || nd == 1)))
    ensures |le| == |re| == 0 && |res| <= 1 && !(|res| == 1 && nd > 1) ==> r == Err(IndexError)
  {
    if |le| != |re| then Err(ValueError)
    else if |res| != |le| && |res| != 1 then Err(ValueError)
    else
      var resolution := ToReals(StoredResolution(res, |le|, nd));
      var cw := LeReToCenWid(le, re).value;
      var gridWidth := DivB(cw.1, resolution);
      if gridWidth.Err? then Err(gridWidth.error)
      else if |cw.1| == 0 then Err(IndexError)
      else
        var aspect := DivScalar(cw.1, cw.1[0]);
        Ok(LayerDomain(le, re, cw.0, cw.1, resolution, gridWidth.value, aspect,
                       AnyNotEqual(aspect, 1.0), nd))
  }

  /** A built domain keeps its edges and `nd`, and has center (le + re) / 2 and
      width re - le on every axis. */
  lemma LayerDomainCenterWidth(le: Vec, re: Vec, res: seq<int>, nd: int)
    requires FiniteDomainInputs(le, re, res)
    requires NewLayerDomain(le, re, res, nd).Ok?
    ensures var d := NewLayerDomain(le, re, res, nd).value;
      d.leftEdge == le && d.rightEdge == re && d.nd == nd
      && |d.center| == |d.width| == |le|
      && forall i :: 0 <= i < |le| ==>
        d.center[i] == (le[i] + re[i]) / 2.0 && d.width[i] == re[i] - le[i]
  {
    var d := NewLayerDomain(le, re, res, nd).value;
    var cw := LeReToCenWid(le, re).value;
    assert cw == (DivScalar(Add(re, le), 2.0), Sub(re, le));
    assert d.center == cw.0 && d.width == cw.1;
  }

  /** A built domain stores the given resolution, or the one-element resolution
      repeated `nd` times, and no axis has a zero pixel count. */
  lemma LayerDomainResolution(le: Vec, re: Vec, res: seq<int>, nd: int)
    requires FiniteDomainInputs(le, re, res)
    requires NewLayerDomain(le, re, res, nd).Ok?
    ensures var d := NewLayerDomain(le, re, res, nd).value;
      |d.resolution| == (if |res| == |le| then |le| else nd)
      && forall i :: 0 <= i < |le| ==>
        ResolutionAt(d, i) == (if |res| == |le| then res[i] else res[0]) as real
        && ResolutionAt(d, i) != 0.0
  {
    var d := NewLayerDomain(le, re, res, nd).value;
    var stored := StoredResolution(res, |le|, nd);
    assert d.resolution == ToReals(stored);
    forall i | 0 <= i < |le|
      ensures ResolutionAt(d, i) == (if |res| == |le| then res[i] else res[0]) as real
    {
      if |res| == |le| {
        assert stored[i] == res[i];
      } else {
        assert stored[0] == res[0];
      }
    }
  }

  lemma DivThenMul(x: real, y: real)
    requires y != 0.0
    ensures (x / y) * y == x
  {
  }

  /** The fields of a built domain in terms of the operations that derive them. */
  lemma LayerDomainParts(le: Vec, re: Vec, res: seq<int>, nd: int)
    requires FiniteDomainInputs(le, re, res)
    requires NewLayerDomain(le, re, res, nd).Ok?
    ensures var d := NewLayerDomain(le, re, res, nd).value;
      |le| == |re| > 0
      && d.resolution == ToReals(StoredResolution(res, |le|, nd))
      && d.width == Sub(re, le) && d.width[0] != 0.0
      && NonZero(d.resolution)
      && (|d.resolution| == 1 || |d.resolution| == |le|)
      && DivB(d.width, d.resolution).Ok?
      && d.gridWidth == DivB(d.width, d.resolution).value
      && d.aspectRatio == DivScalar(d.width, d.width[0])
      && d.requiresScale == AnyNotEqual(d.aspectRatio, 1.0)
  {
    var d := NewLayerDomain(le, re, res, nd).value;
    var cw := LeReToCenWid(le, re).value;
    assert cw.1 == Sub(re, le);
    assert d.width == cw.1;
  }

  /** Every axis of `d` has a pixel count, and pixel size times pixel count is
      the width of the axis. */
  predicate PixelsSpanWidth(d: LayerDomain) {
    |d.gridWidth| == |d.width|
    && (|d.resolution| == 1 || |d.resolution| == |d.width|)
    && forall i :: 0 <= i < |d.width| ==> d.gridWidth[i] * ResolutionAt(d, i) == d.width[i]
  }

  /** A domain whose pixel sizes are its widths divided by its pixel counts:
      multiplying back gives the widths. */
  lemma GridTimesResolution(d: LayerDomain)
    requires NonZero(d.resolution)
    requires |d.resolution| == 1 || |d.resolution| == |d.width|
    requires DivB(d.width, d.resolution) == Ok(d.gridWidth)
    ensures PixelsSpanWidth(d)
  {
    forall i | 0 <= i < |d.width|
      ensures d.gridWidth[i] * ResolutionAt(d, i) == d.width[i]
    {
      DivThenMul(d.width[i], ResolutionAt(d, i));
    }
  }

  /** `ratio` holds each entry of `w` relative to the first one: the first ratio
      is 1 and ratio times first entry gives the entry back. */
  predicate RelativeWidths(ratio: Vec, w: Vec) {
    |ratio| == |w| > 0 && ratio[0] == 1.0
    && forall i :: 0 <= i < |w| ==> ratio[i] * w[0] == w[i]
  }

  /** Dividing by a non-zero first entry gives the entries relative to it. */
  lemma RelativeToFirst(w: Vec)
    requires |w| > 0 && w[0] != 0.0
    ensures RelativeWidths(DivScalar(w, w[0]), w)
  {
    var r := DivScalar(w, w[0]);
    assert r[0] == w[0] / w[0] == 1.0;
    forall i | 0 <= i < |w|
      ensures r[i] * w[0] == w[i]
    {
      DivThenMul(w[i], w[0]);
    }
  }

  /** The pixel size times the pixel count of each axis is the width of that axis. */
  lemma LayerDomainGridWidth(le: Vec, re: Vec, res: seq<int>, nd: int)
    requires FiniteDomainInputs(le, re, res)
    requires NewLayerDomain(le, re, res, nd).Ok?
    ensures var d := NewLayerDomain(le, re, res, nd).value;
      |d.width| == |le| && PixelsSpanWidth(d)
  {
    LayerDomainParts(le, re, res, nd);
    var d := NewLayerDomain(le, re, res, nd).value;
    GridTimesResolution(d);
  }

  /** The aspect ratio of a built domain is its width relative to the first
      width, so its first entry is 1. */
  lemma LayerDomainAspect(le: Vec, re: Vec, res: seq<int>, nd: int)
    requires FiniteDomainInputs(le, re, res)
    requires NewLayerDomain(le, re, res, nd).Ok?
    ensures var d := NewLayerDomain(le, re, res, nd).value;
      |d.width| == |le| && d.width[0] != 0.0
      && RelativeWidths(d.aspectRatio, d.width)
      && d.requiresScale == AnyNotEqual(d.aspectRatio, 1.0)
  {
    LayerDomainParts(le, re, res, nd);
    var d := NewLayerDomain(le, re, res, nd).value;
    RelativeToFirst(d.width);
  }

  /** Ratios to a non-zero first entry differ from 1 exactly where the entries
      differ from the first entry. */
  lemma RatioNotOne(ratio: Vec, w: Vec)
    requires RelativeWidths(ratio, w) && w[0] != 0.0
    ensures AnyNotEqual(ratio, 1.0) <==> exists i :: 0 <= i < |w| && w[i] != w[0]
  {
    if AnyNotEqual(ratio, 1.0) {
      var i :| 0 <= i < |ratio| && ratio[i] != 1.0;
      assert ratio[i] * w[0] != 1.0 * w[0];
    }
    if exists i :: 0 <= i < |w| && w[i] != w[0] {
      var i :| 0 <= i < |w| && w[i] != w[0];
      assert ratio[i] != 1.0;
    }
  }

  /** A layer needs rescaling exactly when its widths are not all equal. */
  lemma RequiresScaleIffUnequalWidths(le: Vec, re: Vec, res: seq<int>, nd: int)
    requires FiniteDomainInputs(le, re, res)
    requires NewLayerDomain(le, re, res, nd).Ok?
    ensures var d := NewLayerDomain(le, re, res, nd).value;
      d.requiresScale <==> exists i :: 0 <= i < |d.width| && d.width[i] != d.width[0]
  {
    var d := NewLayerDomain(le, re, res, nd).value;
    LayerDomainCenterWidth(le, re, res, nd);
    LayerDomainAspect(le, re, res, nd);
    RatioNotOne(d.aspectRatio, d.width);
  }

  /** The example domain is built, with its resolution repeated and its widths. */
  lemma ExampleDomainBuilt()
    ensures var r := NewLayerDomain([1000.0, 1000.0, 1000.0], [2000.0, 2000.0, 2000.0], [10], 3);
      r.Ok? && r.value.resolution == [10.0, 10.0, 10.0] && r.value.width == [1000.0, 1000.0, 1000.0]
  {
    var d := NewLayerDomain([1000.0, 1000.0, 1000.0], [2000.0, 2000.0, 2000.0], [10], 3).value;
    assert d.resolution == [10.0, 10.0, 10.0];
  }

  /** A three-axis domain with a one-element resolution repeats it on every axis
      (1 to 2 km on each axis, resolution `(10,)`). */
  lemma LayerDomainRepeatsResolution()
    ensures var r := NewLayerDomain([1000.0, 1000.0, 1000.0], [2000.0, 2000.0, 2000.0], [10], 3);
      r.Ok? && r.value.resolution == [10.0, 10.0, 10.0] && r.value.gridWidth == [100.0, 100.0, 100.0]
      && !r.value.requiresScale
  {
    ExampleDomainBuilt();
    var d := NewLayerDomain([1000.0, 1000.0, 1000.0], [2000.0, 2000.0, 2000.0], [10], 3).value;
    assert d.gridWidth == [100.0, 100.0, 100.0];
    RequiresScaleIffUnequalWidths([1000.0, 1000.0, 1000.0], [2000.0, 2000.0, 2000.0], [10], 3);
  }

  /** The fixed snapshot of one domain that other layers are aligned against. */
  datatype ReferenceLayer = ReferenceLayer(
    leftEdge: Vec,
    rightEdge: Vec,
    center: Vec,
    width: Vec,
    resolution: Vec,
    gridWidth: Vec,
    aspectRatio: Vec)

  function NewReferenceLayer(d: LayerDomain): ReferenceLayer {
    ReferenceLayer(d.leftEdge, d.rightEdge, d.center, d.width, d.resolution,
                   d.gridWidth, d.aspectRatio)
  }

  /** The pixel scale of another layer: the ratio of its pixel size to the
      reference pixel size, multiplied by the reference aspect ratio. */
  function CalculateScale(ref: ReferenceLayer, other: LayerDomain): Result<Vec>
    requires NonZero(ref.gridWidth)
  {
    var sc :- DivB(other.gridWidth, ref.gridWidth);
    MulB(sc, ref.aspectRatio)
  }

  /** The offset in reference pixels of another layer's left edge from the
      reference left edge. */
  function CalculateTranslation(ref: ReferenceLayer, other: LayerDomain): Result<Vec>
    requires NonZero(ref.gridWidth)
  {
    var offset :- SubB(other.leftEdge, ref.leftEdge);
    DivB(offset, ref.gridWidth)
  }

  /** For arrays of one length, scale = (other pixel / reference pixel) times the
      reference aspect ratio, component by component. */
  lemma ScaleFormula(ref: ReferenceLayer, other: LayerDomain)
    requires NonZero(ref.gridWidth)
    requires |other.gridWidth| == |ref.gridWidth| == |ref.aspectRatio|
    ensures CalculateScale(ref, other).Ok?
    ensures var s := CalculateScale(ref, other).value;
      |s| == |ref.gridWidth|
      && forall i :: 0 <= i < |s| ==>
        s[i] == other.gridWidth[i] / ref.gridWidth[i] * ref.aspectRatio[i]
  {
  }

  /** For arrays of one length, the translation times the reference pixel size
      is the physical offset between the left edges. */
  lemma TranslationInPixels(ref: ReferenceLayer, other: LayerDomain)
    requires NonZero(ref.gridWidth)
    requires |other.leftEdge| == |ref.leftEdge| == |ref.gridWidth|
    ensures CalculateTranslation(ref, other).Ok?
    ensures var t := CalculateTranslation(ref, other).value;
      |t| == |ref.gridWidth|
      && forall i :: 0 <= i < |t| ==>
        t[i] * ref.gridWidth[i] == other.leftEdge[i] - ref.leftEdge[i]
  {
    var t := CalculateTranslation(ref, other).value;
    forall i | 0 <= i < |t|
      ensures t[i] * ref.gridWidth[i] == other.leftEdge[i] - ref.leftEdge[i]
    {
      assert t[i] == (other.leftEdge[i] - ref.leftEdge[i]) / ref.gridWidth[i];
    }
  }

  /** Against its own domain a layer needs no translation, and its scale is the
      reference aspect ratio. */
  lemma SelfAlignment(d: LayerDomain)
    requires NonZero(d.gridWidth)
    requires |d.leftEdge| == |d.gridWidth| == |d.aspectRatio|
    ensures CalculateTranslation(NewReferenceLayer(d), d) == Ok(Repeat(0.0, |d.leftEdge|))
    ensures CalculateScale(NewReferenceLayer(d), d) == Ok(d.aspectRatio)
  {
    var ref := NewReferenceLayer(d);
    TranslationInPixels(ref, d);
    var t := CalculateTranslation(ref, d).value;
    forall i | 0 <= i < |t| ensures t[i] == 0.0 {
      assert t[i] * ref.gridWidth[i] == 0.0;
    }
    assert t == Repeat(0.0, |d.leftEdge|);
    ScaleFormula(ref, d);
    var s := CalculateScale(ref, d).value;
    forall i | 0 <= i < |s| ensures s[i] == d.aspectRatio[i] {
      assert d.gridWidth[i] / d.gridWidth[i] == 1.0;
    }
    assert s == d.aspectRatio;
  }

  /** Every built domain meets the length conditions of `SelfAlignment`. */
  lemma AlignToSelf(le: Vec, re: Vec, res: seq<int>, nd: int)
    requires FiniteDomainInputs(le, re, res)
    requires NewLayerDomain(le, re, res, nd).Ok?
    requires NonZero(NewLayerDomain(le, re, res, nd).value.gridWidth)
    ensures var d := NewLayerDomain(le, re, res, nd).value;
      CalculateTranslation(NewReferenceLayer(d), d) == Ok(Repeat(0.0, |le|))
      && CalculateScale(NewReferenceLayer(d), d) == Ok(d.aspectRatio)
  {
    LayerDomainCenterWidth(le, re, res, nd);
    LayerDomainGridWidth(le, re, res, nd);
    LayerDomainAspect(le, re, res, nd);
    SelfAlignment(NewLayerDomain(le, re, res, nd).value);
  }

  /** An image array, known here by its shape and its least and greatest values. */
  datatype ImageArray = ImageArray(shape: seq<nat>, minValue: real, maxValue: real)

  /** Values held in a layer's metadata dict. */
  datatype MetaValue =
    | MRange(lo: real, hi: real)
    | MDomain(domain: LayerDomain)
    | MBool(flag: bool)
    | MRef(ref: ReferenceLayer)
    | MNone
    | MText(text: string)
    | MNumber(number: real)

  /** Values held in a layer's keyword-argument dict. */
  datatype KwValue =
    | KFloats(values: Vec)
    | KMetadata(md: map<string, MetaValue>)
    | KText(text: string)
    | KNumber(number: real)
    | KNone

  /** The keyword-argument dict of a layer; alignment updates it in place. */
  class Kwargs {
    var entries: map<string, KwValue>

    constructor(entries0: map<string, KwValue>)
      ensures entries == entries0
    {
      entries := entries0;
    }
  }

  /** A layer that still carries its domain: `(array, kwargs, type, domain)`. */
  datatype SpatialLayer = SpatialLayer(data: ImageArray, kwargs: Kwargs, layerType: string, domain: LayerDomain)

  /** A layer ready for the viewer: `(array, kwargs, type)`. */
  datatype Layer = Layer(data: ImageArray, kwargs: Kwargs, layerType: string)

  /** The keyword arguments after an alignment and whether it raised partway. */
  datatype AlignResult = AlignResult(entries: map<string, KwValue>, outcome: Outcome)

  /** The effect of aligning a layer with domain `domain` on its keyword
      arguments `e`: scale and translation are computed first, then written only
      where they do something, then the metadata dict (created if missing) is
      pointed at the reference. A metadata entry that is not a dict raises
      TypeError after the scale and translation were written. */
  function Aligned(ref: ReferenceLayer, domain: LayerDomain, e: map<string, KwValue>): AlignResult
    requires NonZero(ref.gridWidth)
  {
    var scale := CalculateScale(ref, domain);
    var translate := CalculateTranslation(ref, domain);
    if scale.Err? then AlignResult(e, Fail(scale.error))
    else if translate.Err? then AlignResult(e, Fail(translate.error))
    else
      var e1 := if AnyNotEqual(scale.value, 1.0) then e["scale" := KFloats(scale.value)] else e;
      var e2 := if AnyNotEqual(translate.value, 0.0) then e1["translate" := KFloats(translate.value)] else e1;
      var e3 := if "metadata" in e2 then e2 else e2["metadata" := KMetadata(map[])];
      if e3["metadata"].KMetadata? then
        AlignResult(e3["metadata" := KMetadata(e3["metadata"].md["_reference_layer" := MRef(ref)])], Pass)
      else AlignResult(e3, Fail(TypeError))
  }

  /** A scale or translation that cannot be computed raises ValueError before
      anything is written. */
  lemma AlignedMismatch(ref: ReferenceLayer, domain: LayerDomain, e: map<string, KwValue>)
    requires NonZero(ref.gridWidth)
    requires CalculateScale(ref, domain).Err? || CalculateTranslation(ref, domain).Err?
    ensures Aligned(ref, domain, e) == AlignResult(e, Fail(ValueError))
  {
  }

  /** The entries an alignment leaves behind, built step by step from `e`. */
  lemma AlignedSteps(ref: ReferenceLayer, domain: LayerDomain, e: map<string, KwValue>)
    requires NonZero(ref.gridWidth)
    requires CalculateScale(ref, domain).Ok? && CalculateTranslation(ref, domain).Ok?
    ensures var s := CalculateScale(ref, domain).value;
      var t := CalculateTranslation(ref, domain).value;
      var e1 := if AnyNotEqual(s, 1.0) then e["scale" := KFloats(s)] else e;
      var e2 := if AnyNotEqual(t, 0.0) then e1["translate" := KFloats(t)] else e1;
      var e3 := if "metadata" in e2 then e2 else e2["metadata" := KMetadata(map[])];
      Aligned(ref, domain, e)
        == if e3["metadata"].KMetadata?
           then AlignResult(e3["metadata" := KMetadata(e3["metadata"].md["_reference_layer" := MRef(ref)])], Pass)
           else AlignResult(e3, Fail(TypeError))
  {
  }

  /** "scale" is written exactly when some scale component differs from 1 and
      "translate" exactly when some translation component differs from 0;
      otherwise those entries keep whatever they held. No other entry except
      "metadata" changes, and none appears or disappears. */
  lemma AlignedKeys(ref: ReferenceLayer, domain: LayerDomain, e: map<string, KwValue>)
    requires NonZero(ref.gridWidth)
    requires CalculateScale(ref, domain).Ok? && CalculateTranslation(ref, domain).Ok?
    ensures var s := CalculateScale(ref, domain).value;
      var out := Aligned(ref, domain, e).entries;
      if AnyNotEqual(s, 1.0) then "scale" in out && out["scale"] == KFloats(s)
      else ("scale" in out <==> "scale" in e) && ("scale" in e ==> out["scale"] == e["scale"])
    ensures var t := CalculateTranslation(ref, domain).value;
      var out := Aligned(ref, domain, e).entries;
      if AnyNotEqual(t, 0.0) then "translate" in out && out["translate"] == KFloats(t)
      else ("translate" in out <==> "translate" in e) && ("translate" in e ==> out["translate"] == e["translate"])
    ensures var out := Aligned(ref, domain, e).entries;
      forall k :: k != "scale" && k != "translate" && k != "metadata" ==>
        (k in out <==> k in e) && (k in e ==> out[k] == e[k])
  {
    AlignedSteps(ref, domain, e);
  }

  /** Alignment succeeds exactly when the layer has no metadata entry or its
      metadata is a dict; the metadata then maps "_reference_layer" to the
      reference and keeps its other entries. */
  lemma AlignedMetadata(ref: ReferenceLayer, domain: LayerDomain, e: map<string, KwValue>)
    requires NonZero(ref.gridWidth)
    requires CalculateScale(ref, domain).Ok? && CalculateTranslation(ref, domain).Ok?
    ensures var a := Aligned(ref, domain, e);
      (a.outcome.Pass? <==> ("metadata" !in e || e["metadata"].KMetadata?))
      && (a.outcome.Fail? ==> a.outcome.error == TypeError)
    ensures var a := Aligned(ref, domain, e);
      a.outcome.Pass? ==>
        "metadata" in a.entries && a.entries["metadata"].KMetadata?
        && a.entries["metadata"].md
           == (if "metadata" in e then e["metadata"].md else map[])["_reference_layer" := MRef(ref)]
  {
    AlignedSteps(ref, domain, e);
  }

  /** Aligning the reference layer's own domain never adds a translation, and
      adds a scale exactly when that domain requires one. */
  lemma AlignOwnLayer(le: Vec, re: Vec, res: seq<int>, nd: int, e: map<string, KwValue>)
    requires FiniteDomainInputs(le, re, res)
    requires NewLayerDomain(le, re, res, nd).Ok?
    requires NonZero(NewLayerDomain(le, re, res, nd).value.gridWidth)
    ensures var d := NewLayerDomain(le, re, res, nd).value;
      var out := Aligned(NewReferenceLayer(d), d, e).entries;
      ("translate" in out <==> "translate" in e)
      && ("scale" in out && out["scale"] == KFloats(d.aspectRatio) <==> d.requiresScale || ("scale" in e && e["scale"] == KFloats(d.aspectRatio)))
      && (!d.requiresScale ==> ("scale" in out <==> "scale" in e))
  {
    var d := NewLayerDomain(le, re, res, nd).value;
    AlignToSelf(le, re, res, nd);
    LayerDomainAspect(le, re, res, nd);
    var ref := NewReferenceLayer(d);
    AlignedKeys(ref, d, e);
    assert !AnyNotEqual(Repeat(0.0, |le|), 0.0);
  }

  /** Aligns one layer to the reference: writes "scale" and "translate" into its
      keyword arguments where they do something, points its metadata at the
      reference, and returns `(array, kwargs, type)` without the domain. */
  method AlignSanitizeLayer(ref: ReferenceLayer, layer: SpatialLayer) returns (r: Result<Layer>)
    requires NonZero(ref.gridWidth)
    modifies layer.kwargs
    ensures layer.kwargs.entries == Aligned(ref, layer.domain, old(layer.kwargs.entries)).entries
    ensures var a := Aligned(ref, layer.domain, old(layer.kwargs.entries));
      if a.outcome.Pass? then r == Ok(Layer(layer.data, layer.kwargs, layer.layerType))
      else r == Err(a.outcome.error)
  {
    var scale := CalculateScale(ref, layer.domain);
    if scale.Err? {
      return Err(scale.error);
    }
    var translate := CalculateTranslation(ref, layer.domain);
    if translate.Err? {
      return Err(translate.error);
    }
    if AnyNotEqual(scale.value, 1.0) {
      layer.kwargs.entries := layer.kwargs.entries["scale" := KFloats(scale.value)];
    }
    if AnyNotEqual(translate.value, 0.0) {
      layer.kwargs.entries := layer.kwargs.entries["translate" := KFloats(translate.value)];
    }
    if "metadata" !in layer.kwargs.entries {
      layer.kwargs.entries := layer.kwargs.entries["metadata" := KMetadata(map[])];
    }
    var metadata := layer.kwargs.entries["metadata"];
    if !metadata.KMetadata? {
      return Err(TypeError);
    }
    layer.kwargs.entries := layer.kwargs.entries["metadata" := KMetadata(metadata.md["_reference_layer" := MRef(ref)])];
    return Ok(Layer(layer.data, layer.kwargs, layer.layerType));
  }

  /** The keyword-argument dicts of a list of layers. */
  function KwargsOf(layers: seq<SpatialLayer>): set<Kwargs> {
    set i | 0 <= i < |layers| :: layers[i].kwargs
  }

  /** No two layers share one keyword-argument dict. */
  predicate DistinctKwargs(layers: seq<SpatialLayer>) {
    forall i, j :: 0 <= i < j < |layers| ==> layers[i].kwargs != layers[j].kwargs
  }

  /** With distinct dicts, no other layer holds the dict of layer `i`. */
  lemma DistinctOthers(layers: seq<SpatialLayer>, i: nat)
    requires DistinctKwargs(layers) && i < |layers|
    ensures forall j :: 0 <= j < |layers| && j != i ==> layers[j].kwargs != layers[i].kwargs
  {
    forall j | 0 <= j < |layers| && j != i
      ensures layers[j].kwargs != layers[i].kwargs
    {
      if j < i {
        assert layers[j].kwargs != layers[i].kwargs;
      } else {
        assert layers[i].kwargs != layers[j].kwargs;
      }
    }
  }

  /** Aligns every layer in order, stopping at the first that raises. The result
      keeps the length and order of the input; when the layers hold distinct
      dicts, each dict ends up aligned on its own. */
  method AlignSanitizeLayers(ref: ReferenceLayer, layers: seq<SpatialLayer>) returns (r: Result<seq<Layer>>)
    requires NonZero(ref.gridWidth)
    modifies KwargsOf(layers)
    ensures r.Ok? ==> |r.value| == |layers|
    ensures r.Ok? ==> forall i :: 0 <= i < |layers| ==>
      r.value[i] == Layer(layers[i].data, layers[i].kwargs, layers[i].layerType)
    ensures DistinctKwargs(layers) ==>
      (r.Ok? <==> forall i :: 0 <= i < |layers| ==>
        Aligned(ref, layers[i].domain, old(layers[i].kwargs.entries)).outcome.Pass?)
    ensures DistinctKwargs(layers) && r.Ok? ==>
      forall i :: 0 <= i < |layers| ==>
        layers[i].kwargs.entries == Aligned(ref, layers[i].domain, old(layers[i].kwargs.entries)).entries
  {
    ghost var before := seq(|layers|, j requires 0 <= j < |layers| reads if 0 <= j < |layers| then {layers[j].kwargs} else {} => layers[j].kwargs.entries);
    var out: seq<Layer> := [];
    var i := 0;
    while i < |layers|
      invariant 0 <= i <= |layers|
      invariant |out| == i
      invariant forall j :: 0 <= j < |layers| ==> before[j] == old(layers[j].kwargs.entries)
      invariant forall j :: 0 <= j < i ==>
        out[j] == Layer(layers[j].data, layers[j].kwargs, layers[j].layerType)
      invariant DistinctKwargs(layers) ==> forall j :: 0 <= j < i ==>
        Aligned(ref, layers[j].domain, before[j]).outcome.Pass?
        && layers[j].kwargs.entries == Aligned(ref, layers[j].domain, before[j]).entries
      invariant DistinctKwargs(layers) ==> forall j :: i <= j < |layers| ==>
        layers[j].kwargs.entries == before[j]
    {
      assert layers[i].kwargs in KwargsOf(layers);
      if DistinctKwargs(layers) {
        DistinctOthers(layers, i);
      }
      var aligned := AlignSanitizeLayer(ref, layers[i]);
      if aligned.Err? {
        return Err(aligned.error);
      }
      out := out + [aligned.value];
      i := i + 1;
    }
    return Ok(out);
  }

  /** The volume of a layer's domain, `np.prod(width)`. */
  function Volume(layer: SpatialLayer): real {
    Product(layer.domain.width)
  }

  /** `k` is the first index holding the smallest volume. */
  predicate IsFirstSmallest(layers: seq<SpatialLayer>, k: nat) {
    k < |layers|
    && (forall j :: 0 <= j < |layers| ==> Volume(layers[k]) <= Volume(layers[j]))
    && (forall j :: 0 <= j < k ==> Volume(layers[j]) > Volume(layers[k]))
  }

  /** At most one index is the first with the smallest volume. */
  lemma FirstSmallestUnique(layers: seq<SpatialLayer>, a: nat, b: nat)
    requires IsFirstSmallest(layers, a) && IsFirstSmallest(layers, b)
    ensures a == b
  {
    var va, vb := Volume(layers[a]), Volume(layers[b]);
    assert va <= vb && vb <= va;
  }

  /** Picks the layer whose domain becomes the reference: the first layer for
      "first_in_list", the first layer of smallest volume for "smallest_volume".
      An empty list raises IndexError or, for the volume search, the
      UnboundLocalError of a never-assigned index; another method name raises
      ValueError. */
  method ChooseRefLayer(layers: seq<SpatialLayer>, methodName: string) returns (r: Result<ReferenceLayer>)
    ensures methodName == "first_in_list" ==>
      r == (if |layers| == 0 then Err(IndexError) else Ok(NewReferenceLayer(layers[0].domain)))
    ensures methodName == "smallest_volume" && |layers| == 0 ==> r == Err(UnboundLocalError)
    ensures methodName == "smallest_volume" && |layers| > 0 ==>
      exists k: nat :: IsFirstSmallest(layers, k) && r == Ok(NewReferenceLayer(layers[k].domain))
    ensures methodName != "first_in_list" && methodName != "smallest_volume" ==> r == Err(ValueError)
  {
    var refId: Option<nat> := None;
    if methodName == "first_in_list" {
      refId := Some(0);
    } else if methodName == "smallest_volume" {
      var minVol: Option<real> := None;
      var i := 0;
      while i < |layers|
        invariant 0 <= i <= |layers|
        invariant minVol.None? <==> i == 0
        invariant refId.None? <==> i == 0
        invariant i > 0 ==> refId.value < i && minVol.value == Volume(layers[refId.value])
        invariant i > 0 ==> forall j :: 0 <= j < i ==> minVol.value <= Volume(layers[j])
        invariant i > 0 ==> forall j :: 0 <= j < refId.value ==> Volume(layers[j]) > minVol.value
      {
        var vol := Volume(layers[i]);
        if minVol.None? {
          minVol := Some(vol);
          refId := Some(i);
        } else if vol < minVol.value {
          minVol := Some(vol);
          refId := Some(i);
        }
        i := i + 1;
      }
      if refId.None? {
        return Err(UnboundLocalError);
      }
      assert IsFirstSmallest(layers, refId.value);
    } else {
      return Err(ValueError);
    }
    if refId.value >= |layers| {
      return Err(IndexError);
    }
    return Ok(NewReferenceLayer(layers[refId.value].domain));
  }

  /** The alignment step after loading: the first layer is the reference and
      every layer is aligned to it; an empty list raises IndexError. */
  method AlignLoadedLayers(layers: seq<SpatialLayer>) returns (r: Result<seq<Layer>>)
    requires |layers| > 0 ==> NonZero(layers[0].domain.gridWidth)
    modifies KwargsOf(layers)
    ensures |layers| == 0 ==> r == Err(IndexError)
    ensures r.Ok? ==> |r.value| == |layers|
    ensures r.Ok? ==> forall i :: 0 <= i < |layers| ==>
      r.value[i] == Layer(layers[i].data, layers[i].kwargs, layers[i].layerType)
    ensures |layers| > 0 && DistinctKwargs(layers) ==>
      var ref := NewReferenceLayer(layers[0].domain);
      (r.Ok? <==> forall i :: 0 <= i < |layers| ==>
        Aligned(ref, layers[i].domain, old(layers[i].kwargs.entries)).outcome.Pass?)
      && (r.Ok? ==> forall i :: 0 <= i < |layers| ==>
        layers[i].kwargs.entries == Aligned(ref, layers[i].domain, old(layers[i].kwargs.entries)).entries)
  {
    var ref :- ChooseRefLayer(layers, "first_in_list");
    r := AlignSanitizeLayers(ref, layers);
  }

  /** The keys every metadata dict starts with: the data range, the domain, the
      log flag, the yt-napari marker and the reference layer (or None). */
  function BaseMetadata(data: ImageArray, domain: LayerDomain, isLog: bool, ref: Option<ReferenceLayer>)
    : map<string, MetaValue>
  {
    map[
      "_data_range" := MRange(data.minValue, data.maxValue),
      "_layer_domain" := MDomain(domain),
      "_is_log" := MBool(isLog),
      "_yt_napari_layer" := MBool(true),
      "_reference_layer" := if ref.Some? then MRef(ref.value) else MNone
    ]
  }

  /** Builds a layer's metadata dict: the five standard keys, then every extra
      keyword argument, which overrides a standard key of the same name. */
  method CreateMetadataDict(data: ImageArray, domain: LayerDomain, isLog: bool,
                            ref: Option<ReferenceLayer>, extra: map<string, MetaValue>)
    returns (md: map<string, MetaValue>)
    ensures md.Keys == BaseMetadata(data, domain, isLog, ref).Keys + extra.Keys
    ensures forall k :: k in extra ==> md[k] == extra[k]
    ensures forall k :: k in BaseMetadata(data, domain, isLog, ref) && k !in extra ==>
      md[k] == BaseMetadata(data, domain, isLog, ref)[k]
  {
    ghost var base := BaseMetadata(data, domain, isLog, ref);
    md := map[];
    md := md["_data_range" := MRange(data.minValue, data.maxValue)];
    md := md["_layer_domain" := MDomain(domain)];
    md := md["_is_log" := MBool(isLog)];
    md := md["_yt_napari_layer" := MBool(true)];
    md := md["_reference_layer" := if ref.Some? then MRef(ref.value) else MNone];
    assert md == base;
    var remaining := extra.Keys;
    while remaining != {}
      invariant remaining <= extra.Keys
      invariant md.Keys == base.Keys + (extra.Keys - remaining)
      invariant forall k :: k in extra.Keys - remaining ==> md[k] == extra[k]
      invariant forall k :: k in base && k !in extra.Keys - remaining ==> md[k] == base[k]
      decreases remaining
    {
      var k :| k in remaining;
      md := md[k := extra[k]];
      remaining := remaining - {k};
    }
  }

  /** With no extra arguments the metadata dict is exactly the standard one. */
  lemma MetadataWithoutExtra(data: ImageArray, domain: LayerDomain, isLog: bool,
                             ref: Option<ReferenceLayer>, md: map<string, MetaValue>)
    requires md.Keys == BaseMetadata(data, domain, isLog, ref).Keys
    requires forall k :: k in BaseMetadata(data, domain, isLog, ref) ==>
      md[k] == BaseMetadata(data, domain, isLog, ref)[k]
    ensures md == BaseMetadata(data, domain, isLog, ref)
  {
  }

  /** A metadata dict always marks its layer as a yt-napari layer unless an
      extra argument overrides the marker, and always holds the data range. */
  lemma MetadataMarksLayer(data: ImageArray, domain: LayerDomain, isLog: bool,
                           ref: Option<ReferenceLayer>, extra: map<string, MetaValue>,
                           md: map<string, MetaValue>)
    requires md.Keys == BaseMetadata(data, domain, isLog, ref).Keys + extra.Keys
    requires forall k :: k in extra ==> md[k] == extra[k]
    requires forall k :: k in BaseMetadata(data, domain, isLog, ref) && k !in extra ==>
      md[k] == BaseMetadata(data, domain, isLog, ref)[k]
    ensures "_yt_napari_layer" in md && "_data_range" in md && "_reference_layer" in md
    ensures "_yt_napari_layer" !in extra ==> md["_yt_napari_layer"] == MBool(true)
    ensures "_data_range" !in extra ==> md["_data_range"] == MRange(data.minValue, data.maxValue)
  {
    var base := BaseMetadata(data, domain, isLog, ref);
    assert "_yt_napari_layer" in base && "_data_range" in base && "_reference_layer" in base;
  }

  /** A unit registry, the table that gives "code_length" its meaning; only its
      identity matters here. */
  datatype Registry = Registry(id: nat)

  /** An optional stored vector re-expressed from one unit in another. */
  function ConvertOpt(v: Option<Vec>, from: Unit, to: Unit): (r: Option<Vec>)
    requires ValidUnit(to)
    ensures r.Some? <==> v.Some?
  {
    if v.Some? then Some(Convert(v.value, from, to)) else None
  }

  /** The extent tracked across layers, in the tracker's working unit. */
  datatype Box = Box(leftEdge: Option<Vec>, rightEdge: Option<Vec>, center: Option<Vec>, width: Option<Vec>)

  /** Merging an optional new edge, given physically, into a stored edge held in
      `unit`: the first edge is adopted, later ones are combined component-wise
      by min (`lower`) or max; edges of different lengths raise ValueError. */
  function MergeEdge(stored: Option<Vec>, edge: Option<Vec>, unit: Unit, lower: bool): Result<Option<Vec>>
    requires ValidUnit(unit)
  {
    if edge.None? then Ok(stored)
    else
      var n := InUnit(edge.value, unit);
      if stored.None? then Ok(Some(n))
      else if |stored.value| != |n| then Err(ValueError)
      else if lower then Ok(Some(CompMin(stored.value, n)))
      else Ok(Some(CompMax(stored.value, n)))
  }

  /** The center and width of the tracked box; a missing edge raises TypeError. */
  function TrackedCenterWidth(le: Option<Vec>, re: Option<Vec>): Result<(Vec, Vec)> {
    if le.None? || re.None? then Err(TypeError) else LeReToCenWid(le.value, re.value)
  }

  /** The box after `update_edges(left, right, update_c_w)`: left edge first,
      then right edge, then, when an edge was passed and `updateCW` holds, the
      center and width. An exception leaves the steps before it done. */
  function EdgesUpdated(b: Box, unit: Unit, left: Option<Vec>, right: Option<Vec>, updateCW: bool)
    : (Box, Outcome)
    requires ValidUnit(unit)
  {
    var l := MergeEdge(b.leftEdge, left, unit, true);
    if l.Err? then (b, Fail(l.error))
    else
      var b1 := b.(leftEdge := l.value);
      var r := MergeEdge(b.rightEdge, right, unit, false);
      if r.Err? then (b1, Fail(r.error))
      else
        var b2 := b1.(rightEdge := r.value);
        if (left.Some? || right.Some?) && updateCW then
          var cw := TrackedCenterWidth(b2.leftEdge, b2.rightEdge);
          if cw.Ok? then (b2.(center := Some(cw.value.0), width := Some(cw.value.1)), Pass)
          else (b2, Fail(cw.error))
        else (b2, Pass)
  }

  /** The physical edges seen so far; the stored edge is their component-wise
      minimum (`lower`) or maximum, expressed in `unit`. */
  ghost predicate Summarizes(stored: Option<Vec>, seen: seq<Vec>, unit: Unit, lower: bool) {
    (stored.None? <==> |seen| == 0)
    && (stored.Some? ==>
          SameLengths(seen, |stored.value|)
          && Physical(stored.value, unit) == (if lower then MinAll(seen) else MaxAll(seen)))
  }

  /** Merging an edge keeps the stored edge the min (or max) of all edges seen. */
  lemma MergeEdgeSummarizes(stored: Option<Vec>, seen: seq<Vec>, edge: Vec, unit: Unit, lower: bool)
    requires ValidUnit(unit) && Summarizes(stored, seen, unit, lower)
    requires MergeEdge(stored, Some(edge), unit, lower).Ok?
    ensures Summarizes(MergeEdge(stored, Some(edge), unit, lower).value, seen + [edge], unit, lower)
  {
    var n := InUnit(edge, unit);
    PhysicalInUnit(edge, unit);
    var all := seen + [edge];
    if stored.None? {
      assert all == [edge];
    } else {
      assert all[..|all| - 1] == seen;
      if lower {
        PhysicalCompMin(stored.value, n, unit);
      } else {
        PhysicalCompMax(stored.value, n, unit);
      }
    }
  }

  /** Re-expressing a stored edge in another unit keeps what it summarizes. */
  lemma ConvertSummarizes(stored: Option<Vec>, seen: seq<Vec>, from: Unit, to: Unit, lower: bool)
    requires ValidUnit(to) && Summarizes(stored, seen, from, lower)
    ensures Summarizes(ConvertOpt(stored, from, to), seen, to, lower)
  {
    if stored.Some? {
      ConvertKeepsPhysical(stored.value, from, to);
    }
  }

  /** The running bounding box of all layers: the least left edge and greatest
      right edge seen so far, kept in a working unit that can be changed. */
  class PhysicalDomainTracker {
    var unit: Unit
    var registry: Option<Registry>
    var leftEdge: Option<Vec>
    var rightEdge: Option<Vec>
    var center: Option<Vec>
    var width: Option<Vec>
    /** The physical value of every left edge and every right edge taken in. */
    ghost var leftSeen: seq<Vec>
    ghost var rightSeen: seq<Vec>

    ghost predicate Valid()
      reads this
    {
      ValidUnit(unit)
      && Summarizes(leftEdge, leftSeen, unit, true)
      && Summarizes(rightEdge, rightSeen, unit, false)
    }

    function State(): Box
      reads this
    {
      Box(leftEdge, rightEdge, center, width)
    }

    /** A tracker in the given unit and registry, with nothing tracked yet. */
    constructor(unit0: Unit, registry0: Option<Registry>)
      requires ValidUnit(unit0)
      requires !(unit0.name == "code_length" && registry0.None?)
      ensures Valid()
      ensures unit == unit0 && registry == registry0
      ensures State() == Box(None, None, None, None)
      ensures leftSeen == [] && rightSeen == []
    {
      unit := unit0;
      registry := registry0;
      leftEdge, rightEdge, center, width := None, None, None, None;
      leftSeen, rightSeen := [], [];
    }

    /** Construction, which raises ValueError for "code_length" without a registry. */
    static method Create(unit0: Unit, registry0: Option<Registry>) returns (r: Result<PhysicalDomainTracker>)
      requires ValidUnit(unit0)
      ensures r.Err? <==> unit0.name == "code_length" && registry0.None?
      ensures r.Err? ==> r.error == ValueError
      ensures r.Ok? ==> fresh(r.value) && r.value.Valid()
      ensures r.Ok? ==> r.value.unit == unit0 && r.value.registry == registry0
      ensures r.Ok? ==> r.value.State() == Box(None, None, None, None)
    {
      if unit0.name == "code_length" && registry0.None? {
        return Err(ValueError);
      }
      var t := new PhysicalDomainTracker(unit0, registry0);
      return Ok(t);
    }

    /** Changes the working unit and/or registry. "code_length" without a
        registry argument raises ValueError; otherwise every stored vector is
        re-expressed in the (possibly new) unit, keeping its physical value. */
    method UpdateUnitInfo(newUnit: Option<Unit>, newRegistry: Option<Registry>) returns (o: Outcome)
      requires Valid()
      requires newUnit.Some? ==> ValidUnit(newUnit.value)
      modifies this
      ensures Valid()
      ensures leftSeen == old(leftSeen) && rightSeen == old(rightSeen)
      ensures newUnit.Some? && newUnit.value.name == "code_length" && newRegistry.None? ==>
        o == Fail(ValueError) && unit == old(unit) && registry == old(registry) && State() == old(State())
      ensures !(newUnit.Some? && newUnit.value.name == "code_length" && newRegistry.None?) ==>
        o == Pass
        && unit == (if newUnit.Some? then newUnit.value else old(unit))
        && registry == (if newRegistry.Some? then newRegistry else old(registry))
        && State() == Box(ConvertOpt(old(leftEdge), old(unit), unit),
                          ConvertOpt(old(rightEdge), old(unit), unit),
                          ConvertOpt(old(center), old(unit), unit),
                          ConvertOpt(old(width), old(unit), unit))
    {
      if newUnit.Some? && newUnit.value.name == "code_length" && newRegistry.None? {
        return Fail(ValueError);
      }
      var oldUnit := unit;
      var changed := false;
      if newUnit.Some? && unit != newUnit.value {
        changed := true;
        unit := newUnit.value;
      }
      if newRegistry.Some? {
        changed := true;
        registry := newRegistry;
      }
      if changed {
        ConvertSummarizes(leftEdge, leftSeen, oldUnit, unit, true);
        ConvertSummarizes(rightEdge, rightSeen, oldUnit, unit, false);
        leftEdge := ConvertOpt(leftEdge, oldUnit, unit);
        rightEdge := ConvertOpt(rightEdge, oldUnit, unit);
        center := ConvertOpt(center, oldUnit, unit);
        width := ConvertOpt(width, oldUnit, unit);
      } else {
        ConvertOptSameUnit(leftEdge, unit);
        ConvertOptSameUnit(rightEdge, unit);
        ConvertOptSameUnit(center, unit);
        ConvertOptSameUnit(width, unit);
      }
      return Pass;
    }

    /** Sets center and width from the current edges; a missing edge raises
        TypeError and edges that cannot broadcast raise ValueError. */
    method UpdateWidthAndCenter() returns (o: Outcome)
      requires Valid()
      modifies this
      ensures Valid()
      ensures unit == old(unit) && registry == old(registry)
      ensures leftEdge == old(leftEdge) && rightEdge == old(rightEdge)
      ensures leftSeen == old(leftSeen) && rightSeen == old(rightSeen)
      ensures var cw := TrackedCenterWidth(leftEdge, rightEdge);
        if cw.Ok? then o == Pass && center == Some(cw.value.0) && width == Some(cw.value.1)
        else o == Fail(cw.error) && center == old(center) && width == old(width)
    {
      var cw := TrackedCenterWidth(leftEdge, rightEdge);
      if cw.Err? {
        return Fail(cw.error);
      }
      center, width := Some(cw.value.0), Some(cw.value.1);
      return Pass;
    }

    /** Takes in a left and/or right edge given physically: each is converted to
        the working unit and merged by component-wise min (left) or max (right);
        center and width are recomputed only when an edge was passed and
        `updateCW` holds. */
    method UpdateEdges(left: Option<Vec>, right: Option<Vec>, updateCW: bool) returns (o: Outcome)
      requires Valid()
      modifies this
      ensures Valid()
      ensures unit == old(unit) && registry == old(registry)
      ensures (State(), o) == EdgesUpdated(old(State()), unit, left, right, updateCW)
      ensures leftSeen == old(leftSeen)
        + (if left.Some? && MergeEdge(old(leftEdge), left, unit, true).Ok? then [left.value] else [])
      ensures rightSeen == old(rightSeen)
        + (if right.Some? && MergeEdge(old(leftEdge), left, unit, true).Ok?
              && MergeEdge(old(rightEdge), right, unit, false).Ok? then [right.value] else [])
    {
      var edgeUpdated := false;
      if left.Some? {
        edgeUpdated := true;
        o := TakeEdge(left.value, true);
        if o.Fail? {
          return;
        }
      }
      if right.Some? {
        edgeUpdated := true;
        o := TakeEdge(right.value, false);
        if o.Fail? {
          return;
        }
      }
      o := Pass;
      if edgeUpdated && updateCW {
        o := UpdateWidthAndCenter();
      }
    }

    /** One branch of `UpdateEdges`: converts `edge` to the working unit and
        adopts it, or merges it into the stored left (`lower`) or right edge. */
    method TakeEdge(edge: Vec, lower: bool) returns (o: Outcome)
      requires Valid()
      modifies this
      ensures Valid()
      ensures unit == old(unit) && registry == old(registry)
      ensures center == old(center) && width == old(width)
      ensures var m := MergeEdge(if lower then old(leftEdge) else old(rightEdge), Some(edge), unit, lower);
        (m.Err? ==> o == m.Outcome() && State() == old(State())
                    && leftSeen == old(leftSeen) && rightSeen == old(rightSeen))
        && (m.Ok? ==> o == Pass
                      && (lower ==> leftEdge == m.value && rightEdge == old(rightEdge)
                                    && leftSeen == old(leftSeen) + [edge] && rightSeen == old(rightSeen))
                      && (!lower ==> rightEdge == m.value && leftEdge == old(leftEdge)
                                     && rightSeen == old(rightSeen) + [edge] && leftSeen == old(leftSeen)))
    {
      var newEdge := InUnit(edge, unit);
      var stored := if lower then leftEdge else rightEdge;
      if stored.Some? && |stored.value| != |newEdge| {
        return Fail(ValueError);
      }
      MergeEdgeSummarizes(stored, if lower then leftSeen else rightSeen, edge, unit, lower);
      if lower {
        leftEdge := if stored.None? then Some(newEdge) else Some(CompMin(stored.value, newEdge));
        leftSeen := leftSeen + [edge];
      } else {
        rightEdge := if stored.None? then Some(newEdge) else Some(CompMax(stored.value, newEdge));
        rightSeen := rightSeen + [edge];
      }
      return Pass;
    }

    /** Takes in the edges of one layer's domain; grid width is not tracked. */
    method UpdateFromLayer(domain: LayerDomain, updateCW: bool) returns (o: Outcome)
      requires Valid()
      modifies this
      ensures Valid()
      ensures unit == old(unit) && registry == old(registry)
      ensures (State(), o)
        == EdgesUpdated(old(State()), unit, Some(domain.leftEdge), Some(domain.rightEdge), updateCW)
      ensures MergeEdge(old(leftEdge), Some(domain.leftEdge), unit, true).Ok? ==>
        leftSeen == old(leftSeen) + [domain.leftEdge]
    {
      o := UpdateEdges(Some(domain.leftEdge), Some(domain.rightEdge), updateCW);
    }
  }

  /** Converting to the unit a stored vector is already in changes nothing. */
  lemma ConvertOptSameUnit(v: Option<Vec>, u: Unit)
    requires ValidUnit(u)
    ensures ConvertOpt(v, u, u) == v
  {
    if v.Some? {
      ConvertSameUnit(v.value, u);
    }
  }

  /** The tracked left edge lies, physically, below every left edge taken in. */
  lemma {:induction false} LeftEdgeIsLowest(t: PhysicalDomainTracker, k: nat, i: nat)
    requires t.Valid() && t.leftEdge.Some?
    requires k < |t.leftSeen| && i < |t.leftEdge.value|
    ensures Physical(t.leftEdge.value, t.unit)[i] <= t.leftSeen[k][i]
  {
    MinAllIsLower(t.leftSeen, k, i);
  }

  /** Each component of the tracked left edge comes from some left edge taken in. */
  lemma {:induction false} LeftEdgeAttained(t: PhysicalDomainTracker, i: nat) returns (k: nat)
    requires t.Valid() && t.leftEdge.Some? && i < |t.leftEdge.value|
    ensures k < |t.leftSeen| && Physical(t.leftEdge.value, t.unit)[i] == t.leftSeen[k][i]
  {
    k := MinAllAttained(t.leftSeen, i);
  }

  /** The tracked right edge lies, physically, above every right edge taken in. */
  lemma {:induction false} RightEdgeIsHighest(t: PhysicalDomainTracker, k: nat, i: nat)
    requires t.Valid() && t.rightEdge.Some?
    requires k < |t.rightSeen| && i < |t.rightEdge.value|
    ensures Physical(t.rightEdge.value, t.unit)[i] >= t.rightSeen[k][i]
  {
    MaxAllIsUpper(t.rightSeen, k, i);
  }

  /** Each component of the tracked right edge comes from some right edge taken in. */
  lemma {:induction false} RightEdgeAttained(t: PhysicalDomainTracker, i: nat) returns (k: nat)
    requires t.Valid() && t.rightEdge.Some? && i < |t.rightEdge.value|
    ensures k < |t.rightSeen| && Physical(t.rightEdge.value, t.unit)[i] == t.rightSeen[k][i]
  {
    k := MaxAllAttained(t.rightSeen, i);
  }

  /** Numbers in a unit of factor 1 are the physical values themselves. */
  lemma InBaseUnit(v: Vec, u: Unit)
    requires u.factor == 1.0
    ensures InUnit(v, u) == v
  {
    assert forall i :: 0 <= i < |v| ==> InUnit(v, u)[i] == v[i];
  }

  /** The enclosing domain of the example: 0 to 10 km, center 5 km, width 10 km. */
  lemma EnclosingCenterWidth()
    ensures LeReToCenWid([0.0, 0.0, 0.0], [10000.0, 10000.0, 10000.0])
      == Ok(([5000.0, 5000.0, 5000.0], [10000.0, 10000.0, 10000.0]))
  {
    var le, re := [0.0, 0.0, 0.0], [10000.0, 10000.0, 10000.0];
    CenterWidthRecoverEdges(le, re);
    var cw := LeReToCenWid(le, re).value;
    assert cw.0 == [5000.0, 5000.0, 5000.0];
    assert cw.1 == [10000.0, 10000.0, 10000.0];
  }

  /** The component-wise min and max steps of the example. */
  lemma ExampleMinMax()
    ensures CompMin([1000.0, 1000.0, 1000.0], [0.0, 0.0, 0.0]) == [0.0, 0.0, 0.0]
    ensures CompMax([2000.0, 2000.0, 2000.0], [10000.0, 10000.0, 10000.0]) == [10000.0, 10000.0, 10000.0]
    ensures CompMin([0.0, 0.0, 0.0], [5000.0, 2000.0, 3000.0]) == [0.0, 0.0, 0.0]
    ensures CompMax([10000.0, 10000.0, 10000.0], [10000.0, 4000.0, 6000.0]) == [10000.0, 10000.0, 10000.0]
  {
    assert CompMin([1000.0, 1000.0, 1000.0], [0.0, 0.0, 0.0]) == [0.0, 0.0, 0.0];
    assert CompMax([2000.0, 2000.0, 2000.0], [10000.0, 10000.0, 10000.0]) == [10000.0, 10000.0, 10000.0];
    assert CompMin([0.0, 0.0, 0.0], [5000.0, 2000.0, 3000.0]) == [0.0, 0.0, 0.0];
    assert CompMax([10000.0, 10000.0, 10000.0], [10000.0, 4000.0, 6000.0]) == [10000.0, 10000.0, 10000.0];
  }

  /** Three domains given in metres (1 to 2 km, 0 to 10 km, and 5-10 by 2-4 by
      3-6 km) taken in by a tracker switched from kpc to metres: the box is the
      enclosing domain, 0 to 10 km on every axis, with center 5 km and width 10 km. */
  method DomainTrackingExample() returns (box: Box)
    ensures box == Box(Some([0.0, 0.0, 0.0]), Some([10000.0, 10000.0, 10000.0]),
                       Some([5000.0, 5000.0, 5000.0]), Some([10000.0, 10000.0, 10000.0]))
  {
    var kpc := Unit("kpc", 30856775814913673000.0);
    var m := Unit("m", 1.0);
    var t := new PhysicalDomainTracker(kpc, None);
    var o := t.UpdateUnitInfo(Some(m), None);
    var le1, re1 := [1000.0, 1000.0, 1000.0], [2000.0, 2000.0, 2000.0];
    var le2, re2 := [0.0, 0.0, 0.0], [10000.0, 10000.0, 10000.0];
    var le3, re3 := [5000.0, 2000.0, 3000.0], [10000.0, 4000.0, 6000.0];
    InBaseUnit(le1, m);
    InBaseUnit(re1, m);
    InBaseUnit(le2, m);
    InBaseUnit(re2, m);
    InBaseUnit(le3, m);
    InBaseUnit(re3, m);
    ExampleMinMax();
    EnclosingCenterWidth();
    o := t.UpdateEdges(Some(le1), Some(re1), true);
    assert t.leftEdge == Some(le1) && t.rightEdge == Some(re1);
    o := t.UpdateEdges(Some(le2), Some(re2), true);
    assert t.leftEdge == Some(le2) && t.rightEdge == Some(re2);
    o := t.UpdateEdges(Some(le3), Some(re3), true);
    assert t.leftEdge == Some(le2) && t.rightEdge == Some(re2);
    box := t.State();
  }
}
