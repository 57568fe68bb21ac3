/** The napari-facing side of yt-napari: finding and caching the reference
    layer, preparing the arguments of an image layer, resolving layer sets,
    the data range across layers and the checks before exporting layers to yt. */
module Viewer {
  import opened Wrappers
  import opened Vectors
  import opened ModelIngestor

  /** A layer in the napari viewer. `id` tells apart layers that otherwise look alike. */
  datatype NapariLayer = NapariLayer(id: nat, name: string, data: ImageArray, metadata: map<string, MetaValue>)

  /** The layer carries the yt-napari marker in its metadata. */
  predicate Marked(l: NapariLayer) {
    "_yt_napari_layer" in l.metadata
  }

  /** The search for a reference goes past this layer: it is not a yt-napari
      layer, or its stored reference is None. */
  predicate PassedOver(l: NapariLayer) {
    !Marked(l) || ("_reference_layer" in l.metadata && l.metadata["_reference_layer"] == MNone)
  }

  /** The result of scanning the layers in order for a stored reference: the
      first marked layer whose reference is not None gives it; a marked layer
      without a "_reference_layer" entry raises KeyError. */
  function FindReference(layers: seq<NapariLayer>): Result<Option<MetaValue>>
    decreases |layers|
  {
    if |layers| == 0 then Ok(None)
    else if !Marked(layers[0]) then FindReference(layers[1..])
    else if "_reference_layer" !in layers[0].metadata then Err(KeyError)
    else if layers[0].metadata["_reference_layer"] != MNone then Ok(Some(layers[0].metadata["_reference_layer"]))
    else FindReference(layers[1..])
  }

  /** Layer `i` is where the scan stops: every earlier layer is passed over. */
  predicate StopsAt(layers: seq<NapariLayer>, i: nat) {
    i < |layers| && !PassedOver(layers[i]) && forall j :: 0 <= j < i ==> PassedOver(layers[j])
  }

  /** The scan finds nothing exactly when every layer is passed over; otherwise
      it stops at the first layer not passed over, returning that layer's
      non-None reference or raising KeyError when the entry is missing. */
  lemma {:induction false} FindReferenceFirst(layers: seq<NapariLayer>) returns (i: nat)
    ensures FindReference(layers) == Ok(None) <==> forall j :: 0 <= j < |layers| ==> PassedOver(layers[j])
    ensures FindReference(layers).Err? ==> FindReference(layers).error == KeyError
    ensures FindReference(layers) != Ok(None) ==>
      StopsAt(layers, i)
      && (FindReference(layers) == Err(KeyError) <==> "_reference_layer" !in layers[i].metadata)
      && (FindReference(layers).Ok? ==> FindReference(layers) == Ok(Some(layers[i].metadata["_reference_layer"])))
    decreases |layers|
  {
    if |layers| == 0 {
      i := 0;
    } else if PassedOver(layers[0]) {
      var k := FindReferenceFirst(layers[1..]);
      assert forall j :: 1 <= j < |layers| ==> layers[j] == layers[1..][j - 1];
      i := k + 1;
    } else {
      i := 0;
    }
  }

  /** `_check_for_reference_layer`: walks the layer list and returns the first
      stored reference that is not None. */
  method CheckForReferenceLayer(layers: seq<NapariLayer>) returns (r: Result<Option<MetaValue>>)
    ensures r == FindReference(layers)
  {
    var i := 0;
    while i < |layers|
      invariant 0 <= i <= |layers|
      invariant FindReference(layers) == FindReference(layers[i..])
    {
      assert layers[i..][1..] == layers[i + 1..];
      var layer := layers[i];
      if "_yt_napari_layer" in layer.metadata {
        if "_reference_layer" !in layer.metadata {
          return Err(KeyError);
        }
        if layer.metadata["_reference_layer"] != MNone {
          return Ok(Some(layer.metadata["_reference_layer"]));
        }
      }
      i := i + 1;
    }
    return Ok(None);
  }

  /** The reference `_get_reference_layer` settles on, given the cached one: an
      empty layer list drops the cache; a cached reference is kept; otherwise
      one stored on a layer is taken; failing that, a new reference is built
      from the default domain, and a missing default raises AttributeError. */
  function ChosenReference(cached: Option<MetaValue>, layers: seq<NapariLayer>, defaultIfMissing: Option<LayerDomain>)
    : Result<MetaValue>
  {
    var kept := if |layers| == 0 then None else cached;
    if kept.Some? then Ok(kept.value)
    else match FindReference(layers)
      case Err(e) => Err(e)
      case Ok(Some(found)) => Ok(found)
      case Ok(None) =>
        if defaultIfMissing.Some? then Ok(MRef(NewReferenceLayer(defaultIfMissing.value)))
        else Err(AttributeError)
  }

  /** The chosen reference is never None, and any failure comes from the scan
      or from the missing default. */
  lemma ChosenReferenceNotNone(cached: Option<MetaValue>, layers: seq<NapariLayer>, defaultIfMissing: Option<LayerDomain>)
    requires cached != Some(MNone)
    ensures var r := ChosenReference(cached, layers, defaultIfMissing);
      (r.Ok? ==> r.value != MNone)
      && (r.Err? ==> r.error == KeyError || (r.error == AttributeError && defaultIfMissing.None?))
  {
    var _ := FindReferenceFirst(layers);
  }

  /** The arguments `_add_to_scene` hands to `viewer.add_image`. */
  datatype AddImageCall = AddImageCall(
    data: ImageArray,
    name: KwValue,
    translate: Option<KwValue>,
    scale: Option<KwValue>,
    metadata: map<string, MetaValue>,
    colormap: string,
    kwargs: map<string, KwValue>)

  /** Every reference that a scene could settle on has non-zero pixel sizes. */
  predicate FiniteReferences(cached: Option<MetaValue>, layers: seq<NapariLayer>, domain: LayerDomain) {
    NonZero(domain.gridWidth)
    && (cached.Some? && cached.value.MRef? ==> NonZero(cached.value.ref.gridWidth))
    && forall i :: 0 <= i < |layers| ==>
         ("_reference_layer" in layers[i].metadata && layers[i].metadata["_reference_layer"].MRef? ==>
            NonZero(layers[i].metadata["_reference_layer"].ref.gridWidth))
  }

  /** A reference settled on under `FiniteReferences` has non-zero pixel sizes. */
  lemma ChosenReferenceFinite(cached: Option<MetaValue>, layers: seq<NapariLayer>, domain: LayerDomain)
    requires FiniteReferences(cached, layers, domain)
    ensures var r := ChosenReference(cached, layers, Some(domain));
      r.Ok? && r.value.MRef? ==> NonZero(r.value.ref.gridWidth)
  {
    var i := FindReferenceFirst(layers);
  }

  /** A layer reference as the caller gives it: a layer name or a layer. */
  datatype LayerRef = ByName(name: string) | ByLayer(layer: NapariLayer)

  /** The index of the first layer called `name` (napari's name lookup). */
  function NameIndex(layers: seq<NapariLayer>, name: string): (r: Option<nat>)
    ensures r.Some? ==> r.value < |layers| && layers[r.value].name == name
    ensures r.Some? ==> forall j :: 0 <= j < r.value ==> layers[j].name != name
    ensures r.None? ==> forall j :: 0 <= j < |layers| ==> layers[j].name != name
    decreases |layers|
  {
    if |layers| == 0 then None
    else if layers[0].name == name then Some(0)
    else match NameIndex(layers[1..], name)
      case Some(i) => Some(i + 1)
      case None => None
  }

  /** The layer a reference stands for; a name needs a layer list holding it. */
  function Resolve(ref: LayerRef, layerList: Option<seq<NapariLayer>>): Option<NapariLayer> {
    match ref
    case ByLayer(l) => Some(l)
    case ByName(n) =>
      if layerList.None? then None
      else match NameIndex(layerList.value, n)
        case Some(i) => Some(layerList.value[i])
        case None => None
  }

  predicate AnyName(layers: seq<LayerRef>) {
    exists i :: 0 <= i < |layers| && layers[i].ByName?
  }

  predicate AllResolve(layers: seq<LayerRef>, layerList: Option<seq<NapariLayer>>) {
    forall i :: 0 <= i < |layers| ==> Resolve(layers[i], layerList).Some?
  }

  /** The layers linked to any layer of `s`; napari's link registry is `links`. */
  function LinkedTo(s: set<NapariLayer>, links: map<NapariLayer, set<NapariLayer>>): set<NapariLayer> {
    set m, l | m in s && m in links && l in links[m] :: l
  }

  /** The layers of `layers[..n]`, each resolved. */
  function ResolvedPrefix(layers: seq<LayerRef>, layerList: Option<seq<NapariLayer>>, n: nat): set<NapariLayer>
    requires n <= |layers|
  {
    set i | 0 <= i < n && Resolve(layers[i], layerList).Some? :: Resolve(layers[i], layerList).value
  }

  /** `l` is linked, in napari's registry `links`, to the resolved layer `m`. */
  predicate LinkedFrom(m: Option<NapariLayer>, links: map<NapariLayer, set<NapariLayer>>, l: NapariLayer) {
    m.Some? && m.value in links && l in links[m.value]
  }

  /** `_sanitize_layers`: names need a layer list (ValueError otherwise) and a
      name the list does not hold raises ValueError; the result is the set of
      the resolved layers, plus the layers linked to them when `checkLinked`. */
  function Sanitized(layers: seq<LayerRef>, layerList: Option<seq<NapariLayer>>, checkLinked: bool,
                     links: map<NapariLayer, set<NapariLayer>>): (r: Result<set<NapariLayer>>)
    ensures AnyName(layers) && layerList.None? ==> r == Err(ValueError)
    ensures r.Err? <==> exists i :: 0 <= i < |layers| && Resolve(layers[i], layerList).None?
    ensures r.Err? ==> r.error == ValueError
    ensures r.Ok? ==> forall i :: 0 <= i < |layers| ==> Resolve(layers[i], layerList).Some?
    ensures r.Ok? ==> forall i :: 0 <= i < |layers| && Resolve(layers[i], layerList).Some? ==>
      Resolve(layers[i], layerList).value in r.value
    ensures r.Ok? && checkLinked ==>
      forall i, l :: 0 <= i < |layers| && LinkedFrom(Resolve(layers[i], layerList), links, l) ==> l in r.value
    ensures r.Ok? ==> forall l :: l in r.value ==>
      (exists i :: 0 <= i < |layers| && Resolve(layers[i], layerList) == Some(l))
      || (checkLinked && exists i :: 0 <= i < |layers| && LinkedFrom(Resolve(layers[i], layerList), links, l))
  {
    if !AllResolve(layers, layerList) then Err(ValueError)
    else
      var clean := ResolvedPrefix(layers, layerList, |layers|);
      Ok(if checkLinked then clean + LinkedTo(clean, links) else clean)
  }

  /** The bounds get_data_range reads from one layer: the stored "_data_range"
      of a yt-napari layer (KeyError when missing, TypeError when not a pair),
      the data's own least and greatest values otherwise. */
  function Bounds(l: NapariLayer): Result<(real, real)> {
    if !Marked(l) then Ok((l.data.minValue, l.data.maxValue))
    else if "_data_range" !in l.metadata then Err(KeyError)
    else match l.metadata["_data_range"]
      case MRange(lo, hi) => Ok((lo, hi))
      case _ => Err(TypeError)
  }

  /** `(lo, hi)` is the least lower and the greatest upper bound over `s`;
      None stands for the infinite seed returned when `s` is empty. */
  predicate IsRange(s: set<NapariLayer>, lo: Option<real>, hi: Option<real>)
    requires forall l :: l in s ==> Bounds(l).Ok?
  {
    (lo.None? <==> s == {}) && (hi.None? <==> s == {})
    && (lo.Some? ==> (forall l :: l in s ==> lo.value <= Bounds(l).value.0)
                     && exists l :: l in s && Bounds(l).value.0 == lo.value)
    && (hi.Some? ==> (forall l :: l in s ==> Bounds(l).value.1 <= hi.value)
                     && exists l :: l in s && Bounds(l).value.1 == hi.value)
  }

  function MinSeeded(acc: Option<real>, x: real): real {
    if acc.None? || x < acc.value then x else acc.value
  }

  function MaxSeeded(acc: Option<real>, x: real): real {
    if acc.None? || x > acc.value then x else acc.value
  }

  /** Folding one more layer's bounds into the range of `done` gives the range
      of `done` with that layer. */
  lemma RangeExtend(done: set<NapariLayer>, layer: NapariLayer, lo: Option<real>, hi: Option<real>,
                    b: (real, real))
    requires forall l :: l in done ==> Bounds(l).Ok?
    requires IsRange(done, lo, hi) && Bounds(layer) == Ok(b)
    ensures forall l :: l in done + {layer} ==> Bounds(l).Ok?
    ensures IsRange(done + {layer}, Some(MinSeeded(lo, b.0)), Some(MaxSeeded(hi, b.1)))
  {
    var s := done + {layer};
    if lo.Some? && b.0 >= lo.value {
      var w :| w in done && Bounds(w).value.0 == lo.value;
      assert w in s;
    }
    if hi.Some? && b.1 <= hi.value {
      var w :| w in done && Bounds(w).value.1 == hi.value;
      assert w in s;
    }
  }

  /** The scene: the reference layer it has settled on, if any. */
  class Scene {
    var referenceLayer: Option<MetaValue>

    /** A cached reference is never None itself. */
    predicate Valid()
      reads this
    {
      referenceLayer != Some(MNone)
    }

    constructor(ref0: Option<ReferenceLayer>)
      ensures Valid()
      ensures referenceLayer == if ref0.Some? then Some(MRef(ref0.value)) else None
    {
      referenceLayer := if ref0.Some? then Some(MRef(ref0.value)) else None;
    }

    /** `_get_reference_layer`: returns the cached reference, settling on one
        first when none is cached or the layer list is empty. */
    method GetReferenceLayer(layerList: seq<NapariLayer>, defaultIfMissing: Option<LayerDomain>)
      returns (r: Result<MetaValue>)
      requires Valid()
      modifies this
      ensures Valid()
      ensures r == ChosenReference(old(referenceLayer), layerList, defaultIfMissing)
      ensures r.Ok? ==> referenceLayer == Some(r.value)
      ensures r.Err? ==> referenceLayer == None
      ensures |layerList| > 0 && old(referenceLayer).Some? ==> r == Ok(old(referenceLayer).value)
      ensures |layerList| == 0 && defaultIfMissing.Some? ==>
        r == Ok(MRef(NewReferenceLayer(defaultIfMissing.value)))
      ensures (|layerList| > 0 && old(referenceLayer).None? && FindReference(layerList) == Ok(None)
               && defaultIfMissing.Some?) ==> r == Ok(MRef(NewReferenceLayer(defaultIfMissing.value)))
    {
      if |layerList| == 0 {
        referenceLayer := None;
      }
      if referenceLayer.None? {
        var found := CheckForReferenceLayer(layerList);
        if found.Err? {
          return Err(found.error);
        }
        var ref: MetaValue;
        if found.value.None? {
          if defaultIfMissing.None? {
            return Err(AttributeError);
          }
          ref := MRef(NewReferenceLayer(defaultIfMissing.value));
        } else {
          ref := found.value.value;
          ChosenReferenceNotNone(None, layerList, defaultIfMissing);
        }
        referenceLayer := Some(ref);
      }
      return Ok(referenceLayer.value);
    }

    /** The part of `_add_to_scene` after the reference is known: aligns a fresh
        kwargs dict with it, takes scale and translation from that dict, names
        the layer and builds its metadata. */
    static method AlignedImageCall(ref: ReferenceLayer, data: ImageArray, domain: LayerDomain,
                                   field: (string, string), takeLog: bool, cmap: string,
                                   kwargs: map<string, KwValue>)
      returns (r: Result<AddImageCall>)
      requires NonZero(ref.gridWidth)
      ensures var a := Aligned(ref, domain, map[]);
        if a.outcome.Fail? then r == Err(a.outcome.error)
        else if "metadata" in kwargs then r == Err(TypeError)
        else r.Ok? && r.value == AddImageCall(
          data,
          if "name" in kwargs then kwargs["name"] else KText(field.0 + "_" + field.1),
          if "translate" in a.entries then Some(a.entries["translate"]) else None,
          if "scale" in a.entries then Some(a.entries["scale"]) else None,
          BaseMetadata(data, domain, takeLog, Some(ref)),
          cmap,
          kwargs - {"translate", "scale", "name"})
    {
      var imKwargs := new Kwargs(map[]);
      var aligned := AlignSanitizeLayer(ref, SpatialLayer(data, imKwargs, "image", domain));
      ghost var a := Aligned(ref, domain, map[]);
      assert imKwargs.entries == a.entries;
      if aligned.Err? {
        return Err(aligned.error);
      }
      assert a.outcome.Pass?;
      var tr := if "translate" in imKwargs.entries then Some(imKwargs.entries["translate"]) else None;
      var sc := if "scale" in imKwargs.entries then Some(imKwargs.entries["scale"]) else None;
      var name := if "name" in kwargs then kwargs["name"] else KText(field.0 + "_" + field.1);
      var rest := kwargs - {"translate", "scale", "name"};
      var md := CreateMetadataDict(data, domain, takeLog, Some(ref), map[]);
      MetadataWithoutExtra(data, domain, takeLog, Some(ref), md);
      if "metadata" in rest {
        return Err(TypeError);
      }
      return Ok(AddImageCall(data, name, tr, sc, md, cmap, rest));
    }

    /** The keyword handling of `_add_to_scene`: settles on a reference with
        this layer's domain as the default, aligns a fresh kwargs dict with it,
        takes scale and translation from that dict only (caller-supplied ones
        are dropped), names the layer after the field unless a name is given,
        defaults the colormap to "viridis" and builds the metadata. A
        caller-supplied "metadata" clashes with the computed one (TypeError). */
    method AddToScene(layers: seq<NapariLayer>, data: ImageArray, domain: LayerDomain, field: (string, string),
                      takeLog: bool, colormap: Option<string>, kwargs: map<string, KwValue>)
      returns (r: Result<AddImageCall>)
      requires Valid()
      requires FiniteReferences(referenceLayer, layers, domain)
      modifies this
      ensures Valid()
      ensures var chosen := ChosenReference(old(referenceLayer), layers, Some(domain));
        referenceLayer == (if chosen.Ok? then Some(chosen.value) else None)
      ensures var chosen := ChosenReference(old(referenceLayer), layers, Some(domain));
        chosen.Err? ==> r == Err(chosen.error)
      ensures var chosen := ChosenReference(old(referenceLayer), layers, Some(domain));
        chosen.Ok? && !chosen.value.MRef? ==> r == Err(AttributeError)
      ensures var chosen := ChosenReference(old(referenceLayer), layers, Some(domain));
        chosen.Ok? && chosen.value.MRef? && NonZero(chosen.value.ref.gridWidth) ==>
        var a := Aligned(chosen.value.ref, domain, map[]);
        if a.outcome.Fail? then r == Err(a.outcome.error)
        else if "metadata" in kwargs then r == Err(TypeError)
        else r.Ok? && r.value == AddImageCall(
          data,
          if "name" in kwargs then kwargs["name"] else KText(field.0 + "_" + field.1),
          if "translate" in a.entries then Some(a.entries["translate"]) else None,
          if "scale" in a.entries then Some(a.entries["scale"]) else None,
          BaseMetadata(data, domain, takeLog, Some(chosen.value.ref)),
          colormap.GetOr("viridis"),
          kwargs - {"translate", "scale", "name"})
    {
      var cmap := colormap.GetOr("viridis");
      ChosenReferenceFinite(referenceLayer, layers, domain);
      var chosen := GetReferenceLayer(layers, Some(domain));
      if chosen.Err? {
        return Err(chosen.error);
      }
      var ref := chosen.value;
      if !ref.MRef? {
        return Err(AttributeError);
      }
      r := AlignedImageCall(ref.ref, data, domain, field, takeLog, cmap, kwargs);
    }

    /** `_sanitize_layers`, building the set of layers one reference at a time. */
    method SanitizeLayers(layers: seq<LayerRef>, layerList: Option<seq<NapariLayer>>, checkLinked: bool,
                          links: map<NapariLayer, set<NapariLayer>>)
      returns (r: Result<set<NapariLayer>>)
      ensures r == Sanitized(layers, layerList, checkLinked, links)
    {
      var clean: set<NapariLayer> := {};
      var i := 0;
      while i < |layers|
        invariant 0 <= i <= |layers|
        invariant forall j :: 0 <= j < i ==> Resolve(layers[j], layerList).Some?
        invariant clean == ResolvedPrefix(layers, layerList, i)
      {
        var l := Resolve(layers[i], layerList);
        if l.None? {
          return Err(ValueError);
        }
        clean := clean + {l.value};
        i := i + 1;
      }
      if checkLinked {
        clean := clean + LinkedTo(clean, links);
      }
      return Ok(clean);
    }

    /** `get_data_range`: the least lower bound and the greatest upper bound
        over the sanitised layers, or the first error met on the way. */
    method GetDataRange(layers: seq<LayerRef>, layerList: Option<seq<NapariLayer>>, checkLinked: bool,
                        links: map<NapariLayer, set<NapariLayer>>)
      returns (r: Result<(Option<real>, Option<real>)>)
      ensures var s := Sanitized(layers, layerList, checkLinked, links);
        s.Err? ==> r == Err(s.error)
      ensures var s := Sanitized(layers, layerList, checkLinked, links);
        r.Ok? ==> s.Ok? && (forall l :: l in s.value ==> Bounds(l).Ok?) && IsRange(s.value, r.value.0, r.value.1)
      ensures var s := Sanitized(layers, layerList, checkLinked, links);
        s.Ok? && (forall l :: l in s.value ==> Bounds(l).Ok?) ==> r.Ok?
      ensures var s := Sanitized(layers, layerList, checkLinked, links);
        r.Err? && s.Ok? ==> exists l :: l in s.value && Bounds(l) == Err(r.error)
    {
      var clean :- SanitizeLayers(layers, layerList, checkLinked, links);
      r := RangeOf(clean);
    }

    /** The loop of get_data_range over the sanitized layers: the running
        min and max of each layer's bounds, stopping at the first layer whose
        bounds cannot be read. */
    static method RangeOf(clean: set<NapariLayer>) returns (r: Result<(Option<real>, Option<real>)>)
      ensures r.Ok? ==> (forall l :: l in clean ==> Bounds(l).Ok?) && IsRange(clean, r.value.0, r.value.1)
      ensures (forall l :: l in clean ==> Bounds(l).Ok?) ==> r.Ok?
      ensures r.Err? ==> exists l :: l in clean && Bounds(l) == Err(r.error)
    {
      var lo: Option<real> := None;
      var hi: Option<real> := None;
      var remaining := clean;
      while remaining != {}
        invariant remaining <= clean
        invariant forall l :: l in clean - remaining ==> Bounds(l).Ok?
        invariant IsRange(clean - remaining, lo, hi)
        decreases remaining
      {
        var layer :| layer in remaining;
        var b := Bounds(layer);
        if b.Err? {
          return Err(b.error);
        }
        ghost var done := clean - remaining;
        RangeExtend(done, layer, lo, hi, b.value);
        lo := Some(MinSeeded(lo, b.value.0));
        hi := Some(MaxSeeded(hi, b.value.1));
        remaining := remaining - {layer};
        assert clean - remaining == done + {layer};
      }
      assert clean - remaining == clean;
      return Ok((lo, hi));
    }
  }

  /** A layer given to `layers_to_yt`: a position in the layer list or a name. */
  datatype LayerKey = Index(index: int) | Named(key: string)

  /** The key is a valid position or the name of some layer. */
  predicate Found(available: seq<NapariLayer>, k: LayerKey) {
    match k
    case Index(i) => 0 <= i < |available|
    case Named(n) => NameIndex(available, n).Some?
  }

  predicate AllFound(available: seq<NapariLayer>, keys: seq<LayerKey>) {
    forall j :: 0 <= j < |keys| ==> Found(available, keys[j])
  }

  function LayerAt(available: seq<NapariLayer>, k: LayerKey): NapariLayer
    requires Found(available, k)
  {
    match k
    case Index(i) => available[i]
    case Named(n) => available[NameIndex(available, n).value]
  }

  /** The layers to export: the given keys, or every layer by name. */
  function KeysOrAll(available: seq<NapariLayer>, layers: Option<seq<LayerKey>>): seq<LayerKey> {
    if layers.Some? then layers.value
    else seq(|available|, i requires 0 <= i < |available| => Named(available[i].name))
  }

  /** Every exported layer has the shape of the first. */
  predicate SameShapes(available: seq<NapariLayer>, keys: seq<LayerKey>)
    requires AllFound(available, keys) && |keys| > 0
  {
    forall j :: 0 <= j < |keys| ==> LayerAt(available, keys[j]).data.shape == LayerAt(available, keys[0]).data.shape
  }

  /** The data dict handed to yt: layer name to array, a later layer of the
      same name replacing an earlier one. */
  function DataDict(available: seq<NapariLayer>, keys: seq<LayerKey>): map<string, ImageArray>
    requires AllFound(available, keys)
    decreases |keys|
  {
    if |keys| == 0 then map[]
    else
      var l := LayerAt(available, keys[|keys| - 1]);
      DataDict(available, keys[..|keys| - 1])[l.name := l.data]
  }

  /** The data dict holds exactly the names of the exported layers. */
  lemma {:induction false} DataDictKeys(available: seq<NapariLayer>, keys: seq<LayerKey>)
    requires AllFound(available, keys)
    ensures DataDict(available, keys).Keys == set j | 0 <= j < |keys| :: LayerAt(available, keys[j]).name
    decreases |keys|
  {
    if |keys| > 0 {
      var init := keys[..|keys| - 1];
      DataDictKeys(available, init);
      assert forall j :: 0 <= j < |init| ==> init[j] == keys[j];
    }
  }

  /** A name maps to the array of the last exported layer with that name. */
  lemma {:induction false} DataDictLastWins(available: seq<NapariLayer>, keys: seq<LayerKey>, j: nat)
    requires AllFound(available, keys) && j < |keys|
    requires forall k :: j < k < |keys| ==> LayerAt(available, keys[k]).name != LayerAt(available, keys[j]).name
    ensures LayerAt(available, keys[j]).name in DataDict(available, keys)
    ensures DataDict(available, keys)[LayerAt(available, keys[j]).name] == LayerAt(available, keys[j]).data
    decreases |keys|
  {
    if j < |keys| - 1 {
      var init := keys[..|keys| - 1];
      assert forall k :: 0 <= k < |init| ==> init[k] == keys[k];
      DataDictLastWins(available, init, j);
    }
  }

  /** The default bounding box, the unit cube. */
  const UnitCube: seq<seq<real>> := [[0.0, 1.0], [0.0, 1.0], [0.0, 1.0]]

  /** The arguments `layers_to_yt` hands to `yt.load_uniform_grid`. */
  datatype UniformGridCall = UniformGridCall(
    data: map<string, ImageArray>,
    shape: seq<nat>,
    bbox: seq<seq<real>>,
    lengthUnit: KwValue,
    kwargs: map<string, KwValue>)

  /** `layers_to_yt`: every key must name a layer or a valid position
      (RuntimeError), there must be a first layer (IndexError) and every layer
      must have its shape (RuntimeError); the bounding box defaults to the
      unit cube and the length unit to 1.0. */
  method LayersToYt(available: seq<NapariLayer>, layers: Option<seq<LayerKey>>, bbox: Option<seq<seq<real>>>,
                    kwargs: map<string, KwValue>)
    returns (r: Result<UniformGridCall>)
    ensures var keys := KeysOrAll(available, layers);
      r.Ok? <==> AllFound(available, keys) && |keys| > 0 && SameShapes(available, keys)
    ensures var keys := KeysOrAll(available, layers);
      !AllFound(available, keys) ==> r == Err(RuntimeError)
    ensures var keys := KeysOrAll(available, layers);
      AllFound(available, keys) && |keys| == 0 ==> r == Err(IndexError)
    ensures var keys := KeysOrAll(available, layers);
      AllFound(available, keys) && |keys| > 0 && !SameShapes(available, keys) ==> r == Err(RuntimeError)
    ensures var keys := KeysOrAll(available, layers);
      r.Ok? ==> (AllFound(available, keys) && |keys| > 0
                 && r.value.data == DataDict(available, keys)
                 && r.value.shape == LayerAt(available, keys[0]).data.shape
                 && r.value.bbox == bbox.GetOr(UnitCube)
                 && r.value.lengthUnit == (if "length_unit" in kwargs then kwargs["length_unit"] else KNumber(1.0))
                 && r.value.kwargs == kwargs - {"length_unit"})
  {
    var keys := KeysOrAll(available, layers);
    var found := CheckFound(available, keys);
    if !found {
      return Err(RuntimeError);
    }
    if |keys| == 0 {
      return Err(IndexError);
    }
    var same := CheckShapes(available, keys);
    if !same {
      return Err(RuntimeError);
    }
    var data := BuildDataDict(available, keys);
    var lu := if "length_unit" in kwargs then kwargs["length_unit"] else KNumber(1.0);
    return Ok(UniformGridCall(data, LayerAt(available, keys[0]).data.shape, bbox.GetOr(UnitCube), lu,
                              kwargs - {"length_unit"}));
  }

  /** The loop of `layers_to_yt` that looks every key up. */
  method CheckFound(available: seq<NapariLayer>, keys: seq<LayerKey>) returns (ok: bool)
    ensures ok <==> AllFound(available, keys)
  {
    var i := 0;
    while i < |keys|
      invariant 0 <= i <= |keys|
      invariant forall j :: 0 <= j < i ==> Found(available, keys[j])
    {
      if !Found(available, keys[i]) {
        return false;
      }
      i := i + 1;
    }
    return true;
  }

  /** The loop of `layers_to_yt` that compares every shape with the first. */
  method CheckShapes(available: seq<NapariLayer>, keys: seq<LayerKey>) returns (ok: bool)
    requires AllFound(available, keys) && |keys| > 0
    ensures ok <==> SameShapes(available, keys)
  {
    var shape := LayerAt(available, keys[0]).data.shape;
    var i := 0;
    while i < |keys|
      invariant 0 <= i <= |keys|
      invariant forall j :: 0 <= j < i ==> LayerAt(available, keys[j]).data.shape == shape
    {
      if LayerAt(available, keys[i]).data.shape != shape {
        return false;
      }
      i := i + 1;
    }
    return true;
  }

  /** The loop of `layers_to_yt` that fills the data dict by layer name. */
  method BuildDataDict(available: seq<NapariLayer>, keys: seq<LayerKey>) returns (data: map<string, ImageArray>)
    requires AllFound(available, keys)
    ensures data == DataDict(available, keys)
  {
    data := map[];
    var i := 0;
    while i < |keys|
      invariant 0 <= i <= |keys|
      invariant data == DataDict(available, keys[..i])
    {
      var l := LayerAt(available, keys[i]);
      assert keys[..i + 1][..i] == keys[..i];
      data := data[l.name := l.data];
      i := i + 1;
    }
    assert keys[..|keys|] == keys;
  }
}
