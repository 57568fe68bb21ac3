/** The phase-plot widget's pure helpers and index bookkeeping: colormap names,
    the layer choices offered in its drop-downs and how a chosen index is
    clamped, and how the picked layers become phase-plot fields. The plotting
    itself, the drop-down widgets and the viewer are not part of this model. */
module PhasePlotWidget {
  import opened Wrappers
  import opened Strings

  /** The names that stand for coordinate fields rather than layers. */
  const IndexFields: seq<string> := ["x", "y", "z", "ones"]

  /** `_is_index_field`. */
  predicate IsIndexField(layerName: string) {
    layerName in IndexFields
  }

  /** Exactly "x", "y", "z" and "ones" are index fields. */
  lemma IndexFieldsExactly(name: string)
    ensures IsIndexField(name) <==> name == "x" || name == "y" || name == "z" || name == "ones"
  {
  }

  /** `available_layer_list`: the viewer's layer names, then the index fields. */
  function AvailableLayerList(layerNames: seq<string>): (r: seq<string>)
    ensures |r| == |layerNames| + 4
    ensures r[..|layerNames|] == layerNames && r[|layerNames|..] == IndexFields
  {
    layerNames + IndexFields
  }

  /** Python's `items[index]`, negative indices counting from the end. */
  function PyGet(items: seq<string>, index: int): (r: Result<string>)
    ensures r.Ok? <==> -|items| <= index < |items|
    ensures r.Err? ==> r.error == IndexError
    ensures 0 <= index < |items| ==> r == Ok(items[index])
    ensures -|items| <= index < 0 ==> r == Ok(items[|items| + index])
  {
    if 0 <= index < |items| then Ok(items[index])
    else if -|items| <= index < 0 then Ok(items[|items| + index])
    else Err(IndexError)
  }

  /** The choices of a layer drop-down: the available layers, after "None"
      when a missing choice is allowed. */
  function DropdownChoices(layerNames: seq<string>, allowNone: bool): seq<string> {
    (if allowNone then ["None"] else []) + AvailableLayerList(layerNames)
  }

  /** `add_layer_dropdown`'s choice of the initial value: an explicit value is
      kept; without one, the first choice, or the choice at `valueIndex` with
      an index past the end clamped to the last choice. */
  method AddLayerDropdown(layerNames: seq<string>, value: Option<string>, valueIndex: Option<int>, allowNone: bool)
    returns (choices: seq<string>, chosen: Result<string>)
    ensures choices == DropdownChoices(layerNames, allowNone)
    ensures value.Some? ==> chosen == Ok(value.value)
    ensures value.None? && valueIndex.None? ==> chosen == Ok(choices[0])
    ensures value.None? && valueIndex.Some? && valueIndex.value >= |choices| ==> chosen == Ok(choices[|choices| - 1])
    ensures value.None? && valueIndex.Some? && valueIndex.value < |choices| ==> chosen == PyGet(choices, valueIndex.value)
    ensures value.None? && (valueIndex.None? || valueIndex.value >= 0) ==> chosen.Ok? && chosen.value in choices
  {
    choices := AvailableLayerList(layerNames);
    if allowNone {
      choices := ["None"] + choices;
    }
    if value.None? && valueIndex.None? {
      chosen := Ok(choices[0]);
    } else if value.None? && valueIndex.Some? {
      var index := valueIndex.value;
      if index > |choices| - 1 {
        index := |choices| - 1;
      }
      chosen := PyGet(choices, index);
    } else {
      chosen := Ok(value.value);
    }
  }

  /** A drop-down's items and selected index (-1 when nothing is selected). */
  class Combobox {
    var items: seq<string>
    var currentIndex: int

    constructor(items0: seq<string>)
      ensures items == items0 && currentIndex == (if |items0| > 0 then 0 else -1)
    {
      items := items0;
      currentIndex := if |items0| > 0 then 0 else -1;
    }

    /** `reset_layer_combobox`: new items, and the requested index clamped
        to the last item; an index Qt cannot select leaves nothing selected. */
    method ResetLayerCombobox(newLayers: seq<string>, index: int)
      modifies this
      ensures items == newLayers
      ensures currentIndex == if 0 <= index < |newLayers| then index
                              else if index >= |newLayers| && |newLayers| > 0 then |newLayers| - 1
                              else -1
      ensures |newLayers| > 0 && index >= 0 ==> 0 <= currentIndex < |items|
      ensures currentIndex < |items|
    {
      items := newLayers;
      var current := index;
      if current > |newLayers| - 1 {
        current := |newLayers| - 1;
      }
      currentIndex := if 0 <= current < |items| then current else -1;
    }
  }

  /** How one picked layer enters the phase plot. */
  datatype FieldArg = Index(name: string) | Stream(name: string)

  /** The phase-plot field of one pick: an index field, a layer streamed to yt,
      or none. */
  function FieldOf(layer: Option<string>): Option<FieldArg> {
    match layer
    case Some(n) => if IsIndexField(n) then Some(Index(n)) else Some(Stream(n))
    case None => None
  }

  /** The layer names among the picks that go to yt, in order. */
  function Streams(layers: seq<Option<string>>): (r: seq<string>)
    ensures |r| <= |layers|
    ensures forall n :: n in r ==> Some(n) in layers && !IsIndexField(n)
    ensures forall j :: 0 <= j < |layers| && layers[j].Some? && !IsIndexField(layers[j].value) ==> layers[j].value in r
  {
    if |layers| == 0 then []
    else
      var rest := Streams(layers[..|layers| - 1]);
      var last := layers[|layers| - 1];
      if last.Some? && !IsIndexField(last.value) then rest + [last.value] else rest
  }

  /** The streams of two runs of picks are those of the first, then those of
      the second: the order of the picks is kept. */
  lemma {:induction false} StreamsAppend(a: seq<Option<string>>, b: seq<Option<string>>)
    ensures Streams(a + b) == Streams(a) + Streams(b)
    decreases |b|
  {
    if |b| == 0 {
      assert a + b == a;
    } else {
      var b' := b[..|b| - 1];
      assert (a + b)[..|a + b| - 1] == a + b';
      StreamsAppend(a, b');
    }
  }

  /** What `render_phaseplot` hands on: the four field arguments and the
      layers passed to `layers_to_yt`. */
  datatype PhasePlotArgs = PhasePlotArgs(fieldArgs: seq<Option<FieldArg>>, layersForYt: seq<string>)

  /** The four picks of `render_phaseplot`: each index is looked up in
      `currentLayers`, the weight's too, although the weight drop-down lists
      "None" before the layers; a weight named "None" means no weight. An
      index outside the list raises IndexError. */
  function Picks(currentLayers: seq<string>, i1: int, i2: int, i3: int, iw: int): (r: Result<seq<Option<string>>>)
    ensures r.Ok? ==> |r.value| == 4 && r.value[0].Some? && r.value[1].Some? && r.value[2].Some?
    ensures r.Ok? <==> -|currentLayers| <= i1 < |currentLayers| && -|currentLayers| <= i2 < |currentLayers|
                       && -|currentLayers| <= i3 < |currentLayers| && -|currentLayers| <= iw < |currentLayers|
    ensures r.Ok? ==> r.value[0] == Some(PyGet(currentLayers, i1).value)
                      && r.value[1] == Some(PyGet(currentLayers, i2).value)
                      && r.value[2] == Some(PyGet(currentLayers, i3).value)
    ensures r.Ok? ==> (r.value[3].None? <==> PyGet(currentLayers, iw) == Ok("None"))
    ensures r.Ok? && r.value[3].Some? ==> r.value[3] == Some(PyGet(currentLayers, iw).value)
  {
    var l1 :- PyGet(currentLayers, i1);
    var l2 :- PyGet(currentLayers, i2);
    var l3 :- PyGet(currentLayers, i3);
    var w :- PyGet(currentLayers, iw);
    Ok([Some(l1), Some(l2), Some(l3), if w == "None" then None else Some(w)])
  }

  /** `render_phaseplot` up to the yt calls: classifies each pick and collects
      the layers to send to yt. */
  method RenderPhaseplot(currentLayers: seq<string>, i1: int, i2: int, i3: int, iw: int)
    returns (r: Result<PhasePlotArgs>)
    ensures Picks(currentLayers, i1, i2, i3, iw).Err? ==> r == Err(IndexError)
    ensures Picks(currentLayers, i1, i2, i3, iw).Ok? ==>
      var layers := Picks(currentLayers, i1, i2, i3, iw).value;
      r.Ok? && |r.value.fieldArgs| == 4
      && (forall k :: 0 <= k < 4 ==> r.value.fieldArgs[k] == FieldOf(layers[k]))
      && r.value.layersForYt == Streams(layers)
  {
    var picks := Picks(currentLayers, i1, i2, i3, iw);
    if picks.Err? {
      return Err(IndexError);
    }
    var ppArgs, layersForYt := ClassifyPicks(picks.value);
    r := Ok(PhasePlotArgs(ppArgs, layersForYt));
  }

  /** The loop of `render_phaseplot`: each pick becomes an index field, a
      layer field (whose layer is then sent to yt) or nothing. */
  method ClassifyPicks(layers: seq<Option<string>>) returns (ppArgs: seq<Option<FieldArg>>, layersForYt: seq<string>)
    ensures |ppArgs| == |layers| && forall j :: 0 <= j < |layers| ==> ppArgs[j] == FieldOf(layers[j])
    ensures layersForYt == Streams(layers)
  {
    layersForYt := [];
    ppArgs := [];
    var k := 0;
    while k < |layers|
      invariant 0 <= k <= |layers|
      invariant |ppArgs| == k && forall j :: 0 <= j < k ==> ppArgs[j] == FieldOf(layers[j])
      invariant layersForYt == Streams(layers[..k])
    {
      var layer := layers[k];
      assert layers[..k + 1][..k] == layers[..k];
      if layer.Some? && IsIndexField(layer.value) {
        ppArgs := ppArgs + [Some(Index(layer.value))];
      } else if layer.Some? {
        ppArgs := ppArgs + [Some(Stream(layer.value))];
        layersForYt := layersForYt + [layer.value];
      } else {
        ppArgs := ppArgs + [None];
      }
      k := k + 1;
    }
    assert layers[..k] == layers;
  }

  /** The weight drop-down shows "None" and then the layers, but its index is
      looked up in the layers alone: the weight used is the layer after the
      one shown, choosing "None" weights by the first layer, and choosing the
      last layer raises IndexError. */
  lemma WeightShift(currentLayers: seq<string>, iw: int)
    requires 0 <= iw <= |currentLayers|
    ensures iw >= 1 ==> (["None"] + currentLayers)[iw] == currentLayers[iw - 1]
    ensures iw < |currentLayers| ==> PyGet(currentLayers, iw) == Ok(currentLayers[iw])
    ensures iw == |currentLayers| ==> PyGet(currentLayers, iw) == Err(IndexError)
  {
  }

  /** Picking "None" in the weight drop-down of a viewer whose first layer is
      not named "None" gives a weight all the same. */
  lemma NoneWeightIsFirstLayer(currentLayers: seq<string>, i1: int, i2: int, i3: int)
    requires |currentLayers| > 0 && currentLayers[0] != "None"
    requires Picks(currentLayers, i1, i2, i3, 0).Ok?
    ensures Picks(currentLayers, i1, i2, i3, 0).value[3] == Some(currentLayers[0])
  {
  }

  /** `_validate_cmyt_name`: a name ending in ".cmyt" becomes "cmyt." and the
      part before its first "."; any other name is kept. */
  function ValidateCmytName(cm: string): (r: string)
    ensures !EndsWith(cm, ".cmyt") ==> r == cm
    ensures EndsWith(cm, ".cmyt") ==> StartsWith(r, "cmyt.") && '.' !in r[5..]
  {
    if EndsWith(cm, ".cmyt") then
      SplitPartsFree(cm, '.');
      "cmyt." + Split(cm, '.')[0]
    else cm
  }

  /** A colormap offered as "<name>.cmyt" is handed to matplotlib as
      "cmyt.<name>". */
  lemma CmytChoiceName(name: string)
    requires '.' !in name
    ensures ValidateCmytName(name + ".cmyt") == "cmyt." + name
  {
    var s := name + ".cmyt";
    assert s[|s| - 5..] == ".cmyt";
    assert s == name + ['.'] + "cmyt";
    SplitPrefix(name, "cmyt", '.');
  }

  /** A name of the tests that is not a cmyt entry is kept. */
  lemma ValidateCmytKeeps()
    ensures ValidateCmytName("notacmytcmap") == "notacmytcmap"
  {
    var cm := "notacmytcmap";
    assert cm[7] == 't' && ".cmyt"[0] == '.';
    assert !EndsWith(cm, ".cmyt");
  }

  /** The colormaps offered besides cmyt's own. */
  const BaseCmaps: seq<string> := ["arbre", "viridis", "magma", "doom", "cividis", "plasma", "RdBu", "coolwarm"]

  /** The cmyt entries: each colormap name of cmyt not ending in "_r", as
      "<name>.cmyt", in the order given. */
  function CmytEntries(cmytNames: seq<string>): (r: seq<string>)
    ensures forall e :: e in r <==> exists n :: n in cmytNames && !EndsWith(n, "_r") && e == n + ".cmyt"
  {
    if |cmytNames| == 0 then []
    else
      var rest := CmytEntries(cmytNames[1..]);
      var n := cmytNames[0];
      if EndsWith(n, "_r") then rest else [n + ".cmyt"] + rest
  }

  /** Python's `<=` on strings: lexicographic by character. */
  predicate LexLeq(a: string, b: string)
    decreases |a|
  {
    |a| == 0 || (|b| > 0 && (a[0] < b[0] || (a[0] == b[0] && LexLeq(a[1..], b[1..]))))
  }

  lemma {:induction false} LexLeqTotal(a: string, b: string)
    ensures LexLeq(a, b) || LexLeq(b, a)
    decreases |a|
  {
    if |a| > 0 && |b| > 0 && a[0] == b[0] {
      LexLeqTotal(a[1..], b[1..]);
    }
  }

  lemma {:induction false} LexLeqTransitive(a: string, b: string, c: string)
    requires LexLeq(a, b) && LexLeq(b, c)
    ensures LexLeq(a, c)
    decreases |a|
  {
    if |a| > 0 && a[0] == b[0] && b[0] == c[0] {
      LexLeqTransitive(a[1..], b[1..], c[1..]);
    }
  }

  /** The sort key of `_get_cmap_choices`: comparing lower-cased names. */
  predicate KeyLeq(a: string, b: string) {
    LexLeq(Lower(a), Lower(b))
  }

  predicate SortedByKey(s: seq<string>) {
    forall i, j :: 0 <= i < j < |s| ==> KeyLeq(s[i], s[j])
  }

  /** Inserting `x` into a sorted list after every element whose key is not
      greater, as a stable sort places it. */
  function Insert(s: seq<string>, x: string): (r: seq<string>)
    requires SortedByKey(s)
    ensures multiset(r) == multiset(s) + multiset{x}
    ensures SortedByKey(r)
  {
    if |s| == 0 then [x]
    else if !KeyLeq(s[0], x) then
      LexLeqTotal(Lower(x), Lower(s[0]));
      InsertFront(s, x);
      [x] + s
    else
      var rest := Insert(s[1..], x);
      InsertBehind(s, x, rest);
      assert s == [s[0]] + s[1..];
      [s[0]] + rest
  }

  lemma InsertFront(s: seq<string>, x: string)
    requires SortedByKey(s) && |s| > 0 && KeyLeq(x, s[0])
    ensures SortedByKey([x] + s)
  {
    var r := [x] + s;
    forall i, j | 0 <= i < j < |r|
      ensures KeyLeq(r[i], r[j])
    {
      if i == 0 && j > 1 {
        LexLeqTransitive(Lower(x), Lower(s[0]), Lower(s[j - 1]));
      }
    }
  }

  lemma InsertBehind(s: seq<string>, x: string, rest: seq<string>)
    requires SortedByKey(s) && |s| > 0 && KeyLeq(s[0], x)
    requires SortedByKey(rest) && multiset(rest) == multiset(s[1..]) + multiset{x}
    ensures SortedByKey([s[0]] + rest)
  {
    var r := [s[0]] + rest;
    forall i, j | 0 <= i < j < |r|
      ensures KeyLeq(r[i], r[j])
    {
      if i == 0 {
        var y := rest[j - 1];
        assert y in multiset(rest);
        if y != x {
          assert y in multiset(s[1..]);
          var k :| 0 <= k < |s[1..]| && s[1..][k] == y;
          assert s[k + 1] == y;
        }
      }
    }
  }

  /** Sorts by lower-cased name, inserting one element after another. */
  method SortByKey(all: seq<string>) returns (sorted: seq<string>)
    ensures multiset(sorted) == multiset(all)
    ensures SortedByKey(sorted)
  {
    sorted := [];
    var i := 0;
    while i < |all|
      invariant 0 <= i <= |all|
      invariant multiset(sorted) == multiset(all[..i])
      invariant SortedByKey(sorted)
    {
      assert all[..i + 1] == all[..i] + [all[i]];
      sorted := Insert(sorted, all[i]);
      i := i + 1;
    }
    assert all[..i] == all;
  }

  /** `_get_cmap_choices`: the base colormaps and the cmyt entries, sorted by
      lower-cased name. `cmytNames` are the names in cmyt that are colormaps. */
  method GetCmapChoices(cmytNames: seq<string>) returns (cmaps: seq<string>)
    ensures multiset(cmaps) == multiset(BaseCmaps + CmytEntries(cmytNames))
    ensures SortedByKey(cmaps)
  {
    cmaps := SortByKey(BaseCmaps + CmytEntries(cmytNames));
  }
}
