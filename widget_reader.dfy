/** The reader widgets' bookkeeping: the selections added and removed through
    the GUI, keyed by a counter that only grows, and the request dictionary
    assembled from them for the JSON loader. Widget values are given as
    parameters; Qt layouts and the loading itself are not part of this model. */
module WidgetReader {
  import opened Wrappers
  import opened Strings
  import GuiUtilities

  /** The JSON-like values of a request dictionary. */
  datatype Json =
    | JNone
    | JStr(s: string)
    | JInt(i: int)
    | JList(items: seq<Json>)
    | JTuple(elems: seq<Json>)
    | JObj(fields: map<string, Json>)

  const SchemaUrl: string := "https://yt-napari.readthedocs.io/en/latest/_static/yt-napari_latest.json"

  /** One active selection: its title and its selection type. */
  datatype SelectionEntry = SelectionEntry(title: string, selectionType: string)

  /** The key a selection is stored under: `{type}_{id}`. */
  function KeyOf(selectionType: string, id: nat): string {
    selectionType + "_" + NatToString(id)
  }

  /** The text shown for a key in the removal drop-down: "_" becomes " ". */
  function Label(key: string): string {
    Replace(key, "_", " ")
  }

  /** The key a drop-down text stands for: " " becomes "_". */
  function KeyOfLabel(text: string): string {
    Replace(text, " ", "_")
  }

  /** The selection types offered, none of which holds "_" or " ". */
  lemma ValidTypesPlain(t: string)
    requires GuiUtilities.SelectionContainerModel(t).Ok?
    ensures '_' !in t && ' ' !in t
  {
  }

  /** Different ids, or different types without "_", give different keys. */
  lemma KeyOfInjective(t1: string, n1: nat, t2: string, n2: nat)
    requires '_' !in t1 && '_' !in t2
    requires KeyOf(t1, n1) == KeyOf(t2, n2)
    ensures t1 == t2 && n1 == n2
  {
    NatToStringDigits(n1);
    NatToStringDigits(n2);
    SplitNoSep(NatToString(n1), '_');
    SplitNoSep(NatToString(n2), '_');
    SplitPrefix(t1, NatToString(n1), '_');
    SplitPrefix(t2, NatToString(n2), '_');
    assert Split(KeyOf(t1, n1), '_') == [t1, NatToString(n1)];
    assert Split(KeyOf(t2, n2), '_') == [t2, NatToString(n2)];
  }

  /** The drop-down text of a key leads back to the key. */
  lemma LabelRoundTrip(t: string, n: nat)
    requires '_' !in t && ' ' !in t
    ensures KeyOfLabel(Label(KeyOf(t, n))) == KeyOf(t, n)
  {
    NatToStringDigits(n);
    var key := KeyOf(t, n);
    assert ' ' !in key by {
      forall i | 0 <= i < |key|
        ensures key[i] != ' '
      {
        if i > |t| {
          assert key[i] == NatToString(n)[i - |t| - 1];
        }
      }
    }
    ReplaceCharBack(key, '_', ' ');
  }

  /** Qt's `insertItem(index, item)`: an index at or past the end appends. */
  function InsertItem(items: seq<string>, index: nat, item: string): (r: seq<string>)
    ensures |r| == |items| + 1
    ensures index < |items| ==> r[index] == item && r[..index] == items[..index] && r[index + 1..] == items[index..]
    ensures index >= |items| ==> r == items + [item]
  {
    if index >= |items| then items + [item] else items[..index] + [item] + items[index..]
  }

  predicate Distinct(s: seq<string>) {
    forall i, j :: 0 <= i < j < |s| ==> s[i] != s[j]
  }

  /** The keys in order, with `key` taken out. */
  function Without(s: seq<string>, key: string): (r: seq<string>)
    ensures forall x :: x in r <==> x in s && x != key
    ensures key !in s ==> r == s
  {
    if |s| == 0 then []
    else if s[0] == key then Without(s[1..], key)
    else [s[0]] + Without(s[1..], key)
  }

  /** Taking a key out keeps the keys distinct. */
  lemma {:induction false} WithoutDistinct(s: seq<string>, key: string)
    requires Distinct(s)
    ensures Distinct(Without(s, key))
  {
    if |s| > 0 {
      WithoutDistinct(s[1..], key);
      if s[0] != key {
        assert s[0] !in s[1..] by {
          forall j | 0 <= j < |s[1..]|
            ensures s[1..][j] != s[0]
          {
            assert s[1..][j] == s[j + 1];
          }
        }
        var r := Without(s, key);
        assert r == [s[0]] + Without(s[1..], key);
        forall i, j | 0 <= i < j < |r|
          ensures r[i] != r[j]
        {
          if i == 0 {
            assert r[j] == Without(s[1..], key)[j - 1];
            assert r[j] in Without(s[1..], key);
          } else {
            assert r[i] == Without(s[1..], key)[i - 1] && r[j] == Without(s[1..], key)[j - 1];
          }
        }
      }
    }
  }

  /** The current request values of the selections stored under `keys`. */
  function ValuesOf(keys: seq<string>, kwargsOf: string -> Json): (r: seq<Json>)
    ensures |r| == |keys|
  {
    seq(|keys|, i requires 0 <= i < |keys| => kwargsOf(keys[i]))
  }

  /** The selection types of the selections stored under `keys`. */
  function TypesOf(keys: seq<string>, selections: map<string, SelectionEntry>): (r: seq<string>)
    ensures |r| == |keys|
  {
    seq(|keys|, i requires 0 <= i < |keys| => if keys[i] in selections then selections[keys[i]].selectionType else "")
  }

  /** The key of a selection group: the type in lower case, plus "s". */
  function GroupKey(selectionType: string): string {
    Lower(selectionType) + "s"
  }

  /** The request values of the selections whose group key is `group`, in order. */
  function InGroup(types: seq<string>, values: seq<Json>, group: string): (r: seq<Json>)
    requires |types| == |values|
    ensures |r| <= |values|
  {
    if |types| == 0 then []
    else
      var rest := InGroup(types[..|types| - 1], values[..|values| - 1], group);
      if GroupKey(types[|types| - 1]) == group then rest + [values[|values| - 1]] else rest
  }

  /** The group keys of the selections. */
  function GroupKeys(types: seq<string>): set<string> {
    set i | 0 <= i < |types| :: GroupKey(types[i])
  }

  /** One more selection adds its own group key. */
  lemma GroupKeysAppend(types: seq<string>, t: string)
    ensures GroupKeys(types + [t]) == GroupKeys(types) + {GroupKey(t)}
  {
    var types' := types + [t];
    forall g | g in GroupKeys(types') ensures g in GroupKeys(types) + {GroupKey(t)} {
      var i :| 0 <= i < |types'| && GroupKey(types'[i]) == g;
      if i < |types| {
        assert types'[i] == types[i];
      }
    }
    forall g | g in GroupKeys(types) ensures g in GroupKeys(types') {
      var i :| 0 <= i < |types| && GroupKey(types[i]) == g;
      assert types'[i] == types[i];
    }
    assert GroupKey(types'[|types|]) == GroupKey(t);
  }

  /** The selections grouped by group key, each group keeping the order of
      the selections. */
  function Grouped(types: seq<string>, values: seq<Json>): map<string, seq<Json>>
    requires |types| == |values|
  {
    map g | g in GroupKeys(types) :: InGroup(types, values, g)
  }

  /** One more selection is appended to its own group and to no other. */
  lemma GroupedAppend(types: seq<string>, values: seq<Json>, t: string, v: Json)
    requires |types| == |values|
    ensures Grouped(types + [t], values + [v])
         == Grouped(types, values)[GroupKey(t) :=
              (if GroupKey(t) in Grouped(types, values) then Grouped(types, values)[GroupKey(t)] else []) + [v]]
  {
    var types', values' := types + [t], values + [v];
    assert types'[..|types'| - 1] == types && values'[..|values'| - 1] == values;
    GroupKeysAppend(types, t);
    if GroupKey(t) !in GroupKeys(types) {
      InGroupAbsent(types, values, GroupKey(t));
    }
    var old_ := Grouped(types, values);
    var new_ := Grouped(types', values');
    var want := old_[GroupKey(t) := (if GroupKey(t) in old_ then old_[GroupKey(t)] else []) + [v]];
    assert new_.Keys == want.Keys;
    forall g | g in new_ ensures new_[g] == want[g] {
      assert new_[g] == InGroup(types', values', g);
    }
  }

  /** Grouping one more selection of a list, stated on its prefixes. */
  lemma GroupedPrefixStep(types: seq<string>, values: seq<Json>, i: nat)
    requires |types| == |values| && i < |types|
    ensures var g := Grouped(types[..i], values[..i]);
      Grouped(types[..i + 1], values[..i + 1])
        == g[GroupKey(types[i]) := (if GroupKey(types[i]) in g then g[GroupKey(types[i])] else []) + [values[i]]]
  {
    assert types[..i + 1] == types[..i] + [types[i]];
    assert values[..i + 1] == values[..i] + [values[i]];
    GroupedAppend(types[..i], values[..i], types[i], values[i]);
  }

  lemma {:induction false} InGroupAbsent(types: seq<string>, values: seq<Json>, group: string)
    requires |types| == |values|
    requires forall i :: 0 <= i < |types| ==> GroupKey(types[i]) != group
    ensures InGroup(types, values, group) == []
    decreases |types|
  {
    if |types| > 0 {
      InGroupAbsent(types[..|types| - 1], values[..|values| - 1], group);
    }
  }

  /** Every selection lands in its own group. */
  lemma {:induction false} InGroupHas(types: seq<string>, values: seq<Json>, i: nat)
    requires |types| == |values| && i < |types|
    ensures values[i] in InGroup(types, values, GroupKey(types[i]))
    decreases |types|
  {
    if i < |types| - 1 {
      InGroupHas(types[..|types| - 1], values[..|values| - 1], i);
    }
  }

  /** `TimeSeriesReader._validate_data_model`'s clean-up of the file selection:
      an empty pattern, a list holding only the empty string and the range
      (0, 0, 0) each become None. A missing entry raises KeyError and a file
      selection that is not a dictionary raises TypeError. */
  function NormalizeFileSelection(kwargs: map<string, Json>): (r: Result<map<string, Json>>)
    ensures "file_selection" !in kwargs ==> r == Err(KeyError)
    ensures "file_selection" in kwargs && !kwargs["file_selection"].JObj? ==> r == Err(TypeError)
    ensures r.Ok? <==>
      "file_selection" in kwargs && kwargs["file_selection"].JObj?
      && "file_pattern" in kwargs["file_selection"].fields
      && "file_list" in kwargs["file_selection"].fields
      && "file_range" in kwargs["file_selection"].fields
    ensures r.Err? && "file_selection" in kwargs && kwargs["file_selection"].JObj? ==> r.error == KeyError
    ensures r.Ok? ==>
      (r.value.Keys == kwargs.Keys
       && (forall k :: k in kwargs && k != "file_selection" ==> r.value[k] == kwargs[k])
       && kwargs["file_selection"].JObj? && r.value["file_selection"].JObj?
       && r.value["file_selection"].fields.Keys == kwargs["file_selection"].fields.Keys
       && "file_pattern" in kwargs["file_selection"].fields
       && "file_list" in kwargs["file_selection"].fields
       && "file_range" in kwargs["file_selection"].fields)
    ensures r.Ok? ==>
      var before, after := kwargs["file_selection"].fields, r.value["file_selection"].fields;
      (after["file_pattern"] == if before["file_pattern"] == JStr("") then JNone else before["file_pattern"])
      && (after["file_list"] == if before["file_list"] == JList([JStr("")]) then JNone else before["file_list"])
      && (after["file_range"] == if before["file_range"] == JTuple([JInt(0), JInt(0), JInt(0)]) then JNone
                                 else before["file_range"])
      && (forall k :: k in before && k !in {"file_pattern", "file_list", "file_range"} ==> after[k] == before[k])
  {
    if "file_selection" !in kwargs then Err(KeyError)
    else if !kwargs["file_selection"].JObj? then Err(TypeError)
    else
      var fs := kwargs["file_selection"].fields;
      if "file_pattern" !in fs then Err(KeyError)
      else
        var fs1 := if fs["file_pattern"] == JStr("") then fs["file_pattern" := JNone] else fs;
        if "file_list" !in fs1 then Err(KeyError)
        else
          var fs2 := if fs1["file_list"] == JList([JStr("")]) then fs1["file_list" := JNone] else fs1;
          if "file_range" !in fs2 then Err(KeyError)
          else
            var fs3 := if fs2["file_range"] == JTuple([JInt(0), JInt(0), JInt(0)]) then fs2["file_range" := JNone] else fs2;
            Ok(kwargs["file_selection" := JObj(fs3)])
  }

  /** Cleaning up twice is the same as once. */
  lemma NormalizeIdempotent(kwargs: map<string, Json>)
    requires NormalizeFileSelection(kwargs).Ok?
    ensures NormalizeFileSelection(NormalizeFileSelection(kwargs).value) == NormalizeFileSelection(kwargs)
  {
    var n := NormalizeFileSelection(kwargs).value;
    var fs := n["file_selection"].fields;
    assert fs["file_pattern"] != JStr("");
    assert fs["file_list"] != JList([JStr("")]);
    assert fs["file_range"] != JTuple([JInt(0), JInt(0), JInt(0)]);
    assert n["file_selection" := JObj(fs)] == n;
  }

  /** The reader's invariant over its fields: the ordered keys are exactly the
      active selections, without repeats; every issued key is `{type}_{id}`
      for its own type and an id no greater than the counter; an active
      selection has the type its key was issued for. */
  ghost predicate Consistent(widgId: nat, keys: seq<string>, selections: map<string, SelectionEntry>,
                             types: map<string, string>, idOf: map<string, nat>)
  {
    Distinct(keys)
    && (forall k :: k in keys <==> k in selections)
    && selections.Keys <= types.Keys
    && types.Keys == idOf.Keys
    && (forall k :: k in types ==> idOf[k] <= widgId && '_' !in types[k] && k == KeyOf(types[k], idOf[k]))
    && (forall k :: k in selections ==> selections[k].selectionType == types[k])
  }

  /** A key made from the next counter value has never been issued. */
  lemma ConsistentFresh(widgId: nat, keys: seq<string>, selections: map<string, SelectionEntry>,
                        types: map<string, string>, idOf: map<string, nat>, t: string)
    requires Consistent(widgId, keys, selections, types, idOf) && '_' !in t
    ensures KeyOf(t, widgId + 1) !in types
  {
    var key := KeyOf(t, widgId + 1);
    if key in types {
      KeyOfInjective(types[key], idOf[key], t, widgId + 1);
    }
  }

  /** Counting up alone keeps the invariant. */
  lemma ConsistentBump(widgId: nat, keys: seq<string>, selections: map<string, SelectionEntry>,
                       types: map<string, string>, idOf: map<string, nat>)
    requires Consistent(widgId, keys, selections, types, idOf)
    ensures Consistent(widgId + 1, keys, selections, types, idOf)
  {
  }

  /** Counting up, then storing a selection under the fresh key, keeps the
      invariant. */
  lemma ConsistentAdd(widgId: nat, keys: seq<string>, selections: map<string, SelectionEntry>,
                      types: map<string, string>, idOf: map<string, nat>, t: string, entry: SelectionEntry,
                      newId: nat, keys': seq<string>, selections': map<string, SelectionEntry>,
                      types': map<string, string>, idOf': map<string, nat>)
    requires Consistent(widgId, keys, selections, types, idOf) && '_' !in t && entry.selectionType == t
    requires newId == widgId + 1
    requires keys' == keys + [KeyOf(t, newId)]
    requires selections' == selections[KeyOf(t, newId) := entry]
    requires types' == types[KeyOf(t, newId) := t]
    requires idOf' == idOf[KeyOf(t, newId) := newId]
    ensures Consistent(newId, keys', selections', types', idOf')
  {
    var key := KeyOf(t, newId);
    ConsistentFresh(widgId, keys, selections, types, idOf, t);
    assert key !in keys;
    forall i, j | 0 <= i < j < |keys'|
      ensures keys'[i] != keys'[j]
    {
      if j == |keys| {
        assert keys'[i] == keys[i] && keys[i] in keys;
      }
    }
  }

  /** `YTReader`: the selection counter, the active selections in insertion
      order, the type of every key ever issued, and the removal drop-down. */
  class YTReader {
    var widgId: nat
    var keys: seq<string>
    var activeSelections: map<string, SelectionEntry>
    var activeSelectionTypes: map<string, string>
    var labels: seq<string>
    /** The id each issued key was made from. */
    ghost var idOf: map<string, nat>

    ghost predicate Valid()
      reads this
    {
      Consistent(widgId, keys, activeSelections, activeSelectionTypes, idOf)
    }

    /** A reader with no selections; the counter starts at 0. */
    constructor()
      ensures Valid()
      ensures widgId == 0 && keys == [] && activeSelections == map[] && activeSelectionTypes == map[] && labels == []
    {
      widgId := 0;
      keys := [];
      activeSelections := map[];
      activeSelectionTypes := map[];
      labels := [];
      idOf := map[];
    }

    /** `add_a_selection`: the counter goes up by one, then a selection of
        `selectionType` is created (ValueError for a type outside Region,
        Slice and CoveringGrid) and stored under `{type}_{id}`, a key never
        issued before; its label is inserted into the drop-down. */
    method AddASelection(selectionType: string) returns (o: Outcome)
      requires Valid()
      modifies this
      ensures Valid()
      ensures widgId == old(widgId) + 1
      ensures GuiUtilities.SelectionContainerModel(selectionType).Err? ==>
        o == Fail(ValueError) && keys == old(keys) && activeSelections == old(activeSelections)
        && activeSelectionTypes == old(activeSelectionTypes) && labels == old(labels)
      ensures GuiUtilities.SelectionContainerModel(selectionType).Ok? ==>
        var key := KeyOf(selectionType, widgId);
        o == Pass
        && key !in old(activeSelectionTypes)
        && keys == old(keys) + [key]
        && activeSelections == old(activeSelections)[key := SelectionEntry(
             "Selection " + NatToString(widgId) + ", " + selectionType, selectionType)]
        && activeSelectionTypes == old(activeSelectionTypes)[key := selectionType]
        && labels == InsertItem(old(labels), widgId - 1, Label(key))
    {
      ghost var oldId := widgId;
      ghost var labels0 := labels;
      var newWidgId := widgId + 1;
      widgId := newWidgId;
      var container := GuiUtilities.SelectionContainerModel(selectionType);
      if container.Err? {
        ConsistentBump(oldId, keys, activeSelections, activeSelectionTypes, idOf);
        return Fail(container.error);
      }
      ValidTypesPlain(selectionType);
      var widgetName := "Selection " + NatToString(newWidgId) + ", " + selectionType;
      var widgKey := KeyOf(selectionType, newWidgId);
      var entry := SelectionEntry(widgetName, selectionType);
      ConsistentFresh(oldId, keys, activeSelections, activeSelectionTypes, idOf, selectionType);
      ghost var (keys0, selections0, types0, ids0) := (keys, activeSelections, activeSelectionTypes, idOf);
      activeSelections := activeSelections[widgKey := entry];
      keys := keys + [widgKey];
      var shown := Label(widgKey);
      labels := InsertItem(labels, newWidgId - 1, shown);
      assert labels == InsertItem(labels0, widgId - 1, Label(KeyOf(selectionType, widgId)));
      activeSelectionTypes := activeSelectionTypes[widgKey := selectionType];
      idOf := idOf[widgKey := newWidgId];
      ConsistentAdd(oldId, keys0, selections0, types0, ids0, selectionType, entry,
                    widgId, keys, activeSelections, activeSelectionTypes, idOf);
      return Pass;
    }

    /** `remove_selection`: the drop-down text with " " turned into "_" names
        the selection to remove; when it is active it is removed and the
        drop-down is refilled with the remaining keys. The counter and the
        types of issued keys do not change. */
    method RemoveSelection(currentText: string)
      requires Valid()
      modifies this
      ensures Valid()
      ensures widgId == old(widgId) && activeSelectionTypes == old(activeSelectionTypes)
      ensures KeyOfLabel(currentText) in old(activeSelections) ==>
        keys == Without(old(keys), KeyOfLabel(currentText))
        && activeSelections == old(activeSelections) - {KeyOfLabel(currentText)}
        && labels == keys
      ensures KeyOfLabel(currentText) !in old(activeSelections) ==>
        keys == old(keys) && activeSelections == old(activeSelections) && labels == old(labels)
    {
      var widgetToRm := KeyOfLabel(currentText);
      if widgetToRm in activeSelections {
        activeSelections := activeSelections - {widgetToRm};
        WithoutDistinct(keys, widgetToRm);
        keys := Without(keys, widgetToRm);
        labels := keys;
      }
    }

    /** The loop shared by both `_validate_data_model`s: the current request
        values of the selections (`kwargsOf`, by key), grouped under
        `type.lower() + "s"` in insertion order. */
    method SelectionsByType(kwargsOf: string -> Json) returns (groups: map<string, seq<Json>>)
      requires forall k :: k in keys ==> k in activeSelections
      ensures groups == Grouped(TypesOf(keys, activeSelections), ValuesOf(keys, kwargsOf))
    {
      ghost var values := ValuesOf(keys, kwargsOf);
      ghost var types := TypesOf(keys, activeSelections);
      groups := map[];
      var i := 0;
      while i < |keys|
        invariant 0 <= i <= |keys|
        invariant groups == Grouped(types[..i], values[..i])
      {
        assert keys[i] in activeSelections;
        var selection := activeSelections[keys[i]];
        var pyKwargs := kwargsOf(keys[i]);
        var selKey := GroupKey(selection.selectionType);
        assert types[i] == selection.selectionType && values[i] == pyKwargs;
        GroupedPrefixStep(types, values, i);
        groups := groups[selKey := (if selKey in groups then groups[selKey] else []) + [pyKwargs]];
        i := i + 1;
      }
      assert types[..i] == types && values[..i] == values;
    }

    /** `ReaderWidget._validate_data_model`: the dataset values read from the
        container (`containerKwargs`) with the grouped selections added under
        "selections", wrapped as the one dataset of a request that names the
        latest schema. */
    method ValidateReaderModel(containerKwargs: map<string, Json>, kwargsOf: string -> Json) returns (r: Json)
      requires Valid()
      ensures r == JObj(map["$schema" := JStr(SchemaUrl),
                            "datasets" := JList([JObj(containerKwargs["selections" := GroupsJson(
                              Grouped(TypesOf(keys, activeSelections), ValuesOf(keys, kwargsOf)))])])])
    {
      var groups := SelectionsByType(kwargsOf);
      var pyKwargs := containerKwargs["selections" := GroupsJson(groups)];
      r := JObj(map["$schema" := JStr(SchemaUrl), "datasets" := JList([JObj(pyKwargs)])]);
    }

    /** `TimeSeriesReader._validate_data_model`: as for a dataset, after the
        clean-up of the file selection, and wrapped under "timeseries". */
    method ValidateTimeSeriesModel(containerKwargs: map<string, Json>, kwargsOf: string -> Json)
      returns (r: Result<Json>)
      requires Valid()
      ensures NormalizeFileSelection(containerKwargs).Err? ==> r == Err(NormalizeFileSelection(containerKwargs).error)
      ensures NormalizeFileSelection(containerKwargs).Ok? ==>
        r == Ok(JObj(map["$schema" := JStr(SchemaUrl),
                         "timeseries" := JList([JObj(NormalizeFileSelection(containerKwargs).value["selections" :=
                           GroupsJson(Grouped(TypesOf(keys, activeSelections), ValuesOf(keys, kwargsOf)))])])]))
    {
      var groups := SelectionsByType(kwargsOf);
      var pyKwargs := NormalizeFileSelection(containerKwargs);
      if pyKwargs.Err? {
        return Err(pyKwargs.error);
      }
      var withSelections := pyKwargs.value["selections" := GroupsJson(groups)];
      r := Ok(JObj(map["$schema" := JStr(SchemaUrl), "timeseries" := JList([JObj(withSelections)])]));
    }
  }

  /** The grouped selections as a request value. */
  function GroupsJson(groups: map<string, seq<Json>>): Json {
    JObj(map g | g in groups :: JList(groups[g]))
  }
}
