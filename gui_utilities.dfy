/** The registry that tells the GUI builder how to turn a data-model field into
    a widget and a widget back into a field value, the fields registered at
    start-up, and the checks on the selection containers it builds. Data-model
    classes are named by their class names, and factories (callables) by name. */
module GuiUtilities {
  import opened Wrappers

  /** `set_default`: `default` when `variable` is None, else `variable`. */
  function SetDefault<T>(variable: Option<T>, default: T): (r: T)
    ensures variable.None? ==> r == default
    ensures variable.Some? ==> r == variable.value
  {
    if variable.None? then default else variable.value
  }

  /** A callable with the positional and keyword arguments to call it with;
      `factory` is None when no callable was registered. */
  datatype Call = Call(factory: Option<string>, args: seq<string>, kwargs: map<string, string>)

  /** One registry entry: how to build the widget, how to read it back, and
      whether the field is a list shown as a single entry. */
  datatype Entry = Entry(magicgui: Call, pydantic: Call, autoListHandling: bool)

  /** What `get_pydantic_attr` hands to the registered callable. */
  datatype PydanticAttrCall = PydanticAttrCall(factory: string, widget: string, args: seq<string>, kwargs: map<string, string>)

  /** The fields of `model` that have entries (none for an unknown model). */
  function FieldsOf(registry: map<string, map<string, Entry>>, model: string): map<string, Entry> {
    if model in registry then registry[model] else map[]
  }

  /** The entry under `model`/`field`, if any. */
  function Lookup(registry: map<string, map<string, Entry>>, model: string, field: string): Option<Entry> {
    if model in registry && field in registry[model] then Some(registry[model][field]) else None
  }

  /** `model`/`field` has an entry. */
  predicate Registered(registry: map<string, map<string, Entry>>, model: string, field: string) {
    model in registry && field in registry[model]
  }

  /** The registry with `entry` stored under `model`/`field`. */
  function WithEntry(registry: map<string, map<string, Entry>>, model: string, field: string, entry: Entry)
    : map<string, map<string, Entry>>
  {
    registry[model := FieldsOf(registry, model)[field := entry]]
  }

  /** Storing an entry changes the lookup of that pair only. */
  lemma LookupWithEntry(registry: map<string, map<string, Entry>>, model: string, field: string, entry: Entry,
                        m: string, f: string)
    ensures Lookup(WithEntry(registry, model, field, entry), m, f)
         == if m == model && f == field then Some(entry) else Lookup(registry, m, f)
  {
  }

  /** The entry of a list field shown as one entry: no callables, list handling on. */
  const ListEntry: Entry := Entry(Call(None, [], map[]), Call(None, [], map[]), true)

  /** `_models_to_embed_in_list`: the list fields shown as one entry. */
  const ModelsToEmbedInList: seq<(string, string)> := [
    ("Slice", "fields"),
    ("Region", "fields"),
    ("CoveringGrid", "fields"),
    ("DataContainer", "selections"),
    ("SelectionObject", "regions"),
    ("SelectionObject", "covering_grids"),
    ("SelectionObject", "slices")
  ]

  /** `_valid_selections`. */
  const ValidSelections: seq<string> := ["Region", "Slice", "CoveringGrid"]

  /** The name check of `get_yt_selection_container`: a selection type outside
      Region, Slice and CoveringGrid raises ValueError; otherwise it names the
      data-model class whose container is built. */
  function SelectionContainerModel(selectionType: string): (r: Result<string>)
    ensures r.Ok? <==> selectionType == "Region" || selectionType == "Slice" || selectionType == "CoveringGrid"
    ensures r.Err? ==> r.error == ValueError
    ensures r.Ok? ==> r.value == selectionType
  {
    if selectionType !in ValidSelections then Err(ValueError) else Ok(selectionType)
  }

  /** `embed_in_list`: a one-element list holding the widget's value. */
  function EmbedInList<T>(value: T): (r: seq<T>)
    ensures |r| == 1 && r[0] == value
  {
    [value]
  }

  /** `MagicPydanticRegistry`: model name to field name to entry. */
  class MagicPydanticRegistry {
    var registry: map<string, map<string, Entry>>

    constructor()
      ensures registry == map[]
    {
      registry := map[];
    }

    /** `register`: stores one entry under `model`/`field`, replacing any
        earlier one; missing argument tuples and keyword dicts become empty.
        No other entry changes. */
    method Register(model: string, field: string,
                    magicguiFactory: Option<string>, magicguiArgs: Option<seq<string>>,
                    magicguiKwargs: Option<map<string, string>>,
                    pydanticAttrFactory: Option<string>, pydanticAttrArgs: Option<seq<string>>,
                    pydanticAttrKwargs: Option<map<string, string>>,
                    autoListHandling: bool)
      modifies this
      ensures registry == WithEntry(old(registry), model, field,
        Entry(Call(magicguiFactory, SetDefault(magicguiArgs, []), SetDefault(magicguiKwargs, map[])),
              Call(pydanticAttrFactory, SetDefault(pydanticAttrArgs, []), SetDefault(pydanticAttrKwargs, map[])),
              autoListHandling))
    {
      var mArgs := SetDefault(magicguiArgs, []);
      var mKwargs := SetDefault(magicguiKwargs, map[]);
      var pArgs := SetDefault(pydanticAttrArgs, []);
      var pKwargs := SetDefault(pydanticAttrKwargs, map[]);
      registry := registry[model := FieldsOf(registry, model)[field := Entry(Call(None, [], map[]), Call(None, [], map[]), false)]];
      var newEntry := Entry(Call(magicguiFactory, mArgs, mKwargs), Call(pydanticAttrFactory, pArgs, pKwargs), autoListHandling);
      assert registry[model][field := newEntry] == FieldsOf(old(registry), model)[field := newEntry];
      registry := registry[model := registry[model][field := newEntry]];
    }

    /** `is_registered`: whether `model`/`field` has an entry; with `required`
        a missing model or field raises KeyError instead. */
    function IsRegistered(model: string, field: string, required: bool): (r: Result<bool>)
      reads this
      ensures r.Ok? ==> (r.value <==> Registered(registry, model, field))
      ensures r.Err? <==> required && !Registered(registry, model, field)
      ensures r.Err? ==> r.error == KeyError
    {
      var modelExists := model in registry;
      var inRegistry := modelExists && field in registry[model];
      if required && !inRegistry then Err(KeyError) else Ok(inRegistry)
    }

    /** `get_pydantic_attr`: calls the registered reading callable on the
        widget. An unregistered pair raises KeyError when `required`, and
        RuntimeError otherwise; an entry without a reading callable raises
        TypeError when it is called. */
    function GetPydanticAttr(model: string, field: string, widget: string, required: bool)
      : (r: Result<PydanticAttrCall>)
      reads this
      ensures !Registered(registry, model, field) ==> r == Err(if required then KeyError else RuntimeError)
      ensures Registered(registry, model, field) ==>
        (r.Ok? <==> registry[model][field].pydantic.factory.Some?)
      ensures r.Err? && Registered(registry, model, field) ==> r.error == TypeError
      ensures r.Ok? ==>
        (r.value.widget == widget
         && Some(r.value.factory) == registry[model][field].pydantic.factory
         && r.value.args == registry[model][field].pydantic.args
         && r.value.kwargs == registry[model][field].pydantic.kwargs)
    {
      var registered :- IsRegistered(model, field, required);
      if !registered then Err(RuntimeError)
      else
        var call := registry[model][field].pydantic;
        if call.factory.None? then Err(TypeError)
        else Ok(PydanticAttrCall(call.factory.value, widget, call.args, call.kwargs))
    }
  }

  /** Every pair of `pairs` holds the list entry. */
  predicate AllListed(registry: map<string, map<string, Entry>>, pairs: seq<(string, string)>) {
    forall p :: p in pairs ==> Lookup(registry, p.0, p.1) == Some(ListEntry)
  }

  /** Every pair of `_models_to_embed_in_list` holds the list entry. */
  predicate AllEmbedded(registry: map<string, map<string, Entry>>) {
    AllListed(registry, ModelsToEmbedInList)
  }

  /** Registering a pair outside `pairs` keeps their list entries. */
  lemma AllListedKept(registry: map<string, map<string, Entry>>, pairs: seq<(string, string)>,
                      model: string, field: string, entry: Entry)
    requires AllListed(registry, pairs)
    requires (model, field) !in pairs
    ensures AllListed(WithEntry(registry, model, field, entry), pairs)
  {
    forall p | p in pairs
      ensures Lookup(WithEntry(registry, model, field, entry), p.0, p.1) == Some(ListEntry)
    {
      assert p == (p.0, p.1);
      LookupWithEntry(registry, model, field, entry, p.0, p.1);
    }
  }

  /** The fields registered with their own widgets are named differently
      from every embedded-list field. */
  lemma EmbeddedFieldLengths()
    ensures forall p :: p in ModelsToEmbedInList ==> |p.1| in {6, 7, 10, 14}
  {
    forall p | p in ModelsToEmbedInList
      ensures |p.1| in {6, 7, 10, 14}
    {
      var i :| 0 <= i < |ModelsToEmbedInList| && ModelsToEmbedInList[i] == p;
    }
  }

  /** The loop of `_register_yt_data_model` over `_models_to_embed_in_list`,
      here over any `pairs`: each pair is registered as a list shown as one
      entry; other pairs keep their entries. */
  method RegisterAsLists(translator: MagicPydanticRegistry, pairs: seq<(string, string)>)
    modifies translator
    ensures AllListed(translator.registry, pairs)
    ensures forall m, f :: (m, f) !in pairs ==>
      Lookup(translator.registry, m, f) == Lookup(old(translator.registry), m, f)
  {
    var i := 0;
    while i < |pairs|
      invariant 0 <= i <= |pairs|
      invariant forall m, f :: (m, f) !in pairs ==>
        Lookup(translator.registry, m, f) == Lookup(old(translator.registry), m, f)
      invariant AllListed(translator.registry, pairs[..i])
    {
      var (model, field) := pairs[i];
      ghost var before := translator.registry;
      translator.Register(model, field, None, None, None, None, None, None, true);
      forall m, f
        ensures Lookup(translator.registry, m, f) == if m == model && f == field then Some(ListEntry) else Lookup(before, m, f)
      {
        LookupWithEntry(before, model, field, ListEntry, m, f);
      }
      assert pairs[..i + 1] == pairs[..i] + [(model, field)];
      i := i + 1;
    }
    assert pairs[..i] == pairs;
  }

  /** The entry `register` stores for a field with its own widget: the widget
      built by `magicguiFactory` with the given arguments (missing ones empty),
      read back by `pydanticAttrFactory` without arguments, list handling off. */
  function OwnWidgetEntry(magicguiFactory: string, magicguiArgs: Option<seq<string>>,
                          magicguiKwargs: Option<map<string, string>>, pydanticAttrFactory: string): Entry
  {
    Entry(Call(Some(magicguiFactory), SetDefault(magicguiArgs, []), SetDefault(magicguiKwargs, map[])),
          Call(Some(pydanticAttrFactory), [], map[]), false)
  }

  /** The entry of the two `filename` fields: a file widget named "filename",
      read back by `get_filename`. */
  const FileNameEntry: Entry := OwnWidgetEntry("get_file_widget", None, Some(map["name" := "filename"]), "get_filename")

  /** The entry of `TimeSeriesFileSelection.file_list`: magicgui's default
      widget for that field, read back by `handle_str_list_edit`. */
  const FileListEntry: Entry :=
    OwnWidgetEntry("get_magicguidefault", Some(["file_list", "TimeSeriesFileSelection.file_list"]), None,
                   "handle_str_list_edit")

  /** The entry of an integer field of `CoveringGrid`: an integer box named
      after the field, read back by `get_int_val`. */
  function IntBoxEntry(name: string): Entry {
    OwnWidgetEntry("get_int_box_widget", None, Some(map["name" := name]), "get_int_val")
  }

  /** Storing an entry gives that pair the entry and keeps every other lookup. */
  lemma LookupOthers(registry: map<string, map<string, Entry>>, model: string, field: string, entry: Entry)
    ensures Lookup(WithEntry(registry, model, field, entry), model, field) == Some(entry)
    ensures forall m, f :: m != model || f != field ==>
      Lookup(WithEntry(registry, model, field, entry), m, f) == Lookup(registry, m, f)
  {
    forall m, f | m != model || f != field
      ensures Lookup(WithEntry(registry, model, field, entry), m, f) == Lookup(registry, m, f)
    {
      LookupWithEntry(registry, model, field, entry, m, f);
    }
  }

  /** One registration of a field with its own widget, built by
      `magicguiFactory` and read back by `pydanticAttrFactory`: the pair is
      registered afterwards, every pair registered before still is, and the
      list entries of `pairs` are kept when the pair is not one of them. */
  method RegisterOwnWidget(translator: MagicPydanticRegistry, pairs: seq<(string, string)>,
                           model: string, field: string, magicguiFactory: string,
                           magicguiArgs: Option<seq<string>>, magicguiKwargs: Option<map<string, string>>,
                           pydanticAttrFactory: string)
    modifies translator
    ensures translator.registry == WithEntry(old(translator.registry), model, field,
      OwnWidgetEntry(magicguiFactory, magicguiArgs, magicguiKwargs, pydanticAttrFactory))
    ensures Registered(translator.registry, model, field)
    ensures forall m, f :: Registered(old(translator.registry), m, f) ==> Registered(translator.registry, m, f)
    ensures AllListed(old(translator.registry), pairs) && (model, field) !in pairs ==>
      AllListed(translator.registry, pairs)
  {
    ghost var before := translator.registry;
    translator.Register(model, field, Some(magicguiFactory), magicguiArgs, magicguiKwargs,
                        Some(pydanticAttrFactory), None, None, false);
    ghost var entry := OwnWidgetEntry(magicguiFactory, magicguiArgs, magicguiKwargs, pydanticAttrFactory);
    LookupWithEntry(before, model, field, entry, model, field);
    forall m, f | Registered(before, m, f)
      ensures Registered(translator.registry, m, f)
    {
      LookupWithEntry(before, model, field, entry, m, f);
    }
    if AllListed(before, pairs) && (model, field) !in pairs {
      AllListedKept(before, pairs, model, field, entry);
    }
  }

  /** The fields registered with their own widgets are five different pairs,
      none of them an embedded-list pair. */
  lemma WidgetFieldsDistinct()
    ensures ("DataContainer", "filename") !in ModelsToEmbedInList
    ensures ("MetadataModel", "filename") !in ModelsToEmbedInList
    ensures ("TimeSeriesFileSelection", "file_list") !in ModelsToEmbedInList
    ensures ("CoveringGrid", "level") !in ModelsToEmbedInList
    ensures ("CoveringGrid", "num_ghost_zones") !in ModelsToEmbedInList
    ensures "DataContainer" != "MetadataModel"
    ensures "filename" != "file_list" && "filename" != "level" && "filename" != "num_ghost_zones"
    ensures "file_list" != "level" && "file_list" != "num_ghost_zones" && "level" != "num_ghost_zones"
  {
    EmbeddedFieldLengths();
    assert |"filename"| == 8 && |"file_list"| == 9 && |"level"| == 5 && |"num_ghost_zones"| == 15;
  }

  /** `_register_yt_data_model`: the file-name, file-list and integer fields
      get their own widgets, and every pair of `_models_to_embed_in_list` is
      registered as a list shown as one entry. */
  method RegisterYtDataModel(translator: MagicPydanticRegistry)
    modifies translator
    ensures AllEmbedded(translator.registry)
    ensures Lookup(translator.registry, "DataContainer", "filename") == Some(FileNameEntry)
    ensures Lookup(translator.registry, "MetadataModel", "filename") == Some(FileNameEntry)
    ensures Lookup(translator.registry, "TimeSeriesFileSelection", "file_list") == Some(FileListEntry)
    ensures Lookup(translator.registry, "CoveringGrid", "level") == Some(IntBoxEntry("level"))
    ensures Lookup(translator.registry, "CoveringGrid", "num_ghost_zones") == Some(IntBoxEntry("num_ghost_zones"))
  {
    var pairs := ModelsToEmbedInList;
    WidgetFieldsDistinct();
    ghost var r0 := translator.registry;
    RegisterOwnWidget(translator, pairs, "DataContainer", "filename", "get_file_widget",
                      None, Some(map["name" := "filename"]), "get_filename");
    LookupOthers(r0, "DataContainer", "filename", FileNameEntry);
    ghost var r1 := translator.registry;
    RegisterAsLists(translator, pairs);
    ghost var r2 := translator.registry;
    RegisterOwnWidget(translator, pairs, "MetadataModel", "filename", "get_file_widget",
                      None, Some(map["name" := "filename"]), "get_filename");
    LookupOthers(r2, "MetadataModel", "filename", FileNameEntry);
    ghost var r3 := translator.registry;
    RegisterOwnWidget(translator, pairs, "TimeSeriesFileSelection", "file_list", "get_magicguidefault",
                      Some(["file_list", "TimeSeriesFileSelection.file_list"]), None, "handle_str_list_edit");
    LookupOthers(r3, "TimeSeriesFileSelection", "file_list", FileListEntry);
    ghost var r4 := translator.registry;
    RegisterOwnWidget(translator, pairs, "CoveringGrid", "level", "get_int_box_widget",
                      None, Some(map["name" := "level"]), "get_int_val");
    LookupOthers(r4, "CoveringGrid", "level", IntBoxEntry("level"));
    ghost var r5 := translator.registry;
    RegisterOwnWidget(translator, pairs, "CoveringGrid", "num_ghost_zones", "get_int_box_widget",
                      None, Some(map["name" := "num_ghost_zones"]), "get_int_val");
    LookupOthers(r5, "CoveringGrid", "num_ghost_zones", IntBoxEntry("num_ghost_zones"));
    assert Lookup(r2, "DataContainer", "filename") == Some(FileNameEntry);
    assert Lookup(r4, "DataContainer", "filename") == Some(FileNameEntry);
    assert Lookup(r4, "MetadataModel", "filename") == Some(FileNameEntry);
  }

  /** The module's `translator`, as start-up leaves it: every embedded-list pair
      is registered with list handling on, so a required lookup succeeds. */
  method NewTranslator() returns (translator: MagicPydanticRegistry)
    ensures fresh(translator)
    ensures forall p :: p in ModelsToEmbedInList ==>
      translator.IsRegistered(p.0, p.1, true) == Ok(true)
      && translator.registry[p.0][p.1].autoListHandling
  {
    translator := new MagicPydanticRegistry();
    RegisterYtDataModel(translator);
  }
}
