# yt-napari core, modelled in Dafny

This project models the parts of yt-napari that do bookkeeping rather than
I/O or drawing:

- **Layer geometry and alignment** (`ModelIngestor`, with `Vectors`). A `LayerDomain` holds its edges, resolution, center, width, pixel size and aspect ratio. A `ReferenceLayer` aligns other layers to it by writing "scale" and "translate" into their keyword-argument dicts. A `PhysicalDomainTracker` keeps the running bounding box of all layers in a working unit. `_choose_ref_layer` picks the reference.
- **The viewer scene** (`Viewer`). This covers the search for a stored reference layer, `Scene._get_reference_layer` and its cache, the arguments `_add_to_scene` hands to napari, `_sanitize_layers`, `get_data_range`, and the checks and defaults of `layers_to_yt`.
- **Schema versions**:
  - `VersionComparison` covers the installed version tuple, reading a version from a schema reference, and `schema_version_is_valid`.
  - `SchemaManager` covers `Manager._check_versions`, `_validate_prefix`, `_filename` and `write_new_schema`. The schema directory is a map from file name to content.
  - `ReleaseValidation` covers the release-tag checks of `repo_utilities/validate.py`.
  - `Versions` (release triples, tuple order, dotted parsing) and `Strings` (Python string operations) are shared helpers.
- **Small keyed tables**:
  - `DsCache`: the dataset cache.
  - `Config`: merging the default settings into the configuration.
  - `GuiUtilities`: the magicgui/pydantic registry and its start-up registrations.
  - `WidgetReader`: the selection bookkeeping and request building of the reader widgets.
  - `PhasePlotWidget`: the index and name helpers of the phase-plot widget.

Python exceptions become the `Err`/`Fail` cases of `Result`/`Outcome` in
`Wrappers`, and `None` becomes `Option`. Objects whose fields the source
updates in place are classes: `Kwargs`, `PhysicalDomainTracker`, `Scene`,
`Manager`, `DatasetCache`, `YtConfig`, `MagicPydanticRegistry`, `YTReader`
and `Combobox`. Everything else is a value.

Some behaviours of the code are modelled as written, where a reader might
expect otherwise:

- `calculate_scale` multiplies by the reference aspect ratio.
- `update_from_layer` forwards only the edges.
- `rm_ds` leaves `_most_recent` unchanged, so removing the most recent dataset makes `most_recent` raise KeyError.
- `render_phaseplot` looks up the weight drop-down's index in the layer list, although that drop-down lists "None" first. The weight used is therefore the layer after the one shown (`PhasePlotWidget.WeightShift`).
- The schema manager spells its version table `verions`; the model calls it `versions`.

## Model

| member | source | states |
|---|---|---|
| ModelIngestor.CenterWidthRecoverEdges | src/yt_napari/_model_ingestor.py:10-16 | `LeReToCenWid` (`_le_re_to_cen_wid`): for edges of equal length, center ∓ width/2 gives back the left and right edge |
| ModelIngestor.CenterWidthBroadcast | src/yt_napari/_model_ingestor.py:14-15 | `LeReToCenWid`: center/width succeed exactly when numpy can broadcast the edges (equal lengths or one of length 1) |
| ModelIngestor.NewLayerDomain | src/yt_napari/_model_ingestor.py:29-45 | ValueError when the edge lengths differ, or when the resolution length is neither 1 nor the edge length; success exactly otherwise |
| ModelIngestor.RepeatResolution | src/yt_napari/_model_ingestor.py:33-34 | a one-element resolution repeated n_d times has n_d copies of that element |
| ModelIngestor.LayerDomainCenterWidth | src/yt_napari/_model_ingestor.py:38-40 | a built domain keeps its edges, has center (le+re)/2 and width re−le |
| ModelIngestor.LayerDomainResolution | src/yt_napari/_model_ingestor.py:32-41 | the stored resolution is the given tuple, or its single entry on every axis |
| ModelIngestor.ExampleDomainBuilt | src/yt_napari/_model_ingestor.py:29-45 | edges 1000–2000 on three axes with resolution (10,) build a domain of resolution (10,10,10) and width 1000 on each axis |
| ModelIngestor.LayerDomainRepeatsResolution | src/yt_napari/_model_ingestor.py:32-45 | the example 3-axis domain with resolution (10,) stores (10,10,10) and needs no scaling |
| ModelIngestor.LayerDomainGridWidth | src/yt_napari/_model_ingestor.py:42 | pixel size times pixel count is the width on every axis |
| ModelIngestor.GridTimesResolution | src/yt_napari/_model_ingestor.py:42 | a pixel size computed as width/resolution, times the resolution on that axis, gives back the width |
| ModelIngestor.LayerDomainAspect | src/yt_napari/_model_ingestor.py:43-44 | aspect ratio is width/width[0] (its first entry is 1), and requires_scale holds iff some entry differs from 1 |
| ModelIngestor.RelativeToFirst | src/yt_napari/_model_ingestor.py:43 | dividing widths by a non-zero first width gives ratios that start at 1 and times width[0] give back each width |
| ModelIngestor.RatioNotOne | src/yt_napari/_model_ingestor.py:43-44 | ratios to a non-zero first width differ from 1 exactly where a width differs from the first |
| ModelIngestor.RequiresScaleIffUnequalWidths | src/yt_napari/_model_ingestor.py:43-44 | a layer needs rescaling iff its widths are not all equal |
| ModelIngestor.ScaleFormula | src/yt_napari/_model_ingestor.py:68-79 | `CalculateScale` (`calculate_scale`): scale[i] = other.grid_width[i] / ref.grid_width[i] · ref.aspect_ratio[i] |
| ModelIngestor.TranslationInPixels | src/yt_napari/_model_ingestor.py:81-90 | `CalculateTranslation` (`calculate_translation`): translation[i] · ref.grid_width[i] = other.left_edge[i] − ref.left_edge[i] |
| ModelIngestor.SelfAlignment | src/yt_napari/_model_ingestor.py:68-90 | against its own domain, translation is all zeros and scale is the aspect ratio |
| ModelIngestor.AlignToSelf | src/yt_napari/_model_ingestor.py:57-66 | every built domain meets the length conditions of the self-alignment |
| ModelIngestor.AlignedMismatch | src/yt_napari/_model_ingestor.py:100-101 | a scale or translation that cannot be computed raises ValueError before the kwargs change |
| ModelIngestor.AlignedKeys | src/yt_napari/_model_ingestor.py:103-107 | `Aligned` (the kwargs update of `align_sanitize_layer`): "scale" is written iff some scale entry ≠ 1, "translate" iff some entry ≠ 0; other keys keep their values |
| ModelIngestor.AlignedMetadata | src/yt_napari/_model_ingestor.py:109-111 | `Aligned`: alignment succeeds iff the metadata entry is absent or a dict; it then holds this reference under "_reference_layer" |
| ModelIngestor.AlignOwnLayer | src/yt_napari/_model_ingestor.py:92-111 | aligning the reference's own domain adds no translation, and adds a scale exactly when the domain requires one |
| ModelIngestor.AlignSanitizeLayer | src/yt_napari/_model_ingestor.py:92-114 | the layer's kwargs become the aligned ones; the array and type are returned unchanged and the domain is dropped |
| ModelIngestor.DistinctOthers | src/yt_napari/_model_ingestor.py:116-121 | with distinct dicts no other layer shares the dict of the layer being aligned, so aligning it leaves the others untouched |
| ModelIngestor.AlignSanitizeLayers | src/yt_napari/_model_ingestor.py:116-121 | layer by layer, in order: same length, and each kwargs dict aligned as a single layer would be |
| ModelIngestor.FirstSmallestUnique | src/yt_napari/_model_ingestor.py:447-455 | at most one index is the first of smallest volume |
| ModelIngestor.ChooseRefLayer | src/yt_napari/_model_ingestor.py:437-460 | "first_in_list" → layer 0; "smallest_volume" → the first layer of least width product (UnboundLocalError on no layers); any other method → ValueError |
| ModelIngestor.AlignLoadedLayers | src/yt_napari/_model_ingestor.py:431-432 | the loaded layers are aligned to the first; no layers → IndexError |
| ModelIngestor.CreateMetadataDict | src/yt_napari/_model_ingestor.py:162-170 | keys are the five standard ones plus the extras; extras win, standard values otherwise |
| ModelIngestor.MetadataMarksLayer | src/yt_napari/_model_ingestor.py:162-170 | the dict always has _yt_napari_layer, _data_range and _reference_layer; unless overridden they are True and (min, max) |
| ModelIngestor.MetadataWithoutExtra | src/yt_napari/_model_ingestor.py:162-170 | a dict with the standard keys and the standard values is the metadata dict built without extras |
| ModelIngestor.ConvertOpt | src/yt_napari/_model_ingestor.py:213-216 | re-expressing keeps None as None and a vector as a vector |
| ModelIngestor.MergeEdgeSummarizes | src/yt_napari/_model_ingestor.py:250-267 | `MergeEdge` (one branch of `update_edges`): merging an edge keeps the stored edge the component-wise min (left) or max (right) of all edges seen |
| ModelIngestor.ConvertSummarizes | src/yt_napari/_model_ingestor.py:211-216 | re-expressing in another unit keeps what a stored edge summarizes |
| ModelIngestor.PhysicalDomainTracker.Create | src/yt_napari/_model_ingestor.py:182-199 | ValueError exactly for "code_length" without a registry; otherwise nothing is tracked yet |
| ModelIngestor.PhysicalDomainTracker.UpdateUnitInfo | src/yt_napari/_model_ingestor.py:192-216 | "code_length" without a registry → ValueError; a change re-expresses every stored vector in the new unit, keeping its physical value |
| ModelIngestor.PhysicalDomainTracker.UpdateWidthAndCenter | src/yt_napari/_model_ingestor.py:287-290 | center/width are set from the current edges; a missing edge raises and changes nothing |
| ModelIngestor.PhysicalDomainTracker.UpdateEdges | src/yt_napari/_model_ingestor.py:241-270 | the new box is the left then right merge, with center/width recomputed only if an edge was given and update_c_w holds |
| ModelIngestor.PhysicalDomainTracker.TakeEdge | src/yt_napari/_model_ingestor.py:250-267 | one edge converted to the working unit, adopted when none is stored, otherwise merged by min/max |
| ModelIngestor.PhysicalDomainTracker.UpdateFromLayer | src/yt_napari/_model_ingestor.py:218-239 | exactly update_edges with the domain's two edges; grid width is not tracked |
| ModelIngestor.LeftEdgeIsLowest | src/yt_napari/_model_ingestor.py:253-257 | the tracked left edge lies, physically, at or below every left edge taken in |
| ModelIngestor.LeftEdgeAttained | src/yt_napari/_model_ingestor.py:253-257 | each component of the tracked left edge equals that of some left edge taken in |
| ModelIngestor.RightEdgeIsHighest | src/yt_napari/_model_ingestor.py:262-267 | the tracked right edge lies, physically, at or above every right edge taken in |
| ModelIngestor.RightEdgeAttained | src/yt_napari/_model_ingestor.py:262-267 | each component of the tracked right edge equals that of some right edge taken in |
| ModelIngestor.EnclosingCenterWidth | src/yt_napari/_model_ingestor.py:10-16 | the example enclosing domain 0–10 km has center 5 km and width 10 km |
| ModelIngestor.DomainTrackingExample | src/yt_napari/_model_ingestor.py:241-290 | tracking the three example domains gives the box 0–10 km with center 5 km and width 10 km |
| Vectors.MinAllIsLower | src/yt_napari/_model_ingestor.py:256 | the component-wise min of several vectors is at or below each of them |
| Vectors.MaxAllIsUpper | src/yt_napari/_model_ingestor.py:265 | the component-wise max of several vectors is at or above each of them |
| Vectors.ConvertKeepsPhysical | src/yt_napari/_model_ingestor.py:281-285 | converting to another unit keeps the physical value |
| Viewer.FindReferenceFirst | src/yt_napari/viewer.py:17-25 | `FindReference` (`_check_for_reference_layer`): the scan finds nothing iff every layer is passed over; otherwise it stops at the first marked layer with a non-None reference and returns it |
| Viewer.CheckForReferenceLayer | src/yt_napari/viewer.py:17-25 | the loop over the layer list returns what the first-layer scan finds |
| Viewer.ChosenReferenceNotNone | src/yt_napari/viewer.py:37-54 | the reference settled on is never None; it fails only on a malformed layer or a missing default |
| Viewer.ChosenReferenceFinite | src/yt_napari/viewer.py:37-54 | a settled reference has non-zero pixel sizes when every candidate has |
| Viewer.Scene.GetReferenceLayer | src/yt_napari/viewer.py:37-54 | an empty list clears the cache; a cached reference is kept on a non-empty list; otherwise a layer's reference, or a new one from the default, is cached and returned |
| Viewer.Scene.AddToScene | src/yt_napari/viewer.py:56-114 | caller "translate"/"scale" are dropped; name defaults to field[0]_field[1], colormap to "viridis"; metadata is the standard dict with the chosen reference |
| Viewer.Scene.AlignedImageCall | src/yt_napari/viewer.py:77-110 | a fresh image layer aligned to the chosen reference: alignment errors pass through; otherwise add_image gets the aligned translate/scale (None when not written), the caller's name or field[0]_field[1], the standard metadata, the colormap and the other kwargs |
| Viewer.NameIndex | src/yt_napari/viewer.py:555-557 | a name resolves to the first layer of that name, or to none |
| Viewer.Sanitized | src/yt_napari/viewer.py:523-567 | a name without a layer list, or one not found, gives ValueError; otherwise every resolved layer, and with check_linked every layer linked to one of them, and nothing else |
| Viewer.Scene.SanitizeLayers | src/yt_napari/viewer.py:523-567 | the loop over the given layers computes the sanitized set |
| Viewer.Scene.GetDataRange | src/yt_napari/viewer.py:569-621 | the least lower and greatest upper bound over the sanitized layers, stored range for yt-napari layers, data min/max otherwise; None for (+inf, −inf) with no layers |
| Viewer.Scene.RangeOf | src/yt_napari/viewer.py:611-621 | over a set of layers: the least lower and greatest upper bound when every layer's bounds can be read (None for an empty set), otherwise the error of some layer that cannot be read |
| Viewer.RangeExtend | src/yt_napari/viewer.py:613-619 | taking one more layer into the running min/max gives the range of the layers seen so far plus that one |
| Viewer.DataDictKeys | src/yt_napari/viewer.py:694-707 | the data dict handed to yt holds exactly the names of the exported layers |
| Viewer.DataDictLastWins | src/yt_napari/viewer.py:694-707 | a name maps to the array of the last exported layer of that name |
| Viewer.CheckFound | src/yt_napari/viewer.py:667-680 | true iff every id is in range and every name is the name of some layer |
| Viewer.CheckShapes | src/yt_napari/viewer.py:682-692 | true iff every requested layer has the shape of the first requested layer |
| Viewer.BuildDataDict | src/yt_napari/viewer.py:697-699 | the loop builds the data dict from layer name to array, later layers overwriting earlier ones |
| Viewer.LayersToYt | src/yt_napari/viewer.py:624-724 | RuntimeError for an unknown id or name or a shape differing from the first; otherwise the data dict, the first shape, bbox defaulting to the unit cube and length_unit to 1.0 |
| VersionComparison.GetVersionTuple | src/yt_napari/schemas/_version_comparison.py:8-13 | always exactly three entries |
| VersionComparison.ReleaseVersionTuple | src/yt_napari/schemas/_version_comparison.py:8-13 | a release (a, b, c, ...) has tuple (a, b, c) |
| VersionComparison.DevVersionTuple | src/yt_napari/schemas/_version_comparison.py:9-12 | (0, 1, "dev1") is padded to (0, 1, 0) |
| VersionComparison.SchemaFileNameVersion | src/yt_napari/schemas/_version_comparison.py:69-72 | `SchemaVersionTupleFromStr` (`_schema_version_tuple_from_str`): the version read back from "yt-napari_<v>.json" is v |
| VersionComparison.SchemaFileNameSegment | src/yt_napari/schemas/_version_comparison.py:70-72 | the part after "_" with ".json" removed, split on "." and converted by int, gives the three numbers of v |
| VersionComparison.SchemaPathVersion | src/yt_napari/schemas/_version_comparison.py:69 | only the last "/" segment counts: a schema file in any directory reads as its version |
| VersionComparison.LatestIsInstalled | src/yt_napari/schemas/_version_comparison.py:66-67 | `SchemaVersionTupleFromStr`: a reference containing "yt-napari_latest" reads as the installed version tuple |
| VersionComparison.SchemaVersionExample013 | src/yt_napari/schemas/_version_comparison.py:69-72 | "yt-napari_0.1.3.json" reads as (0, 1, 3) |
| VersionComparison.SchemaVersionExamplePath | src/yt_napari/schemas/_version_comparison.py:69-72 | "/blah/blah/yt-napari_2.1.0.json" reads as (2, 1, 0) |
| VersionComparison.SchemaFileValidity | src/yt_napari/schemas/_version_comparison.py:31-60 | `SchemaVersionIsValid` (`schema_version_is_valid`): a schema file of version v is valid iff v is not newer than the installed version, or the dev check is on and the install is a dev one |
| VersionComparison.NewerSchemaRefused | src/yt_napari/schemas/_version_comparison.py:43-59 | schema 1000.1.0 is refused without the dev check |
| VersionComparison.LatestIsValid | src/yt_napari/schemas/_version_comparison.py:16-33 | a reference to the latest schema is always valid |
| VersionComparison.DevSchemaIsValid | src/yt_napari/schemas/_version_comparison.py:27-29 | a yt-napari schema containing "dev" is valid whatever its numbers |
| Versions.VersionLessLexicographic | src/yt_napari/schemas/_version_comparison.py:33-43 | version order is lexicographic on (major, minor, micro) |
| Versions.TupleLessTotal | src/yt_napari/schemas/_version_comparison.py:33-43 | of two different tuples one is less than the other |
| Versions.ParseVersionString | src/yt_napari/schemas/_version_comparison.py:72 | splitting a version's text on "." and applying int gives its three numbers |
| Versions.ParseReleaseVersionString | src/yt_napari/schemas/_manager.py:29 | parsing the text of a version gives that version |
| Versions.ParseReleaseCanonical | src/yt_napari/schemas/_manager.py:84-85 | a parsed version's canonical text parses to the same version |
| Versions.VersionStringInjective | src/yt_napari/schemas/_manager.py:95 | different versions have different texts |
| SchemaManager.ValidatePrefix | src/yt_napari/schemas/_manager.py:33-38 | None → "napari-schema"; a prefix holding "_" → ValueError; otherwise the prefix unchanged |
| SchemaManager.DefaultPrefixValid | src/yt_napari/schemas/_manager.py:10 | the default prefix is accepted |
| SchemaManager.IsMaxOfAdd | src/yt_napari/schemas/_manager.py:29-31 | replacing the maximum only by a strictly greater version keeps it the greatest seen |
| SchemaManager.CheckedStep | src/yt_napari/schemas/_manager.py:25-31 | reading one more file keeps the record exact: its version under its prefix, the maximum the greatest of them |
| SchemaManager.CheckedGrows | src/yt_napari/schemas/_manager.py:28-31 | version sets only grow and maxima never decrease |
| SchemaManager.Manager.Open | src/yt_napari/schemas/_manager.py:11-20 | on success, versions[p] is exactly the version texts stored for p, and max_versions[p] the greatest of 0.0.0 and them |
| SchemaManager.Manager.CheckVersions | src/yt_napari/schemas/_manager.py:22-31 | a file whose stem does not split in two, or whose version does not parse, raises ValueError; otherwise the record covers every file; sets only grow and maxima never decrease |
| SchemaManager.Manager.TakeFile | src/yt_napari/schemas/_manager.py:26-31 | one file adds its version text to its prefix and raises the maximum only to a strictly greater version |
| SchemaManager.NextVersionNewer | src/yt_napari/schemas/_manager.py:87-95 | `NextVersion` (the increment step of `write_new_schema`): with any increment flag the next version is newer than the maximum; with none it is the maximum |
| SchemaManager.NextVersionExamples | src/yt_napari/schemas/_manager.py:87-95 | 0.0.0 → 0.0.1 → 0.0.2, then 0.1.2 with inc_minor and 1.1.2 with inc_major: lower parts are not reset |
| SchemaManager.ExplicitVersionIgnoresFlags | src/yt_napari/schemas/_manager.py:83-85 | an explicit version is written as given, whatever the maximum and flags |
| SchemaManager.FileNameEntry | src/yt_napari/schemas/_manager.py:40-43 | `FileName` (`_filename`) and `EntryOf` (the stem split of `_check_versions`): the file name of a prefix and version is read back as that prefix and version |
| SchemaManager.WrittenSchemaFound | src/yt_napari/schemas/_manager.py:25-31 | a written schema is found again under its prefix, with its version |
| SchemaManager.Manager.WriteNewSchema | src/yt_napari/schemas/_manager.py:45-106 | bad prefix → ValueError; an existing version without overwrite → FileExistsError and nothing written; otherwise exactly the new file is written |
| ReleaseValidation.CheckVersionString | repo_utilities/validate.py:13-21 | succeeds exactly when the text starts with "v" and, with every "v" removed, splits on "." into three int pieces, giving that text; no leading "v" → RuntimeError; a piece that is not an int → ValueError; not 3 pieces → RuntimeError |
| ReleaseValidation.ReleaseTagAccepted | repo_utilities/validate.py:13-21 | "v" + a version's text passes with that text |
| ReleaseValidation.TwoPartsRefused | repo_utilities/validate.py:19-21 | "v1.2" raises RuntimeError |
| ReleaseValidation.NonIntegerPieceRefused | repo_utilities/validate.py:17-18 | "v1.x.3" raises ValueError |
| ReleaseValidation.Validate | repo_utilities/validate.py:10-39 | passes iff the version checks pass and the version is among the Manager's "yt-napari" versions; otherwise RuntimeError (ValueError from parsing) |
| ReleaseValidation.WrittenReleasePasses | repo_utilities/validate.py:26-39 | a release whose schema file is stored passes the membership check |
| Strings.ParseInt | repo_utilities/validate.py:18 | int() succeeds exactly on an optional sign followed by decimal digits; ValueError otherwise |
| DsCache.DatasetCache.AddDs | src/yt_napari/_ds_cache.py:14-18 | the dataset is stored (overwriting) under its name and becomes the most recent; exists and get_ds then find it |
| DsCache.DatasetCache.MostRecent | src/yt_napari/_ds_cache.py:20-24 | None when nothing is recent, the entry under the recent name otherwise; KeyError when that name was removed |
| DsCache.DatasetCache.GetDs | src/yt_napari/_ds_cache.py:26-33 | the stored entry iff the name exists, else None |
| DsCache.DatasetCache.RmDs | src/yt_napari/_ds_cache.py:46-47 | only that name is removed (missing: no-op); the most recent name is kept |
| DsCache.DatasetCache.RmAll | src/yt_napari/_ds_cache.py:49-51 | empty cache, no most recent |
| DsCache.DatasetCache.CheckThenLoad | src/yt_napari/_ds_cache.py:35-61 | `ReferenceExists` (`reference_exists`) decides: a live cached dataset is returned unchanged; otherwise the loaded one, cached and made most recent only with in_memory_cache |
| Config.Merged | src/yt_napari/config.py:8-13 | the merged section has the section's keys and the default keys |
| Config.MergedKeepsAndFills | src/yt_napari/config.py:8-13 | existing settings are kept; missing ones get their default |
| Config.MergedEmpty | src/yt_napari/config.py:14-16 | an added section holds every default |
| Config.MergedIdempotent | src/yt_napari/config.py:6-17 | merging twice changes nothing more |
| Config.Restrict | src/yt_napari/config.py:9 | the defaults limited to the settings visited so far: exactly those keys with their default values |
| Config.MergedStep | src/yt_napari/config.py:9-13 | visiting one more default setting (set only when missing) gives the merge with one more default |
| Config.YtConfig.GetUpdatedConfig | src/yt_napari/config.py:6-17 | the same config is returned with its "yt_napari" section merged with the defaults, or added; other sections unchanged |
| GuiUtilities.SetDefault | src/yt_napari/_gui_utilities.py:13-16 | the default iff the variable is None, else the variable |
| GuiUtilities.LookupWithEntry | src/yt_napari/_gui_utilities.py:69-80 | storing an entry changes only that model/field |
| GuiUtilities.MagicPydanticRegistry.Register | src/yt_napari/_gui_utilities.py:27-80 | one entry is stored (overwriting) under model/field, missing args and kwargs replaced by () and {} |
| GuiUtilities.MagicPydanticRegistry.IsRegistered | src/yt_napari/_gui_utilities.py:82-97 | true iff model and field are keys; KeyError iff required and not registered |
| GuiUtilities.MagicPydanticRegistry.GetPydanticAttr | src/yt_napari/_gui_utilities.py:105-114 | unregistered → KeyError if required, RuntimeError if not; the call carries the stored factory, args and kwargs |
| GuiUtilities.EmbedInList | src/yt_napari/_gui_utilities.py:253-256 | a one-element list holding the value |
| GuiUtilities.AllListedKept | src/yt_napari/_gui_utilities.py:294-333 | registering a pair outside a list of pairs keeps each of their list entries |
| GuiUtilities.RegisterOwnWidget | src/yt_napari/_gui_utilities.py:286-292 | exactly one entry is stored, under model/field: the given widget factory with its arguments (missing ones empty), read back by the given reader, list handling off; earlier registrations and the embedded-list entries are kept |
| GuiUtilities.LookupOthers | src/yt_napari/_gui_utilities.py:69-80 | after `register`, the pair has the stored entry and every other pair keeps its lookup |
| GuiUtilities.RegisterAsLists | src/yt_napari/_gui_utilities.py:294-300 | every listed pair is registered with auto list handling and nothing else; other pairs keep their entries |
| GuiUtilities.RegisterYtDataModel | src/yt_napari/_gui_utilities.py:284-333 | every embedded pair has the list entry; both filename fields get get_file_widget named "filename" read by get_filename; file_list gets get_magicguidefault read by handle_str_list_edit; level and num_ghost_zones get get_int_box_widget named after the field, read by get_int_val |
| GuiUtilities.NewTranslator | src/yt_napari/_gui_utilities.py:336-337 | the module's translator has every embedded pair registered with auto list handling |
| GuiUtilities.SelectionContainerModel | src/yt_napari/_gui_utilities.py:356-365 | ValueError iff the type is not Region, Slice or CoveringGrid |
| WidgetReader.KeyOfInjective | src/yt_napari/_widget_reader.py:77-80 | different (type, counter) pairs give different keys |
| WidgetReader.LabelRoundTrip | src/yt_napari/_widget_reader.py:85-90 | the key read back from a drop-down label is the key |
| WidgetReader.InsertItem | src/yt_napari/_widget_reader.py:85 | Qt insertItem: placed at the index, or appended past the end |
| WidgetReader.Without | src/yt_napari/_widget_reader.py:91-95 | removes exactly the key |
| WidgetReader.WithoutDistinct | src/yt_napari/_widget_reader.py:91-95 | removal keeps the keys distinct |
| WidgetReader.YTReader.AddASelection | src/yt_napari/_widget_reader.py:76-87 | the counter grows by 1; an invalid type raises ValueError; otherwise a fresh key type_counter is stored in both dicts and the drop-down |
| WidgetReader.ConsistentFresh | src/yt_napari/_widget_reader.py:77-81 | the next key type_(counter+1) is not yet in use |
| WidgetReader.ConsistentBump | src/yt_napari/_widget_reader.py:78-79 | raising the counter keeps every stored key below it, so the bookkeeping stays consistent |
| WidgetReader.ConsistentAdd | src/yt_napari/_widget_reader.py:77-87 | storing the new key in the selection and type dicts and the drop-down keeps the bookkeeping consistent at the new counter |
| WidgetReader.YTReader.RemoveSelection | src/yt_napari/_widget_reader.py:89-95 | removes only the key the label stands for, if present; the type dict and counter are untouched |
| WidgetReader.GroupedAppend | src/yt_napari/_widget_reader.py:172-176 | one more selection is appended to the list of its type.lower() + "s" |
| WidgetReader.GroupKeysAppend | src/yt_napari/_widget_reader.py:175 | one more selection adds exactly its group name to the groups in use |
| WidgetReader.GroupedPrefixStep | src/yt_napari/_widget_reader.py:172-176 | one loop step appends the next selection's kwargs to its group, creating the group when absent |
| WidgetReader.InGroupHas | src/yt_napari/_widget_reader.py:172-176 | every selection's kwargs appear under its group |
| WidgetReader.InGroupAbsent | src/yt_napari/_widget_reader.py:172-176 | a group no selection belongs to is empty |
| WidgetReader.YTReader.SelectionsByType | src/yt_napari/_widget_reader.py:172-176 | the loop builds the grouping of selection kwargs by type, in insertion order |
| WidgetReader.YTReader.ValidateReaderModel | src/yt_napari/_widget_reader.py:170-196 | {"$schema": url, "datasets": [kwargs with "selections"]} |
| WidgetReader.NormalizeFileSelection | src/yt_napari/_widget_reader.py:327-334 | succeeds iff file_selection is a dict holding file_pattern, file_list and file_range; "" pattern, [""] list and (0,0,0) range become None and everything else is kept; TypeError for a non-dict file_selection, KeyError for a missing key |
| WidgetReader.NormalizeIdempotent | src/yt_napari/_widget_reader.py:327-334 | normalising twice changes nothing more |
| WidgetReader.YTReader.ValidateTimeSeriesModel | src/yt_napari/_widget_reader.py:310-346 | the normalised kwargs with "selections", under "timeseries" |
| PhasePlotWidget.IndexFieldsExactly | src/yt_napari/_widget_2d_plots.py:274-275 | index fields are exactly x, y, z and ones |
| PhasePlotWidget.AvailableLayerList | src/yt_napari/_widget_2d_plots.py:265-271 | the layer names, then x, y, z, ones |
| PhasePlotWidget.PyGet | src/yt_napari/_widget_2d_plots.py:175 | Python indexing: negative from the end, IndexError out of range |
| PhasePlotWidget.AddLayerDropdown | src/yt_napari/_widget_2d_plots.py:153-175 | choices get "None" first when allowed; the value defaults to the first choice; value_index past the end is clamped to the last |
| PhasePlotWidget.Combobox.ResetLayerCombobox | src/yt_napari/_widget_2d_plots.py:187-194 | new items; the index is clamped to the last item, and an index Qt cannot select selects nothing |
| PhasePlotWidget.Streams | src/yt_napari/_widget_2d_plots.py:217-227 | exactly the picked layers that are not index fields go to yt: every such pick is included and nothing else |
| PhasePlotWidget.StreamsAppend | src/yt_napari/_widget_2d_plots.py:220-227 | the streams of picks a then b are the streams of a followed by those of b, so pick order is kept |
| PhasePlotWidget.ClassifyPicks | src/yt_napari/_widget_2d_plots.py:218-227 | the loop gives one argument per pick (index field, stream or None) and collects the streams in order |
| PhasePlotWidget.Picks | src/yt_napari/_widget_2d_plots.py:210-215 | the four lookups succeed iff every index is valid; the first three are the layers at those indices; the weight is None exactly when the layer at its index is named "None", else that layer |
| PhasePlotWidget.RenderPhaseplot | src/yt_napari/_widget_2d_plots.py:208-229 | each pick becomes an index field, a stream or None; the stream names go to yt in order; IndexError for a bad index |
| PhasePlotWidget.WeightShift | src/yt_napari/_widget_2d_plots.py:203-215 | the weight used is the layer after the one shown, and picking the last layer raises IndexError |
| PhasePlotWidget.NoneWeightIsFirstLayer | src/yt_napari/_widget_2d_plots.py:203-215 | picking "None" as weight weights by the first layer |
| PhasePlotWidget.ValidateCmytName | src/yt_napari/_widget_2d_plots.py:305-308 | a name ending ".cmyt" becomes "cmyt." and a dot-free part; any other name is unchanged |
| PhasePlotWidget.CmytChoiceName | src/yt_napari/_widget_2d_plots.py:305-308 | the entry "<n>.cmyt" of a dot-free n becomes "cmyt.<n>" |
| PhasePlotWidget.ValidateCmytKeeps | src/yt_napari/_widget_2d_plots.py:308 | the example "notacmytcmap" is returned unchanged |
| PhasePlotWidget.CmytEntries | src/yt_napari/_widget_2d_plots.py:293-300 | exactly "<n>.cmyt" for each cmyt colormap n not ending "_r" |
| PhasePlotWidget.LexLeqTotal | src/yt_napari/_widget_2d_plots.py:302 | string order is total |
| PhasePlotWidget.LexLeqTransitive | src/yt_napari/_widget_2d_plots.py:302 | string order is transitive |
| PhasePlotWidget.Insert | src/yt_napari/_widget_2d_plots.py:302 | inserting into a sorted list keeps it sorted and adds exactly that element |
| PhasePlotWidget.SortByKey | src/yt_napari/_widget_2d_plots.py:302 | sorted by lower-cased name and a permutation of the input |
| PhasePlotWidget.GetCmapChoices | src/yt_napari/_widget_2d_plots.py:278-302 | the base colormaps and the cmyt entries, sorted case-insensitively |

## Left out

- I/O, logging, Qt/magicgui/napari widgets, threads, and every yt call are not modelled. Sampling, `yt.load`, `load_uniform_grid`, `add_image` and `link_layers` are not modelled. Where their results matter they are parameters or returned records.
- Floating point: vectors are real numbers. NaN and infinity are not modelled. Three conditions therefore exclude division by zero: `FiniteDomainInputs` (zero pixel counts, zero first width), `NonZero` (a zero reference pixel size) and `FiniteReferences`. `get_data_range`'s ±inf seed is `None`.
- numpy broadcasting is modelled only for length-1 vectors, and only in center/width and in the scale and translation vector arithmetic.
- unyt: a unit is a name and a positive factor to a base length. Registries are opaque, so "code_length" conversion is a factor like any other.
- ModelIngestor.ImageArray: an array is known only by its shape and min/max, so the min of an empty array is not modelled.
- ModelIngestor.AlignSanitizeLayers: kwargs dicts shared by several layers are covered only by the per-layer contract. The entries after a failure partway are stated only for distinct dicts.
- ModelIngestor.PhysicalDomainTracker.Create: the default unit "kpc" and the `unit=None` path of `update_unit_info` before any unit is set are not modelled separately.
- The `_linear_rescale` and `link_to` options of the scene, and the data rescaling in `_add_to_scene`, are not modelled.
- Viewer: a metadata value under "_reference_layer" that is not a reference layer gives AttributeError. The model does not track which Python type it has.
- Viewer: napari's layer list lookup and link registry are parameters (`layerList`, `links`).
- Strings.ParseInt: int() of text with surrounding whitespace or underscores between digits is not accepted, although Python accepts it.
- Versions.ParseRelease: packaging.Version is restricted to a.b.c release texts. Pre-releases, epochs and local parts raise ValueError here.
- SchemaManager: the directory is a map from file name to content. The PosixPath prefix of `_filename`, `expanduser` and the file-system read are dropped.
- SchemaManager: reading a missing prefix from the defaultdicts creates a key. The model reads 0.0.0 or the empty set without adding one.
- SchemaManager.Manager.CheckVersions: after a failing file, the versions and maxima are stated only as grown from the start. What exactly was recorded before the failure is not stated.
- ReleaseValidation.Validate: the docs and JSON-schema comparisons after the membership check (lines 41-91) are not modelled.
- DsCache: weak-reference liveness is a parameter set `alive`, and `yt.load` a parameter `loaded`.
- GuiUtilities: `add_pydantic_to_container`, `get_pydantic_kwargs` and the magicgui widget factories are not modelled. Models and factories are known by name.
- WidgetReader: widget values are a function from selection key to request value. The counter-keyed dicts are modelled, not the widgets.
- PhasePlotWidget: magicgui's own check of a ComboBox value against its choices is not modelled.
- PhasePlotWidget.GetCmapChoices: the order among names with equal lower-cased text is not stated, although the insertion keeps input order as Python's stable sort does.
- PhasePlotWidget: the colormap and callback widgets, the canvas and the yt phase-plot call are not modelled.
