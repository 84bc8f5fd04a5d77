# FlickTools core in Dafny

FlickTools is an ArcGIS Pro Python toolbox. Most of it is glue around arcpy. This
project models the part that makes decisions of its own and proves properties of
that model.

- **`Table`, `FeatureClass` and `Workspace` wrappers** (`utils/models.py`), in `models.dfy`:
  - how the stored query is combined with a per-call `where_clause`;
  - how a field list is expanded and validated before a cursor opens, and which cursor request follows;
  - the count cache behind `len()`;
  - the `__getitem__` dispatch on OIDs, field names, field lists and OID lists;
  - the `TOP`/`ORDER BY`/`GROUP BY`/`DISTINCT` clause builders and their `;` guard;
  - set algebra over field and child names;
  - the workspace's filtered dictionaries of children, which are opened lazily on first access and then cached.
- **Shared helpers** (`utils/arcpy_tools.py`, `utils/archelp.py`), in `arcpytools.dfy` and `archelp.dfy`: row zipping, the `.gdb` search and its name filter, message level normalisation, parameter filtering, the insert count, `print_dict`, the filename sanitiser and the `Parameters` container.
- **The US state tables** (`utils/constants.py`, `utils/utilities.py`), in `constants.dfy` and `utilities.dfy`: the 50-entry dictionaries, their sorted lists, both lookups and the tab helper.
- **The environment context manager** (`utils/environment.py`), in `environment.dfy`: on entry it snapshots `arcpy.env` and overlays the fields that are set; on exit it writes the snapshot back.
- **The tool loader** (`utils/reloader.py`), in `reloader.dfy`: the module paths, the class-name split and the placeholder for a tool that fails to import.
- **Three tools' string logic**, each in its own file:
  - the watershed pick list, its labels and the extent filter of `tools/map/ZoomToHUC_map.py` (`zoomtohuc.dfy`);
  - the output suffix, the where clause and the distance split of `tools/production/VertexBuffer.py` (`vertexbuffer.dfy`);
  - the field selection and per-field report blocks of `tools/data/FieldDomains_data.py` (`fielddomains.dfy`).

Python's own behaviour that the code relies on is defined once in support modules:
- `str.split`/`join`, `lower`, `replace`, `ljust` and integer formatting in `text.dfy`;
- string ordering and `sorted` in `sorting.dfy`;
- dictionaries built by comprehension (the last value for a key wins, the first occurrence fixes the order) in `dicts.dfy`;
- `Option`, `Result`, Python's `None`-or-string values and the exceptions in `wrappers.dfy`.

arcpy is treated as an opaque store. What it would report (field lists, OID sets, row counts, directory and dataset listings, whether a setting is read-only) is passed to the model as parameters.

The model takes the form of the source. Code that updates state in place is imperative Dafny:
- `Table` and `Workspace` are classes whose methods modify their fields;
- the environment is a class whose `Enter` and `Exit` loop over settings;
- `get_databases`, `insert_rows`, `Parameters.__init__` and the report loop of the Field Domains tool are loop methods.

Each method is proved against a specification function, and the properties are proved as lemmas about those functions. Pure code is functions and lemmas.

## Model

| member | source | states |
|---|---|---|
| Models.HandleQueries | utils/models.py:139-144 | a stored query and a call clause give `(query) AND (where)`; a call clause alone is used as is; with no call clause the stored query applies, possibly None; the result filters (is truthy) exactly when the stored query or the call clause does |
| Models.HandleQueriesKeepsBoth | utils/models.py:139-144 | neither filter is lost: a truthy stored query heads the rendered filter, a call clause ends it, and either one alone is the whole filter |
| Models.ListedNames | utils/models.py:59-60 | `fieldnames` from `ListFields` lists every reported name exactly once, in the order of first occurrence, and is the listing itself when no name repeats |
| Models.Fieldnames | utils/models.py:440 | a table's field names are the listed ones; a feature class replaces its shape field, at one position, by `SHAPE@` and changes nothing else |
| Models.FieldnamesAreValid | utils/models.py:62-73 | every name in `fieldnames` is in `valid_fields` (including `SHAPE@` for a feature class), so the default field list always validates |
| Models.CursorSpecAccepts | utils/models.py:153-157 | a cursor opens iff the field list is `ALL_FIELDS`, `["*"]` or all valid fields and the type is search/update/insert; the defaults expand to `fieldnames`; only search and update carry the composed where clause, and insert keeps no such keyword |
| Models.Table.Cursor | utils/models.py:170-195 | the request is the one `CursorSpec` decides, and `_updated` becomes set exactly when an update or insert cursor opens; a search leaves it alone |
| Models.Table.SearchCursor | utils/models.py:354-360 | a search cursor opens iff the field list validates; it carries the composed where clause and the caller's `sql_clause`, and the default field lists expand to `fieldnames` |
| Models.LenStep | utils/models.py:200-209 | a queried table answers its stored count without touching the cache; otherwise it answers `record_count`, recounted and with `_updated` cleared when the table was updated |
| Models.LenStepStable | utils/models.py:200-209 | asking `len()` twice in a row gives the same answer and leaves the cache as the first call left it |
| Models.Table.Len | utils/models.py:200-209 | the answer and the new cache are exactly `LenStep` of the old cache |
| Models.Table.constructor | utils/models.py:55-81 | a new table has no query, is not queried or updated, caches the `GetCount` total, holds all OIDs and lists each field name once |
| Models.Table.DeleteQuery | utils/models.py:102-108 | deleting the query clears it and `queried`, and restores the OID set to all rows; the counts are untouched |
| Models.Table.SetQuery | utils/models.py:88-100 | as written: the query is stored even when falsy or when the trial search fails (which only warns), the table becomes queried and updated, and the stored count keeps its old value; the id set becomes the ids the query selects, or, when that last search raises, the error is returned and the id set stays as before that line (the old one, or all ids after a falsy query's delete) |
| Models.Table.SetQueryCorrected | utils/models.py:88-100 | as intended: a falsy query clears the filter and stops; a query whose trial search fails only warns and leaves the previous filter, flags and counts as they were; otherwise the stored count is the number of selected rows. Each call keeps "a queried table's count equals its OID set's size" once it holds, and establishes it unless the trial fails |
| Models.Table.GetItemOutcome | utils/models.py:211-237 | dispatch is int, then str, then field list, then OID list; it succeeds iff the OID is visible, the name is a field name, or the list is all valid fields or all ints; an OID reads `OID = n` under the query and an OID list reads `OID IN (...)` under the query |
| Models.IdListRoundTrip | utils/models.py:234 | the comma-joined OID list splits back into as many pieces as ids, each reading back as its id |
| Models.Table.ClauseGuard | utils/models.py:302-308 | a clause runs iff the truthy field is a valid field and neither truthy prefix nor postfix holds `;`; what runs is a search cursor over `fieldnames` with exactly that `sql_clause`, free of `;` |
| Models.Table.Clause | utils/models.py:302-308 | a clause that runs has a valid (or falsy) field and is a search with exactly `(prefix, postfix)` as its `sql_clause`, neither holding `;` |
| Models.Table.Sort | utils/models.py:316-323 | a non-int truthy `top` fails; a sort that runs has a `;`-free field and a postfix starting `ORDER BY field ` that ends in `DESC` exactly when reversed |
| Models.Table.DSort | utils/models.py:325-326 | a descending sort that runs ends its postfix in `DESC` |
| Models.Table.ASort | utils/models.py:328-329 | an ascending sort that runs does not end its postfix in `DESC` |
| Models.Table.GroupByClause | utils/models.py:331-338 | `group_by` runs exactly for an int or falsy `top`, a valid or empty field and no `;` in it; then it emits `TOP n` only for a non-zero int and the postfix `GROUP BY field` |
| Models.Table.DistinctClause | utils/models.py:340-344 | `distinct` runs exactly for a valid or empty field without `;`, with the prefix `DISTINCT field` and no postfix |
| Models.PostfixFacts | utils/models.py:322 | the sort postfix starts with `ORDER BY field `, holds `;` only through the field, and ends in `DESC` exactly when reversed |
| Models.TopPrefixFacts | utils/models.py:317-321 | the `TOP` prefix is present exactly for a non-zero int and never holds `;` |
| Models.Table.SortClause | utils/models.py:316-329 | a sort fails exactly for a non-int truthy `top`, an unknown field or a `;` in the field; otherwise it emits `TOP n` only for a non-zero int, orders by the field, and says `DESC` exactly when reversed |
| Models.Table.Union | utils/models.py:286-288 | `a | b` holds exactly the field names of either table |
| Models.Table.Intersection | utils/models.py:290-292 | `a & b` holds exactly the field names of both tables |
| Models.Table.Equal | utils/models.py:294-296 | tables equal under `==` have no field the other lacks, and their union is their intersection |
| Models.Table.Difference | utils/models.py:298-300 | `a - b` holds exactly the field names of the first table only |
| Models.NameUnion | utils/models.py:286-288 | the union holds the names of either table |
| Models.NameIntersection | utils/models.py:290-292 | the intersection holds the names of both tables |
| Models.NameDifference | utils/models.py:298-300 | the difference holds the names of the first table only |
| Models.NameAlgebra | utils/models.py:286-300 | the union splits into the two differences and the intersection, which are disjoint; union and intersection are symmetric; equal name lists have no difference |
| Models.AsDict | utils/models.py:536-562 | one dictionary per cursor row |
| Models.AsDictAt | utils/models.py:536-562 | with distinct field names, each row's dictionary maps every field to that row's value in its column |
| Models.StaleQueryCount | utils/models.py:93-98 | as written, setting a query that selects 2 of 3 rows on a fresh table makes `len()` report 0 |
| Models.QueryCountCorrected | utils/models.py:93-98 | with the corrected setter the same query makes `len()` report 2 |
| Models.Kept | utils/models.py:464 | a name is kept iff the filter is `ALL` or a non-empty list holding it |
| Models.EntriesKeys | utils/models.py:472-478 | a key of a filtered comprehension is the prefix followed by a listed name the filter keeps |
| Models.EntryKeys | utils/models.py:460-485 | the keys of a run of pairs, position by position (also the keys `print_dict` pads) |
| Models.Put | utils/models.py:473 | `d[k] = v` stores the value and keeps every key in its place, a new one going last |
| Models.PutAll | utils/models.py:472-479 | `update` keeps the old keys, adds the new ones, and each value is the old one or one of the pairs naming its key; key order stays a listing of the keys |
| Models.TopDictsOrdered | utils/models.py:460-485 | the dataset, top-level feature class and table dictionaries each list their keys once, in order |
| Models.AddNested | utils/models.py:472-479 | the loop over datasets adds each dataset's feature classes in turn, keeping the key order valid |
| Models.WithDatasetsKeys | utils/models.py:472-479 | the nested additions add exactly the keys `ds/fc` for a dataset in the loop and a kept feature class it lists |
| Models.TopLevelKeys | utils/models.py:460-471 | a top-level dictionary's keys are exactly the listed names the filter keeps |
| Models.TopLevelPaths | utils/models.py:460-471 | each top-level child is stored with the path `join(workspace, name)` |
| Models.EntryPath | utils/models.py:462 | a pair of a top-level comprehension maps a name to that name joined to the workspace path |
| Models.WorkspaceKeys | utils/models.py:460-485 | datasets and tables are present iff listed and kept; a feature class iff listed at the top and kept, or as `ds/fc` for a kept dataset that lists a kept `fc` |
| Models.FeatureClassKeys | utils/models.py:466-479 | the feature class keys are the kept top-level names plus `ds/fc` under every kept dataset, and the loop runs over exactly the kept datasets |
| Models.AllPending | utils/models.py:460-485 | before any access every child holds its path, under exactly the keys of the dictionary of paths and in its key order |
| Models.Open | utils/models.py:507 | given what arcpy describes for that kind (an OID field among the fields, and a distinct shape field only for a feature class), opening builds a fresh table wrapper of the requested kind over that path |
| Models.UpdateOrdered | utils/models.py:507 | replacing a child in place keeps the keys and their order |
| Models.FeatureDataset.constructor | utils/models.py:444 | a dataset wrapper keeps its path |
| Models.Workspace.constructor | utils/models.py:448-486 | the three dictionaries are those of the filtered listing, all children still paths, with their key order |
| Models.Workspace.Len | utils/models.py:488-489 | the length is feature classes plus tables plus datasets |
| Models.Workspace.GetItem | utils/models.py:500-517 | feature classes are searched first, then tables, then datasets; a pending child is replaced in place by a fresh wrapper of the right kind, needing a shape field only when it is a feature class; a loaded one is returned as it is; an unknown name is a KeyError and changes nothing; no key is added or removed |
| Models.LoadsOnce | utils/models.py:500-517 | asking for the same name twice gives back the same result, whatever arcpy would describe the second time, so the wrapper object built on first access is the one returned afterwards |
| Models.Workspace.Children | utils/models.py:521 | `(*featureclasses, *tables)` names exactly the feature classes and the tables |
| Models.Workspace.Equal | utils/models.py:519-521 | workspaces equal under `==` have no child the other lacks, and their union is their intersection |
| Models.Workspace.Union | utils/models.py:523-525 | `a | b` holds exactly the feature classes and tables of either workspace |
| Models.Workspace.Intersection | utils/models.py:527-529 | `a & b` holds exactly the feature classes and tables both workspaces have |
| Models.Workspace.Difference | utils/models.py:531-533 | `a - b` holds exactly the feature classes and tables of the first workspace that the second lacks |
| Models.DistinctCard | utils/models.py:488-489 | a dictionary has as many keys as its key order has entries |
| Models.DistinctSetCard | utils/models.py:488-489 | a list without repeats has as many distinct elements as positions |
| ArcpyTools.RowToDict | utils/arcpy_tools.py:23-24 | one dictionary per row; with distinct field names each maps `fields[i]` to `row[i]` |
| ArcpyTools.RowsZip | utils/arcpy_tools.py:23-24 | with distinct field names, every row's dictionary maps each field to the value in its own column |
| Dicts.ZipDict | utils/arcpy_tools.py:24 | `dict(zip(fields, row))` has exactly the fields up to the shorter list as keys |
| Dicts.ZipDictAt | utils/arcpy_tools.py:24 | with distinct field names, each field maps to the value at its own position |
| ArcpyTools.NameFilter | utils/arcpy_tools.py:41 | the name filter keeps exactly the paths whose lower-cased form ends with the name |
| ArcpyTools.GetDatabases | utils/arcpy_tools.py:35-42 | the walk loop followed by the filter returns exactly `Databases` of the walk |
| ArcpyTools.GdbInExactly | utils/arcpy_tools.py:37-39 | one walk step contributes exactly its subdirectories ending in `.gdb`, joined to the root |
| ArcpyTools.FoundExactly | utils/arcpy_tools.py:36-39 | the walk finds exactly the `.gdb` subdirectories of the visited directories |
| ArcpyTools.DatabasesExactly | utils/arcpy_tools.py:36-41 | a path is returned iff it joins a walked directory to a `*.gdb` subdirectory and, for a name other than `"None"`, its lower-cased form ends with that name; every result ends in `.gdb` |
| ArcpyTools.NormalLevel | utils/arcpy_tools.py:98-99 | the normalised level is always message, warning or error |
| ArcpyTools.NormalLevelCases | utils/arcpy_tools.py:98-99 | the level is warning or error exactly when its lower-cased form is; normalising is idempotent |
| ArcpyTools.MsgLevels | utils/arcpy_tools.py:97-111 | levels match case-insensitively and anything unknown is a plain message; the echo has the `WARNING: `/`ERROR: ` prefix exactly for those channels and ends with the message |
| ArcpyTools.GetParams | utils/arcpy_tools.py:124-129 | the result holds exactly the parameter names listed (restricted to the filter when it is non-empty), each mapped to a parameter of that name |
| ArcpyTools.Chosen | utils/arcpy_tools.py:125 | the filtered parameters are exactly those whose name is in the filter |
| ArcpyTools.GetParamsLast | utils/arcpy_tools.py:124-127 | with or without a filter, when several kept parameters share a name the one listed last is the one kept |
| Dicts.DictFrom | utils/arcpy_tools.py:125-127 | every item's key is present, and each key maps to an item with that key |
| Dicts.DictFromLast | utils/arcpy_tools.py:125-127 | the value kept for a key is the item at the last position with that key |
| Dicts.KeyOrder | utils/models.py:59-60 | the keys of a comprehension-built dictionary appear once each and are exactly its keys |
| Dicts.KeyOrderFirstSeen | utils/models.py:59-60 | the keys are in order of first occurrence: each key is seen before any occurrence of a later key |
| Dicts.KeyOrderDistinct | utils/models.py:59-60 | with no repeated key the key order is the items' keys, position by position |
| Dicts.IndexOf | utils/constants.py:30 | `list.index` gives the first position holding the value |
| ArcpyTools.InsertRows | utils/arcpy_tools.py:185-192 | every row goes to the cursor in order and the count returned is the number of rows |
| ArcpyTools.MaxLen | utils/arcpy_tools.py:250 | the padding base is at least every key's length and equals some key's length |
| ArcpyTools.DictLines | utils/arcpy_tools.py:254 | one line per entry, in order |
| ArcpyTools.DictLineLayout | utils/arcpy_tools.py:254 | a line is the indentation, the key, spaces up to the padding width, `": "`, the value and a newline |
| ArcpyTools.PrintDictAligned | utils/arcpy_tools.py:250-254 | every key is shorter than the computed padding, so `": "` lands in the same column on every line |
| ArcpyTools.ConcatLines | utils/arcpy_tools.py:256 | the printed text is the lines one after another, each entry contributing exactly its line |
| ArcpyTools.PrintDictText | utils/arcpy_tools.py:248-256 | `print_dict` of a non-empty dictionary prints each entry's aligned line between the lines of the entries before and after it; an empty one is a ValueError from `max` |
| ArcHelp.SanitizeFilename | utils/archelp.py:43-45 | the sanitised name holds only alphanumerics, space, `_` and `-`, and is no longer than the input |
| ArcHelp.SanitizeIsSubsequence | utils/archelp.py:45 | the sanitised name is the input with some characters deleted, order kept |
| ArcHelp.SanitizeCounts | utils/archelp.py:45 | every allowed character occurs in the result exactly as often as in the input, and no other character occurs |
| ArcHelp.SanitizeConcat | utils/archelp.py:45 | sanitising a name split in two gives the two sanitised pieces joined, so each character is kept or dropped on its own |
| ArcHelp.SanitizeFixedPoint | utils/archelp.py:45 | a name made only of allowed characters comes back unchanged |
| ArcHelp.SanitizeIdempotent | utils/archelp.py:45 | sanitising twice is sanitising once |
| ArcHelp.Parameters.constructor | utils/archelp.py:29-33 | `_parameters` is stored first, then one attribute per parameter name, later ones overwriting |
| ArcHelp.Parameters.Get | utils/archelp.py:40-41 | a lookup succeeds iff the name is an attribute, and then returns that attribute; otherwise KeyError |
| ArcHelp.AttributeKeys | utils/archelp.py:31-33 | the attribute names are `_parameters` and every stored parameter's name |
| ArcHelp.AttributeOfLast | utils/archelp.py:31-33 | a name holds the parameter stored last under it |
| ArcHelp.AttributeList | utils/archelp.py:30 | `_parameters` is the whole list unless a parameter carries that name |
| ArcHelp.AttributesLookup | utils/archelp.py:29-33 | after any prefix of the loop, a name is present iff it is `_parameters` or a stored parameter's name, and it holds the last such parameter |
| ArcHelp.ParametersLookup | utils/archelp.py:29-41 | `Parameters(ps)[n]` is the parameter named `n` listed last, the list itself for `_parameters`, and a KeyError for any other name |
| Constants.TableShape | utils/constants.py:12-20 | the key and value lists each have 50 entries |
| Constants.AbbrsDistinct | utils/constants.py:12-20 | no abbreviation occurs twice |
| Constants.AbbrsPositioned | utils/constants.py:12-20 | each abbreviation's code determines its position, which is what makes the keys distinct |
| Constants.NamesIncreasing | utils/constants.py:12-20 | the names are listed in strictly increasing order, so no name repeats |
| Constants.NamesAdjacent | utils/constants.py:12-20 | each name is below the next under Python's string order |
| Constants.StateAbbr | utils/constants.py:24-30 | a known name gives the abbreviation at its own position; any other argument comes back unchanged |
| Constants.StateName | utils/constants.py:32-35 | a known abbreviation gives the name at its own position; any other argument comes back unchanged |
| Constants.NameAbbrRoundTrip | utils/constants.py:24-35 | `STATE_NAME(STATE_ABBR(n)) == n` for every known name |
| Constants.AbbrNameRoundTrip | utils/constants.py:24-35 | `STATE_ABBR(STATE_NAME(a)) == a` for every known abbreviation |
| Constants.SortedNamesAreValues | utils/constants.py:22 | `STATE_NAMES` equals the values in dictionary order, the literal being already sorted |
| Utilities.Tabs | utils/utilities.py:4-11 | `TABS(k)` is `5*k` spaces, and empty for a negative count |
| Utilities.StateAbbr | utils/utilities.py:37-42 | `_STATES[name]` for a known name, the argument unchanged otherwise |
| Utilities.StateName | utils/utilities.py:30-35 | the name whose value is the abbreviation for a known one, the argument unchanged otherwise |
| Utilities.NameAbbrRoundTrip | utils/utilities.py:30-42 | `STATE_NAME(STATE_ABBR(n)) == n` for every key of `_STATES` |
| Utilities.AbbrNameRoundTrip | utils/utilities.py:30-42 | `STATE_ABBR(STATE_NAME(a)) == a` for every value of `_STATES` |
| Utilities.AgreesWithConstants | utils/utilities.py:14-42 | both copies of the table give the same lookups on every argument |
| Utilities.SortedLists | utils/utilities.py:24-25 | `STATE_NAMES` is the keys in their own order, and `STATE_ABBRS` is the same list as in the constants module |
| Sorting.Sort | utils/constants.py:21-22 | `sorted` returns an ordered permutation of its input |
| Sorting.SortBy | utils/constants.py:21-22 | the general form behind `Sort` (which is `SortBy` with the identity key): the result is ordered by the key and is a permutation of the input |
| Sorting.InsertBy | tools/data/FieldDomains_data.py:63 | the insertion step keeps the list ordered and adds exactly the one element |
| Sorting.SortedUnique | utils/constants.py:21-22 | two ordered lists with the same elements are equal, so `sorted` has one answer |
| Sorting.BelowTransitive | utils/constants.py:21-22 | Python's `<` on strings is transitive |
| Sorting.BelowTotal | utils/constants.py:21-22 | any two strings are equal or one is below the other |
| Sorting.BelowAsymmetric | utils/constants.py:21-22 | a string below another is not above it, nor equal to it |
| Sorting.IncreasingDistinct | utils/constants.py:21-22 | a strictly increasing list has no repeated element |
| Environments.GeoprocessingEnv.SetAttr | utils/environment.py:249 | `setattr` writes only an accepted value; a read-only setting or a rejected value leaves the environment as it was |
| Environments.Snapshot | utils/environment.py:244 | `dict(env)` pairs every setting with its current value, in order, so writing it back leaves the environment as it is, whatever is read-only or refused |
| Environments.Settings | utils/environment.py:169-241 | a fresh dataclass has each field set to its keyword's value, or `UNSET`; its set fields are exactly the given keywords that name fields, with their values |
| Environments.CheckKeywords | utils/environment.py:169-241 | the dataclass constructor accepts the keywords exactly when each names a field, `_existing_env` or a setting; otherwise it raises a TypeError naming a keyword that is neither |
| Environments.Environment.constructor | utils/environment.py:169-241 | for keywords `CheckKeywords` accepts, a new environment has those settings, and `_existing_env` is the given saved environment or `UNSET` when not given |
| Environments.Environment.Enter | utils/environment.py:243-253 | the whole environment is saved before anything is written, and the result is the overlay of the set fields |
| Environments.OverlayChanges | utils/environment.py:245-253 | entering keeps the set of settings, and any setting it changes is writable, set on the dataclass to that value, and accepted |
| Environments.Environment.Exit | utils/environment.py:255-263 | every saved value is written back unless refused, then the snapshot is forgotten; without a snapshot it raises AttributeError and changes nothing |
| Environments.RestoreAt | utils/environment.py:256-262 | a setting named once in the snapshot ends with its saved value unless the environment refuses it |
| Environments.RestoreOthers | utils/environment.py:256-262 | settings the snapshot does not name keep their value |
| Environments.EnterExitRestores | utils/environment.py:243-263 | entering then leaving restores every setting, except a writable one whose own saved value the environment rejects |
| Environments.SetItems | utils/environment.py:265-267 | `repr` has at most one `k=v` piece per field |
| Environments.SetFields | utils/environment.py:266 | the set fields are exactly the fields that are not `UNSET` |
| Environments.SetItemsAreSetFields | utils/environment.py:265-270 | `repr` lists exactly the fields that are not `UNSET`, each as `k=v`, in declaration order |
| Environments.FreshRepr | utils/environment.py:265-270 | a fresh environment's `repr` lists exactly the keywords it was given |
| Environments.KeywordSettings | utils/environment.py:169-241 | a field carries a value exactly when its keyword was given |
| Reloader.LastSegment | utils/reloader.py:17 | the class name is a dot-free suffix of the module path |
| Reloader.LastSegmentOf | utils/reloader.py:17 | for `prefix.tool` with a dot-free `tool`, the class name is `tool` |
| Reloader.PlaceholderTool | utils/reloader.py:5-14 | the placeholder class is named `_BrokenImport` whatever the tool, its `__name__` class attribute (what instances see) is `{tool}_BrokenImport`; it sits in the broken-tools category, is labelled with the tool name then the exception, has no space in its alias, and describes the traceback |
| Reloader.AliasDropsSpaces | utils/reloader.py:12 | the alias is the label with its spaces removed |
| Reloader.GetModule | utils/reloader.py:16-25 | a load that succeeds gives the class named after the path's dot-free last segment; one that raises gives the `_BrokenImport` placeholder whose `__name__` attribute names that tool, with that error, never an exception |
| Reloader.ImportTools | utils/reloader.py:27-37 | one entry per listed tool, each the outcome of `get_module` on its path, and a placeholder exactly where that import raised |
| Reloader.PathsCount | utils/reloader.py:32-37 | there is one module path per listed tool |
| Reloader.PathsAt | utils/reloader.py:32-37 | the `j`-th tool of the `i`-th submodule sits after all earlier submodules' tools and has the path `base.sub.tool` |
| Reloader.ImportToolsAt | utils/reloader.py:27-37 | the list has one entry per listed tool; each is the class named `tool` from `base.sub.tool`, or a placeholder whose `__name__` attribute is `{tool}_BrokenImport` |
| ZoomToHuc.LayerNumbering | tools/map/ZoomToHUC_map.py:25 | the levels are exactly `HUC{2k}` for `k` in 1..8, and level `HUC{2k}` is layer `k` |
| ZoomToHuc.LevelsHaveNoComma | tools/map/ZoomToHUC_map.py:25 | no level name holds a comma, and every layer is between 1 and 8 |
| ZoomToHuc.StateFilter | tools/map/ZoomToHUC_map.py:84 | the filter is `states LIKE '%` + abbreviation + `%'` |
| ZoomToHuc.Request | tools/map/ZoomToHUC_map.py:82-88 | the request targets the layer, filters on the abbreviation, and its out-fields split into the lower-cased level and `name` |
| ZoomToHuc.WatershedQuery | tools/map/ZoomToHUC_map.py:79-88 | an unknown level is a KeyError; otherwise the layer is the level's, the state filter holds `STATE_ABBR(state)`, and the out-fields are the level lower-cased and `name` |
| ZoomToHuc.Labels | tools/map/ZoomToHUC_map.py:92 | one `"{name} [{code}]"` label per watershed, in the service's order, each reading back as its watershed's code when that holds no space |
| ZoomToHuc.Refresh | tools/map/ZoomToHUC_map.py:92-94 | the pick list is the labels sorted, each once per watershed, and no value is chosen |
| ZoomToHuc.UpdateParameters | tools/map/ZoomToHUC_map.py:75-97 | the list is rebuilt, sorted and with no value chosen, only when the state or level changed, the level is known and the request answered; an unknown level or a failed request is swallowed and the list stays as it was |
| ZoomToHuc.InnerSlice | tools/map/ZoomToHUC_map.py:145 | `s[1:-1]` is `s` without its first and last character, and empty for a shorter string |
| ZoomToHuc.ParseLabel | tools/map/ZoomToHUC_map.py:145 | reading a label back gives its code, whatever the name, when the code holds no space |
| ZoomToHuc.ChoicesParse | tools/map/ZoomToHUC_map.py:92-94 | every entry of a refreshed pick list reads back as the code of a watershed with that label |
| ZoomToHuc.ExtentFilter | tools/map/ZoomToHUC_map.py:143-148 | an unknown level is a KeyError; otherwise the filter is `level lower-cased = '…'` |
| ZoomToHuc.ExtentOfLabel | tools/map/ZoomToHUC_map.py:143-148 | choosing the label of a watershed filters the extent on exactly that watershed's code |
| ZoomToHuc.LowerKeepsComma | tools/map/ZoomToHUC_map.py:81 | lower-casing adds no comma |
| VertexBuffer.DistanceWord | tools/production/VertexBuffer.py:61 | the sanitised distance with spaces as underscores holds only alphanumerics, `_` and `-` |
| VertexBuffer.ReplaceChars | tools/production/VertexBuffer.py:61 | every character after `replace` comes from the replacement or is an original character other than the one replaced |
| VertexBuffer.Suffix | tools/production/VertexBuffer.py:57-61 | the suffix is empty exactly for an empty distance; otherwise it is `_`, the distance word, then `_Vertex_Buffers` or `_Buffers`, and only holds file-name characters |
| VertexBuffer.SuffixOfParameter | tools/production/VertexBuffer.py:57-61 | an unset distance (`valueAsText` None) is not `""` and fails in `sanitize_filename` with a TypeError; a set distance gives the suffix above: empty exactly for `""`, else `_`, the distance word and the tail, all file-name characters |
| VertexBuffer.SuffixOfCleanDistance | tools/production/VertexBuffer.py:60-61 | a distance made only of kept characters appears in the suffix as it is, spaces turned into underscores |
| VertexBuffer.SuffixOfWords | tools/production/VertexBuffer.py:60-61 | a distance `number unit` gives `_{number}_{unit}` and the tail |
| VertexBuffer.ReplaceWords | tools/production/VertexBuffer.py:61 | the one space between two plain words becomes an underscore |
| VertexBuffer.WordsAllowed | tools/production/VertexBuffer.py:61 | a number and a unit of suffix characters with a space between hold only kept characters |
| VertexBuffer.DefaultSuffixDiffers | tools/production/VertexBuffer.py:33-42 | the suffix recomputed from the default distance `10 Meters` is `_10_Meters_Buffers`, not the default `_10_Meter_Buffers` |
| VertexBuffer.DefaultWords | tools/production/VertexBuffer.py:33 | the default distance is the words `10` and `Meters` |
| VertexBuffer.WhereClause | tools/production/VertexBuffer.py:71-90 | an empty selection and a falsy definition query count as absent; both give `dq AND OID IN (ids)`, either alone gives itself, neither gives None |
| VertexBuffer.WhereClauseIds | tools/production/VertexBuffer.py:80-86 | the clause ends with `OID IN (ids)`, and the comma-joined ids split back into the selected ids |
| VertexBuffer.DistanceParts | tools/production/VertexBuffer.py:94 | unpacking fails with ValueError unless the text splits into exactly two words; then the words rejoin to the text and hold no space |
| VertexBuffer.DistancePartsOf | tools/production/VertexBuffer.py:94 | a number and a unit joined by one space split back into the two |
| FieldDomains.Chosen | tools/data/FieldDomains_data.py:63 | the chosen fields are exactly those whose name is listed |
| FieldDomains.Aliases | tools/data/FieldDomains_data.py:63 | the aliases of the fields are exactly the keys of the dictionary by alias |
| FieldDomains.AliasOrder | tools/data/FieldDomains_data.py:63 | the sorted aliases are strictly increasing and are exactly the dictionary's keys |
| FieldDomains.AliasesKeyed | tools/data/FieldDomains_data.py:63 | every sorted alias is a key of the dictionary by alias |
| FieldDomains.SortDistinct | tools/data/FieldDomains_data.py:63 | sorting keys without repeats gives a strictly increasing list |
| FieldDomains.SortMembers | tools/data/FieldDomains_data.py:63 | sorting keeps exactly the elements it was given |
| FieldDomains.DistinctOnce | tools/data/FieldDomains_data.py:63 | in a list without repeats every element occurs at most once |
| FieldDomains.Selection | tools/data/FieldDomains_data.py:63 | one field per alias, in alias order, each the one the dictionary by alias keeps |
| FieldDomains.SelectFields | tools/data/FieldDomains_data.py:63 | the reported fields are ordered strictly by alias, each has a listed name, and every field with a listed name has its alias reported |
| FieldDomains.SelectLast | tools/data/FieldDomains_data.py:63 | with duplicate aliases the last chosen field is the one reported |
| FieldDomains.SelectionKeepsLast | tools/data/FieldDomains_data.py:63 | the last element with a given alias is the one the selection keeps |
| FieldDomains.ChosenLast | tools/data/FieldDomains_data.py:63 | a field that is last with its alias in the input stays last among the chosen |
| FieldDomains.DomainsByName | tools/data/FieldDomains_data.py:62 | every domain is reachable by its name, and each name maps to a domain of that name |
| FieldDomains.Codes | tools/data/FieldDomains_data.py:80 | the codes of a coded-value domain; the padding width is the length of a longest one |
| FieldDomains.CodeLine | tools/data/FieldDomains_data.py:81 | a code line is the tab, the code padded with spaces to the width, ` : ` and the description |
| FieldDomains.CodeLines | tools/data/FieldDomains_data.py:81 | one code line per code; when every code fits the width, ` : ` sits in the same column on every line |
| FieldDomains.CodedLines | tools/data/FieldDomains_data.py:80-81 | no codes is a ValueError from `max`; otherwise one line per code, padded to the longest code, sorted as strings |
| FieldDomains.Block | tools/data/FieldDomains_data.py:69-86 | a block starts with the `## alias [name]` heading and has at least two lines |
| FieldDomains.NoDomainBlock | tools/data/FieldDomains_data.py:72-86 | a field whose domain is not listed gets the heading and exactly one `Domain: <None>` line |
| FieldDomains.BlockFails | tools/data/FieldDomains_data.py:79-81 | a block fails exactly for a coded-value domain without codes |
| FieldDomains.DomainBlockHead | tools/data/FieldDomains_data.py:73-77 | with a listed domain the heading is followed by its name, type and nullability |
| FieldDomains.CodedBlock | tools/data/FieldDomains_data.py:79-81 | a coded-value block lists one sorted, aligned line per code after the head |
| FieldDomains.RangeBlock | tools/data/FieldDomains_data.py:82-84 | a range block ends with the Min line and then the Max line |
| FieldDomains.Collect | tools/data/FieldDomains_data.py:68-89 | on success there is one block text per field, for any block builder |
| FieldDomains.Blocks | tools/data/FieldDomains_data.py:68-89 | on success there is one block text per field |
| FieldDomains.BlocksAt | tools/data/FieldDomains_data.py:68-89 | the blocks succeed iff every field's block does, and block `i` is field `i`'s lines joined by newlines |
| FieldDomains.BlocksOutcome | tools/data/FieldDomains_data.py:68-89 | the report fails exactly when a selected field has a coded-value domain without codes |
| FieldDomains.CollectOk | tools/data/FieldDomains_data.py:68-89 | the loop completes iff every field's block succeeds |
| FieldDomains.CollectValues | tools/data/FieldDomains_data.py:68-89 | when the loop completes, text `i` is field `i`'s lines joined by newlines |
| FieldDomains.CollectStep | tools/data/FieldDomains_data.py:68-89 | one more field appends its block's text, or its error ends the list |
| FieldDomains.CollectPrefixErr | tools/data/FieldDomains_data.py:68-89 | once a prefix fails, the whole list fails with the same error |
| FieldDomains.WriteBlocks | tools/data/FieldDomains_data.py:66-92 | the loop's output is the blocks joined by blank lines, or the first block's error |
| FieldDomains.Execute | tools/data/FieldDomains_data.py:58-92 | `execute` returns the text line 92 would print: the report of the selected fields |

## Left out

- All arcpy, `os`, `requests`, `importlib` and `traceback` calls are foreign. What they report is a parameter of the model: field lists, OID sets, counts, listings, a load outcome, a trial-search outcome, the service's answer.
- The spatial filter of `Table` (`utils/models.py:110-137`, `146-151`) is not part of this model: geometry is foreign.
- `_get_editor`'s directory walk, `to_json`/`to_geo_json`, `add_field`/`delete_field` and `DescribeModel` are not part of this model. They are arcpy and file I/O.
- `Table.update()`, `__setitem__` and `__delitem__` are not part of this model. `update()` calls a method that does not exist, `__delitem__` joins ints, and both write through the foreign editor.
- Models.Table.GetItem: `__getitem__` is a generator function because of its `yield`, so the int branch's `return` value is lost. The model gives the dispatch the comments describe; it does not model the generator.
- Rows are never read: a successful access or clause returns the cursor request that would be opened, not the rows, and SQL syntax errors inside the store (`utils/models.py:309-314`) are not modelled.
- Models.Table.Len: `GetCount` is the parameter `total`; the model does not tie it to the OID set.
- `FeatureClass.get_rows`, which VertexBuffer calls but which does not exist, and the buffering loop after it (`tools/production/VertexBuffer.py:92-123`) are not modelled. That covers geometry, unit conversion, `float()` of the distance and the progressor.
- `archelp.print`, which contains invalid syntax and is I/O, `controlCLSID`, and `Parameters.__iter__`, which calls `.items()` on a list, are not modelled.
- `create_scratch_name`, `delete_scratch_names`, `walk_database`, `get_tables`, `get_project`, `get_rows` and `update_rows` are arcpy wrappers with no logic of their own and are not modelled.
- The module-level `TABS` in `utils/constants.py` takes a stray `self` and cannot be called as written. The working `Formatting.TABS` of `utils/utilities.py` is modelled.
- The docstrings of `STATE_ABBR` and `STATE_NAME` in `utils/constants.py` are swapped relative to their code; the model follows the code.
- The compliments list, the network queries of ZoomToHUC, git, random sampling, clipboard output, parameter and UI wiring (`getParameterInfo`, `updateMessages`, `utils/tool.py`), the empty tool stubs and `tests/model_tests.py` are outside the modelled core.
- `str.isalnum` and `str.lower` are modelled on ASCII only; Unicode letters and digits are not.
- Exception messages are not modelled; errors carry only their kind and the offending value.
- Python sets returned by the set operators (converted with `list(...)`) have an unspecified order; the model returns sets.
- Models.TopPrefixFacts: `top=True` is an `int` in Python and gives `TOP True`; the model treats the int `top` as a number only.
- Models.Table.SortClause: for `top=True` the source emits `TOP True`; the model has no boolean `top` and reports a non-int truthy `top` as the ValueError.
- Models.Table.GroupByClause: the same `top=True` case as for sorting is not modelled.
- Models.Open: the OID field being one of the listed fields and, for a feature class, the shape field being listed and distinct from the OID field are taken as what arcpy guarantees about `ListFields` and `Describe`. Without the first, `set(self[self.OIDField])` at `utils/models.py:78` would raise; the model does not cover that case.
- `utils/archelp.py:60` (`*values.insert(...)`) is a syntax error, so `utils/archelp.py` cannot be imported as written. Neither can any module importing it: `utils/models.py` (which imports `print` from it at `utils/models.py:8`), the Field Domains and Vertex Buffer tools, and the callers of `Parameters` and `sanitize_filename`. The model gives those modules the behaviour their code describes.
- FieldDomains.Execute: `tools/data/FieldDomains_data.py:92` calls `archelp.arcprint`, which `utils/archelp.py` does not define. The model returns the text that line would print.
- Environments.GeoprocessingEnv.SetAttr: setting values are represented by their text, and whether `arcpy.env` accepts a value is the parameter `rejected`; the print on IndexError is not modelled.
- Models.Table.SetQueryCorrected: the search that reads the selected ids is taken to succeed; its failure is modelled by `SetQuery` only, since the source does not show what a corrected setter should do then.
- Environments.Environment.constructor: a Dafny constructor cannot raise, so the TypeError for a keyword that names no field is modelled by `CheckKeywords`, and the constructor is stated only for keywords it accepts. The `_existing_env` keyword is its own parameter, since its value is a saved environment and not a setting's text.
- Reloader.PlaceholderTool: every placeholder class is named `_BrokenImport`; how ArcGIS Pro treats several tool classes of the same name is not modelled.
- Environments.Environment.Repr: `_existing_env` is rendered by a caller-supplied text, since the `repr` of a dictionary is not modelled.
- ZoomToHuc.UpdateParameters: the HTTP request is a parameter (`None` when it raised); a malformed answer (missing keys) is not told apart from a failed request, and a well-formed one is a list of (name, code) pairs.
- VertexBuffer.WhereClause: `valueAsText` being None, and the order of the selection set, are not modelled; the selection is a list of ids.
- FieldDomains.CodedLines: codes are held already rendered by `str`; the domain's other attributes are abstracted to name, type, coded values and range.
- ArcpyTools.PrintDictAligned: stated for any indentation and takes the padding as a parameter equal to the one `print_dict` computes.

## Findings

| source | as written | input that shows it | evidently intended | confidence | as-written member | corrected member |
|---|---|---|---|---|---|---|
| utils/models.py:93-98 | the setter sets `queried = True` before `self._queried_count = len(self)`, so `len()` returns the old `_queried_count` | a fresh table with 3 rows and a query selecting 2 of them: `len()` is 0 afterwards | the stored count is the number of rows the query selects, a falsy query only clears the filter, and a query whose trial search fails only warns and keeps the previous filter | not executed | Models.StaleQueryCount | Models.QueryCountCorrected |
