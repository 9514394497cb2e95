# excel2json conversion pipeline, modelled in Dafny

This project models the part of the excel2json converter that runs after the
workbook has been read. Its input is the flat, ordered list of text lines
taken from the "Programming Details" sheet. Its output is a document with
four lists: devices, groups, scenes and remote-control links.

The converter exists in two variants, and every operation here takes a
`Variant` parameter:

- `CatalogAware` is `convert2.py`. A device-type catalog classifies each
  device block's shortname. The device pass fills a device name → type
  lookup. The scene parser chooses a line grammar (Dimmer, Relay, Curtain,
  Fan, PowerPoint) from the type of the line's first device.
- `CatalogUnaware` is `convert.py`. It has no catalog. It has one scene-line
  grammar (status, then level, then comma-separated names). Remote links
  with an unknown prefix are dropped.

Python exceptions are modelled as an `Outcome` value (`Ok` or
`Raised(error)`). This keeps apart the three cases the source tells apart:
a line that is skipped, a line whose exception is caught (scenes catch only
`ValueError`), and an exception that ends the run.

Modules, one per file:

- `Results`: Option, Outcome, the Python error kinds and Variant.
- `PyText`: the Python string built-ins the converter uses. These are
  `strip`, `strip(",")`, `split()`, `split(sep)`, `replace`, `in`,
  `rsplit(" - ", 1)`, `upper` and `int`.
- `Catalog`: the catalog and classification.
- `Splitter`: the section splitter.
- `Headers`: `NAME:` header lines.
- `Devices`, `Groups`, `Scenes` and `Remotes`: the four builders.
- `SceneLine`: the scene-line grammars and handlers of both variants.
- `Extract`: the per-string part of `extract_text_from_sheet`.
- `Pipeline`: `split_json_file` and the run around it.
- `SceneLineExamples` and `RemoteExamples`: worked lines.

Each loop of the source is a method whose postcondition ties its result to
a specification function, which is a fold of a one-line step. The
properties are proved about those functions as lemmas.

Where the code and the written description of the system disagree, the
model follows the code:

- In `convert2.py`, a device line that comes before any `NAME:` line is not
  ignored. The classification loop evaluates `model in current_shortname`
  while the shortname is still `None`, which raises `TypeError` and ends
  the run (convert2.py:77-93). `Devices.DevicesFailIff` and
  `Pipeline.AwareDeviceFailure` state exactly when this happens.
- In the description, a device with no resolvable type is simply left out
  of the lookup. In the code, an empty `NAME:` shortname is a substring of
  every code, so it classifies as Dimmer. The record is still not emitted,
  because the emptiness test comes later (convert2.py:82, 95);
  `Catalog.ClassifyEmpty` states the classification.

## Model

| member | source | states |
|---|---|---|
| Catalog.LabelInjective | convert2.py:272-279 | the labels (the `deviceType` strings, convert2.py:26-52 and :83) of different types differ, so each `==` test of parse_scene_content (Fan, Relay, Curtain, Dimmer) holds for exactly one type |
| Catalog.PowerPointLabel | convert2.py:280 | `"PowerPoint Type" in device_type` holds exactly for the two PowerPoint labels |
| Catalog.WayLabel | convert2.py:281-284 | within a PowerPoint label, `"Two-Way" in` holds exactly for the two-way sub-type and `"Single-Way" in` exactly for the single-way one |
| Catalog.FirstMatchIsFirst | convert2.py:77-93 | classification gives no type exactly when no catalog entry has a code matching in either substring direction; otherwise it gives the type of the first matching entry, and no earlier entry matches |
| Catalog.ClassifyEmpty | convert2.py:82 | the empty shortname matches the first code of the catalog, so it classifies as Dimmer |
| Catalog.ClassifyAmbiguous | convert2.py:26-52 | a shortname that occurs in Dimmer, Relay and RGB codes ("KB") takes the first catalog type, Dimmer |
| Catalog.ClassifyShortname | convert2.py:77-93 | the nested break-out loops over the catalog compute Classify |
| Splitter.BucketOf | convert2.py:380-385 | a line opens a bucket exactly when it equals that bucket's sentinel |
| Splitter.Buckets.Extend | convert2.py:396-398 | appending to one bucket leaves the other three unchanged |
| Splitter.SplitSections | convert2.py:392-398 | the splitting loop computes Split |
| Splitter.SplitFromAppend | convert.py:209-215 | splitting a concatenation is splitting its parts in turn |
| Splitter.LinesBeforeSentinelDropped | convert2.py:397 | lines before the first sentinel are stored nowhere |
| Splitter.BodyAppended | convert2.py:397-398 | while a bucket is active, every non-sentinel line is appended to it, in order |
| Splitter.Section | convert2.py:393-395 | a sentinel switches the active bucket, is stored nowhere, and its body goes to its bucket, also when that bucket was already filled earlier |
| Splitter.SectionsCommute | convert.py:209-215 | two sections for different buckets can be swapped without changing the result |
| Devices.ProcessDevices | convert2.py:60-105 | the device loop of both variants computes Devices, including the TypeError of a device line before any NAME: in the catalog-aware variant |
| Devices.RegisterTypedAppend | convert2.py:100-102 | registering one more record adds or overwrites its name exactly when it has a type |
| Devices.StepEffect | convert2.py:95-103 | a line leaves the registry unchanged, or appends one well-typed record and registers that record's type |
| Devices.RunAppends | convert2.py:95-103 | the run only appends records, and each has the shortname's type in the catalog-aware variant and no type in the catalog-unaware one |
| Devices.LookupFollowsRecords | convert2.py:100-102 | the final lookup is the initial one with the run's typed records registered in order |
| Devices.RegisterTypedLookup | convert2.py:102 | a name is in the lookup exactly when it was there before or some typed record has it; its type is that of the last typed record with that name |
| Devices.RegistryLookup | convert2.py:60-105 | the same for a whole bucket, with every record well-typed |
| Devices.UnawareNeverFails | convert.py:35-56 | the catalog-unaware device pass never raises |
| Devices.NamedNeverFails | convert2.py:70-72 | once a NAME: line has been read, the catalog-aware device pass cannot raise |
| Devices.DevicesFailIff | convert2.py:77-93 | the catalog-aware pass raises, always TypeError, exactly when the first line that is not a QTY: line is not a NAME: line |
| Devices.Tagged | convert2.py:96-99 | one record per name, each carrying the shortname and type |
| Devices.BodyStep | convert2.py:74-103 | under an open block, a non-header line never fails, keeps the shortname, and adds that line's records |
| Devices.BlockRecordsCons | convert.py:50-54 | the records of a block body are the records of its lines, in order |
| Devices.BlockKeepsShortname | convert2.py:70-75 | a block body without NAME: lines keeps the shortname and cannot fail |
| Devices.BlockBody | convert2.py:67-103 | a block body adds exactly its non-QTY: lines as records, and none when the shortname is empty |
| Devices.Block | convert.py:40-54 | a NAME: line followed by a body yields the body's records under that header's name |
| Groups.ProcessGroups | convert2.py:107-128 | the group loop of both variants computes Groups |
| Groups.GroupsWellFormed | convert.py:63-79 | the run only appends, and every record has a non-empty group name and a stripped line that is neither a NAME: nor a DEVICE CONTROL: line |
| Groups.LinesBeforeHeaderIgnored | convert.py:73 | lines before the first NAME: line produce nothing |
| Groups.BodyStep | convert.py:70-77 | a non-header line adds one record or none |
| Groups.BlockBody | convert.py:63-77 | a body adds one record per line that is not a DEVICE CONTROL: line, each with the line unsplit, and none when the group name is empty |
| Groups.Block | convert2.py:115-126 | a NAME: line followed by a body yields the body's records under that header's name |
| SceneLine.Named | convert2.py:198-200 | one record per name token |
| SceneLine.NameRecords | convert2.py:208-210 | the naming loop of the handlers computes Named |
| SceneLine.FirstStatusFrom | convert2.py:184 | the index found is the first ON or OFF token at or after k, and None means there is no such token |
| SceneLine.HandleDimmer | convert2.py:182-202 | the dimmer handler computes DimmerContents |
| SceneLine.HandleRelay | convert2.py:204-212 | the relay handler computes RelayContents |
| SceneLine.HandleCurtain | convert2.py:214-222 | the curtain handler computes CurtainContents |
| SceneLine.HandlePowerPoint | convert2.py:224-244 | the PowerPoint handler computes PowerPointContents for each way |
| SceneLine.HandleFan | convert2.py:175-180 | a fan line raises exactly when it has fewer than six tokens (IndexError) or a sixth token that is not an integer (ValueError); otherwise it gives one record from tokens 0, 1, 3 and 5 |
| SceneLine.DetermineDeviceType | convert2.py:246-258 | a type is found exactly when the comma-stripped first token is non-empty and in the lookup; every failure is ValueError |
| SceneLine.ParseSceneContent | convert2.py:260-286 | parse_scene_content on one line computes ParseSceneLine |
| SceneLine.LegacyParseSceneContent | convert.py:81-107 | the catalog-unaware parse_scene_content on one line computes LegacyParseLine |
| SceneLine.LegacyHeader | convert.py:88-97 | the status, the level and the comma-separated name pieces are those LegacyParseLine uses |
| SceneLine.LegacyNamesStripped | convert.py:97-101 | a line of two or more tokens yields at least one name, and every name is already stripped |
| SceneLine.DimmerNames | convert2.py:184-200 | a dimmer line raises, always StopIteration, exactly when it has no ON or OFF token; otherwise the records are named by the tokens before the first status token, and all carry that status |
| SceneLine.DimmerLevelRange | convert2.py:187-196 | OFF gives level 0; ON with no next token, or a next token that is not an integer, gives 100 |
| SceneLine.SceneLineErrors | convert2.py:260-286 | the parser lets only three errors escape: IndexError from a short fan line, ValueError from a fan speed that is not an integer, and StopIteration from a dimmer line without status |
| SceneLine.SceneLineSkipped | convert2.py:264-270 | a line with fewer than two tokens, an unknown or empty first name, or an RGB device yields nothing |
| SceneLine.LegacyRecordCount | convert.py:97-106 | a catalog-unaware line of two or more tokens yields one record more than there are commas in its joined name tokens |
| SceneLine.RelayLine | convert2.py:204-212 | a relay line never fails and yields one record per token before the last, named by that token, with the last token as status |
| SceneLine.CurtainLine | convert2.py:214-222 | a curtain line is read like a relay line, with position 100 exactly when the status is OPEN and 0 otherwise |
| SceneLine.PowerPointLine | convert2.py:224-244 | a two-way line yields one record per token before the last two, with no status, left power from the second-to-last token and right power from the last; a single-way line reads only the last token, as right power |
| SceneLine.LegacyLine | convert.py:84-106 | a catalog-unaware line of two or more tokens yields at least one record; all share the status (the last token if ON or OFF, else the one before) and the level; names are stripped; without "+" the level is 100 for ON and 0 otherwise |
| SceneLineExamples.PercentThenPlus | convert.py:93 | removing "%" and then "+" from "+d%" leaves the digits |
| SceneLineExamples.PlusThenPercent | convert2.py:191 | removing "+" and then "%" from "+d%" leaves the digits |
| SceneLineExamples.LegacyLineExample | convert.py:81-107 | "a, b ST +d%" yields records a and b with status ST and level d |
| SceneLineExamples.DimmerLineExample | convert2.py:182-202 | the same line for a Dimmer device yields level d when ST is ON and 0 when it is OFF |
| SceneLineExamples.LegacyLight45 | convert.py:81-107 | "Light1, Light2 ON +45%" yields Light1 and Light2 at level 45 |
| SceneLineExamples.VariantsDisagreeOnOffLevel | convert.py:89-95 | "Light1, Light2 OFF +30%" yields level 30 in the catalog-unaware parser and level 0 in the dimmer handler |
| Scenes.Open | convert2.py:299-305 | a NAME: line makes its name current and present in the scene map |
| Scenes.OutputItems | convert2.py:312 | for a valid scan state, every dictionary key is output exactly once with its records, and nothing else is output (the order is stated by SceneNames) |
| Scenes.ProcessScenes | convert2.py:288-314 | the scene loop of both variants computes Scenes, catching only ValueError in the catalog-aware variant |
| Scenes.StepValid | convert.py:114-125 | each line keeps the scan valid: the order lists distinct names, and the map has exactly the ordered names as keys |
| Scenes.RunValid | convert.py:114-125 | the whole run keeps the scan valid |
| Scenes.RunOrder | convert2.py:299-305 | the scene order is the NAME: lines' names, each added on first sight |
| Scenes.SceneNames | convert.py:127 | the output scenes are named by the NAME: lines' names, each once, in first-seen order, including scenes with no content |
| Scenes.SceneNamesDistinct | convert2.py:312 | no scene name is output twice |
| Scenes.UnawareNeverFails | convert.py:109-129 | the catalog-unaware scene pass never raises |
| Scenes.AwareErrors | convert2.py:307-310 | the catalog-aware scene pass raises only IndexError or StopIteration |
| Scenes.BodyRun | convert2.py:306-310 | under a non-empty scene name, a body adds its lines' records to that scene, or raises the first escaping error |
| Scenes.SceneBlock | convert.py:120-125 | a NAME: line re-opens its scene, and the body's records are appended after the records it already had |
| Scenes.EmptyNameBlock | convert2.py:303-306 | an empty NAME: creates an empty scene, and the lines after it are ignored |
| Scenes.IgnoredWithoutName | convert.py:124 | lines with no current scene are ignored |
| Remotes.TargetOf | convert2.py:353-361 | a target is found exactly for descriptions starting with SCENE, GROUP or DEVICE, with link type 2, 1 or 0 |
| Remotes.ReadLinkLine | convert2.py:341-361 | the decoding statements compute DecodeLink |
| Remotes.ReadDescription | convert2.py:346-351 | the description and action are DescriptionAction of the second field |
| Remotes.ReadTarget | convert2.py:353-361 | the if/elif chain on the description gives TargetOf |
| Remotes.ProcessRemoteControls | convert2.py:316-376 | the remote loop of both variants computes Remotes |
| Remotes.StepKinds | convert2.py:353-368 | each line keeps every link type in 0..2 |
| Remotes.RunKinds | convert2.py:322-368 | the run keeps every link type in 0..2 |
| Remotes.LinkKinds | convert.py:168-185 | every output link has type 0, 1 or 2 |
| Remotes.PendingFlush | convert2.py:328-335 | a NAME: line flushes the current remote when its name is not empty |
| Remotes.StepNames | convert2.py:322-368 | each line adds to the remote names only through NAME: lines with a non-empty name |
| Remotes.HeaderNamesCons | convert2.py:328 | the header names of a line sequence are those of its first line followed by those of the rest |
| Remotes.RunNames | convert2.py:322-374 | the run's remote names, pending one included, are the non-empty NAME: names in order |
| Remotes.RemoteNamesFromHeaders | convert.py:137-191 | the output remotes are named by the non-empty NAME: names, in order, and the last remote is flushed at the end |
| Remotes.RemoteErrors | convert2.py:345-368 | the only failures are the ValueError of a link number that is not an integer, and, in the catalog-aware variant only, UnboundLocalError for an unknown prefix before any recognised link |
| Remotes.RemotesFromAppend | convert.py:137-185 | processing a concatenation is processing its parts in turn |
| Remotes.BeforeFirstName | convert2.py:319-320 | before the first NAME: line no remote is opened or output |
| Remotes.LinksBeforeFirstNameLost | convert2.py:328-335 | links before the first NAME: line are lost; only the last recognised target survives, for the reuse rule |
| Remotes.OnlyTwoFields | convert2.py:341-346 | text after a second colon is never read |
| Remotes.UnawareIgnoresLast | convert.py:177-178 | the catalog-unaware decoder never uses the previous link's target |
| Remotes.UnawarePrefixIgnored | convert.py:143-150 | in the catalog-unaware variant, lines before the first NAME: line do not change the output |
| RemoteExamples.LinkFields | convert2.py:341 | "d:rest" splits on ":" into [d, rest] |
| RemoteExamples.LinkNumber | convert2.py:345 | the link number of a digit string is its decimal value |
| RemoteExamples.SplitAction | convert2.py:349-350 | rsplit at the last " - " separates the description from the action |
| RemoteExamples.SceneName | convert2.py:353-355 | "SCENE n" targets scene n, with link type 2 |
| RemoteExamples.ActionOf | convert2.py:346-351 | for any action word, the description " x - act" reads as x and `act` upper-cased |
| RemoteExamples.GroupName | convert2.py:356-358 | "GROUP n" targets group n, with link type 1 |
| RemoteExamples.DecodeSceneLink | convert2.py:341-368 | "d: SCENE n - act" decodes to index d - 1, action `act` upper-cased and target (2, n) |
| RemoteExamples.EveningAction | convert2.py:341-368 | "3: SCENE Evening - act" decodes to index 2, action `act` upper-cased and scene Evening |
| RemoteExamples.EveningLink | convert2.py:341-368 | "3: SCENE Evening - DOUBLE" decodes to index 2, action DOUBLE and scene Evening |
| RemoteExamples.EveningLowerCase | convert2.py:349-351 | "3: SCENE Evening - double" has the action DOUBLE: the action is upper-cased |
| RemoteExamples.DeviceTarget | convert2.py:359-361 | "DEVICE n" targets device n, with link type 0 |
| RemoteExamples.DecodeDeviceLink | convert2.py:341-368 | "d: DEVICE n" decodes to index d - 1, action NORMAL and target (0, n) |
| RemoteExamples.LampLink | convert2.py:348-361 | "1: DEVICE Lamp" decodes to index 0, action NORMAL and device Lamp |
| Extract.FoldFullWidthFacts | convert2.py:11 | folding keeps the length, leaves no full-width bracket or colon, and keeps every other character |
| Extract.CellText | convert.py:14-17 | the per-cell statements compute CellLines |
| Extract.ExtractText | convert2.py:7-14 | the extraction loop over a sheet's text cells computes SheetLines |
| Extract.SheetLinesAt | convert2.py:9-13 | a sheet's lines are its first cell's lines followed by the rest |
| Extract.SheetLinesAppend | convert2.py:9-13 | the lines of two runs of cells are the lines of each, in order |
| Extract.PiecesClean | convert2.py:13 | every piece kept from a cell is non-empty, stripped and without a newline |
| Extract.SheetLinesClean | convert2.py:7-14 | every extracted line is non-empty, stripped and without a newline |
| Extract.CleanKept | convert2.py:13 | lines that are already clean are kept as they are |
| Extract.PiecesJoin | convert2.py:13 | clean lines joined by newlines are cut back into exactly those lines |
| Extract.NoOpenUnchanged | convert2.py:12 | text without "(" passes the parenthesis removal unchanged |
| Extract.NoParenLeft | convert2.py:12 | after the removal, no "(" has a ")" after it on the same line |
| Extract.UnclosedStaysUnclosed | convert2.py:12 | text with no ")" before its first newline keeps that property through the removal |
| Extract.LinesKept | convert2.py:12-13 | the removal never joins lines: the text splits into as many lines before and after it |
| Extract.NewlinesKept | convert2.py:12 | the removal keeps every newline |
| Extract.UnawareAsWrittenFails | convert.py:16 | as written, a sheet with a text cell raises NameError even when its corrected extraction has lines |
| Pipeline.SplitJsonFile | convert2.py:378-405 | split_json_file computes Convert: split, then devices, groups, scenes and remotes, with the first exception ending the run |
| Pipeline.EmptyBuckets | convert.py:216-221 | empty buckets give the empty document |
| Pipeline.NoSentinelEmpty | convert2.py:392-398 | text without a sentinel line converts to the empty document |
| Pipeline.UnawareFailsOnlyOnLinkNumbers | convert.py:195-221 | the catalog-unaware conversion fails only with the ValueError of a link number that is not an integer |
| Pipeline.AwareDeviceFailure | convert2.py:400-404 | the catalog-aware conversion fails with TypeError exactly when the devices bucket's first line that is not a QTY: line is not a NAME: line |
| Pipeline.AwareErrorKinds | convert2.py:400-404 | the catalog-aware conversion fails only with TypeError, IndexError, StopIteration, ValueError or UnboundLocalError |
| Pipeline.DocumentShape | convert2.py:400-405 | a converted document has the groups bucket's records, scenes named by the scene bucket's NAME: lines (each once, in first-seen order), and remotes named by the remote bucket's non-empty NAME: lines |
| Pipeline.UnawareAsWrittenNeverConverts | convert.py:20-33 | as written, the catalog-unaware program reports "No matching worksheets found" for any sheet with a text cell, and converts a sheet without one to the empty document |
| Pipeline.UnawareCorrectionMatters | convert.py:14-17 | with the import in place, the catalog-unaware run differs from the run as written on every sheet that converts to a non-empty document |
| Pipeline.AwareRunAsWritten | convert2.py:1-14 | the catalog-aware file imports the regex module, so its run as written is the corrected run |

## Left out

- Workbook reading goes through pandas and openpyxl, which this model does not include. This covers `process_excel_to_json`, the choice of the "Programming Details" sheet (the last matching sheet wins), `values.flatten`, `pd.notna` and `isinstance`. The extraction starts from the text cells of the one sheet, in row order.
- `main`, stdin/stdout/stderr, JSON serialisation, `sys.exit` and the import-time version prints are I/O. The `Report` type stands for the outcome `main` reports, not for every line it prints.
- SceneLine.DetermineDeviceType: does not model the diagnostic `Error: Detected empty or invalid device name: ''` that convert2.py:249-250 prints to stdout before raising, for a scene line whose first token is only commas (e.g. ", Lamp ON"). That line goes to the same stdout as the JSON document; the model keeps only the ValueError, and `Report` carries no printed lines.
- Records are datatypes, not dictionaries. The PowerPoint records' missing `status` key is `status == None`.
- The regular expression `\(.*?\)` is written as the function `RemoveParenthesized`. This function is a hand-written scanner, not a regex engine.
- `int()` accepts surrounding white space, an optional sign and ASCII decimal digits. Python also accepts underscores and non-ASCII digits; the model does not.
- `str.upper()` maps only ASCII letters. Python's full Unicode case mapping is not modelled.
- The global `device_name_to_type` lives as long as the process. In the model it is explicit per-run state that starts empty. `reset_device_name_to_type` is never called and is not modelled.
- The scene handlers dispatch on label strings (`device_type == "Fan Type"`, `"PowerPoint Type" in device_type`). The model matches on the `DeviceType` datatype instead. `Catalog.LabelInjective` shows that each `==` test selects one type, and `Catalog.PowerPointLabel` and `Catalog.WayLabel` show the same for the substring tests.
- Scenes.Records: returns [] for a name missing from the scene map. This case never arises, because `Scenes.Valid` keeps every ordered name in the map.
- Extract.FoldFullWidth: the three `replace` calls are one character map. This is equivalent because each one replaces a single character by an ASCII character.

## Findings

| source | as written | input that shows it | evidently intended | confidence | as-written member | corrected member |
|---|---|---|---|---|---|---|
| convert.py:16 | `re.sub` is called, but `re` is never imported (convert.py:1-5). The resulting `NameError` is caught at convert.py:31-33, so the run reports "No matching worksheets found". | any "Programming Details" sheet with one text cell, e.g. the cell "KASTA GROUP" | the parenthesised text is removed as in convert2.py, and the sheet is converted | not executed | Extract.ExtractAsWritten, Extract.UnawareAsWrittenFails, Pipeline.UnawareAsWrittenNeverConverts | Extract.ExtractText, Extract.NoParenLeft, Pipeline.UnawareCorrectionMatters |
