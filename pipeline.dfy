/// split_json_file and what runs around it: the flattened text of the
/// "Programming Details" sheet is split into its four buckets, and the
/// buckets are handed, in order, to the device, group, scene and remote
/// builders, whose outputs make up the converted document.
module Pipeline {
  import opened Results
  import opened PyText
  import opened Catalog
  import opened Headers
  import opened Splitter
  import opened Devices
  import opened Groups
  import opened Scenes
  import opened Remotes
  import opened Extract

  /** The converted document: one list per bucket. */
  datatype Document = Document(devices: seq<Device>, groups: seq<GroupEntry>, scenes: seq<Scene>, remoteControls: seq<Remote>)

  const EmptyDocument := Document([], [], [], [])

  /** split_json_file: the buckets are processed devices first, then groups,
      scenes and remote controls; the first exception ends the run. The
      name-to-type lookup starts empty, is filled by the device pass and is
      read by the scene pass. */
  function Convert(variant: Variant, content: seq<string>): Outcome<Document> {
    var buckets := Split(content);
    match Devices.Devices(variant, Classify, buckets.devices, map[])
    case Raised(e) => Raised(e)
    case Ok(registry) =>
      match Scenes.Scenes(variant, registry.lookup, buckets.scenes)
      case Raised(e) => Raised(e)
      case Ok(scenes) =>
        match Remotes.Remotes(variant, buckets.remoteControls)
        case Raised(e) => Raised(e)
        case Ok(remotes) => Ok(Document(registry.devices, Groups.Groups(buckets.groups), scenes, remotes))
  }

  /** split_json_file, statement by statement. */
  method SplitJsonFile(variant: Variant, content: seq<string>) returns (r: Outcome<Document>)
    ensures r == Convert(variant, content)
  {
    var split := SplitSections(content);
    var devices := ProcessDevices(variant, split.devices, map[]);
    if devices.Raised? {
      return Raised(devices.error);
    }
    var groups := ProcessGroups(split.groups);
    var scenes := ProcessScenes(variant, devices.value.lookup, split.scenes);
    if scenes.Raised? {
      return Raised(scenes.error);
    }
    var remotes := ProcessRemoteControls(variant, split.remoteControls);
    if remotes.Raised? {
      return Raised(remotes.error);
    }
    r := Ok(Document(devices.value.devices, groups, scenes.value, remotes.value));
  }

  /** What main reports for the text cells of the one "Programming Details"
      sheet, with extract_text_from_sheet as written: an exception raised
      while reading the workbook is caught in the catalog-unaware variant
      and reported as "No matching worksheets found". */
  datatype Report = Converted(doc: Document) | NoMatchingWorksheets | Failed(error: PyError)

  function RunAsWritten(variant: Variant, cells: seq<string>): Report {
    match ExtractAsWritten(variant, cells)
    case Raised(_) => if variant == CatalogUnaware then NoMatchingWorksheets else Failed(NameError)
    case Ok(lines) =>
      match Convert(variant, lines)
      case Raised(e) => Failed(e)
      case Ok(doc) => Converted(doc)
  }

  /** The same run with the regex module imported, as the catalog-aware file
      does. */
  function Run(variant: Variant, cells: seq<string>): Report {
    match Convert(variant, SheetLines(variant, cells))
    case Raised(e) => Failed(e)
    case Ok(doc) => Converted(doc)
  }

  // ---------------------------------------------------------------- Lemmas

  /** Empty buckets give an empty document in both variants. */
  lemma EmptyBuckets(variant: Variant, content: seq<string>)
    requires Split(content) == NoLines
    ensures Convert(variant, content) == Ok(EmptyDocument)
  {
    assert |Output(NoScenes)| == 0;
  }

  /** Text without any sentinel line converts to the empty document. */
  lemma NoSentinelEmpty(variant: Variant, content: seq<string>)
    requires NoSentinel(content)
    ensures Convert(variant, content) == Ok(EmptyDocument)
  {
    LinesBeforeSentinelDropped(SplitState(None, NoLines), content);
    EmptyBuckets(variant, content);
  }

  /** The catalog-unaware conversion fails only with the ValueError of a
      remote link number that is not an integer: its device and scene passes
      never fail. */
  lemma UnawareFailsOnlyOnLinkNumbers(content: seq<string>)
    ensures Convert(CatalogUnaware, content).Raised? ==> Convert(CatalogUnaware, content).error == ValueError
  {
    var buckets := Split(content);
    Devices.UnawareNeverFails(Classify, Scan(None, Registry([], map[])), buckets.devices);
    var registry := Devices.Devices(CatalogUnaware, Classify, buckets.devices, map[]).value;
    Scenes.UnawareNeverFails(registry.lookup, NoScenes, buckets.scenes);
    RemoteErrors(CatalogUnaware, NoRemotes, buckets.remoteControls);
  }

  /** The catalog-aware conversion fails with TypeError exactly when the
      first device-bucket line that is not a QTY: line is not a NAME: line;
      every other failure comes from the scene or the remote pass. */
  lemma AwareDeviceFailure(content: seq<string>)
    ensures var d := Split(content).devices;
      Convert(CatalogAware, content) == Raised(TypeError) <==>
        FirstNonQty(d).Some? && !IsNameLine(FirstNonQty(d).value)
  {
    var buckets := Split(content);
    var st := Scan(None, Registry([], map[]));
    DevicesFailIff(Classify, st, buckets.devices);
    if DevicesFrom(CatalogAware, Classify, st, buckets.devices).Ok? {
      var registry := Devices.Devices(CatalogAware, Classify, buckets.devices, map[]).value;
      AwareErrors(registry.lookup, NoScenes, buckets.scenes);
      RemoteErrors(CatalogAware, NoRemotes, buckets.remoteControls);
    }
  }

  /** The catalog-aware conversion fails only with the errors its passes let
      escape. */
  lemma AwareErrorKinds(content: seq<string>)
    ensures var r := Convert(CatalogAware, content);
      r.Raised? ==> r.error in {TypeError, IndexError, StopIteration, ValueError, UnboundLocalError}
  {
    var buckets := Split(content);
    var st := Scan(None, Registry([], map[]));
    DevicesFailIff(Classify, st, buckets.devices);
    if DevicesFrom(CatalogAware, Classify, st, buckets.devices).Ok? {
      var registry := Devices.Devices(CatalogAware, Classify, buckets.devices, map[]).value;
      AwareErrors(registry.lookup, NoScenes, buckets.scenes);
      RemoteErrors(CatalogAware, NoRemotes, buckets.remoteControls);
    }
  }

  /** A converted document lists the groups of the groups bucket, its scenes
      named by the scene bucket's NAME: lines (each once, in first-seen
      order), and its remotes named by the remote bucket's non-empty NAME:
      lines, in order. */
  lemma DocumentShape(variant: Variant, content: seq<string>)
    requires Convert(variant, content).Ok?
    ensures var doc := Convert(variant, content).value;
      var buckets := Split(content);
      && doc.groups == Groups.Groups(buckets.groups)
      && |doc.scenes| == |AddNew([], HeaderNames(buckets.scenes))|
      && (forall k :: 0 <= k < |doc.scenes| ==> doc.scenes[k].sceneName == AddNew([], HeaderNames(buckets.scenes))[k])
      && RemoteNames(doc.remoteControls) == NonEmpty(HeaderNames(buckets.remoteControls))
  {
    var buckets := Split(content);
    var registry := Devices.Devices(variant, Classify, buckets.devices, map[]).value;
    SceneNames(variant, registry.lookup, buckets.scenes);
    RemoteNamesFromHeaders(variant, buckets.remoteControls);
  }

  /** As written, the catalog-unaware program never converts anything: a
      sheet with a text cell is reported as "No matching worksheets found",
      and a sheet without one converts to the empty document. */
  lemma UnawareAsWrittenNeverConverts(cells: seq<string>)
    ensures RunAsWritten(CatalogUnaware, cells)
         == if cells == [] then Converted(EmptyDocument) else NoMatchingWorksheets
  {
    if cells == [] {
      EmptyBuckets(CatalogUnaware, []);
    }
  }

  /** The corrected catalog-unaware run differs from the run as written on
      every sheet whose lines convert to a non-empty document. */
  lemma UnawareCorrectionMatters(cells: seq<string>)
    requires Run(CatalogUnaware, cells).Converted? && Run(CatalogUnaware, cells).doc != EmptyDocument
    ensures RunAsWritten(CatalogUnaware, cells) != Run(CatalogUnaware, cells)
  {
    UnawareAsWrittenNeverConverts(cells);
  }

  /** The catalog-aware file imports the regex module: its run as written is
      the corrected run. */
  lemma AwareRunAsWritten(cells: seq<string>)
    ensures RunAsWritten(CatalogAware, cells) == Run(CatalogAware, cells)
  {
  }
}
