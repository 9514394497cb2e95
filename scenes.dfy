/// The scene builder (process_scenes): NAME: lines open or reopen a scene,
/// and each content line under a named scene is parsed and its records are
/// added to that scene. Scenes keep the order in which their names first
/// appear.
module Scenes {
  import opened Results
  import opened PyText
  import opened Catalog
  import opened Headers
  import opened SceneLine

  /** One output scene: its name and its records. */
  datatype Scene = Scene(sceneName: string, contents: seq<SceneContent>)

  /** The scan state: the current scene name (empty before any header, which
      behaves like Python's None here), the scene names in insertion order and
      the dictionary from scene name to records. */
  datatype SceneScan = SceneScan(current: string, order: seq<string>, contents: map<string, seq<SceneContent>>)

  const NoScenes := SceneScan([], [], map[])

  /** The records of scene n, none when n has no entry. */
  function Records(m: map<string, seq<SceneContent>>, n: string): seq<SceneContent> {
    if n in m then m[n] else []
  }

  predicate IsControlContentLine(line: string) {
    HasTag(line, "CONTROL CONTENT:")
  }

  /** The state after a NAME: line naming n: n becomes current, and a name not
      seen before gets an empty entry at the end of the order. */
  function Open(st: SceneScan, n: string): (r: SceneScan)
    ensures r.current == n && n in r.contents
  {
    if n in st.contents then st.(current := n)
    else SceneScan(n, st.order + [n], st.contents[n := []])
  }

  /** The records of the current scene extended by cs. */
  function AddRecords(st: SceneScan, cs: seq<SceneContent>): SceneScan {
    st.(contents := st.contents[st.current := Records(st.contents, st.current) + cs])
  }

  /** What one stripped content line yields: the catalog-aware parser, whose
      ValueError skips the line (None) and whose other errors escape, or the
      catalog-unaware parser, which never fails. */
  function LineRecords(variant: Variant, lookup: map<string, DeviceType>, line: string): Outcome<Option<seq<SceneContent>>> {
    if variant == CatalogUnaware then Ok(Some(LegacyParseLine(line)))
    else match ParseSceneLine(lookup, line)
      case Ok(cs) => Ok(Some(cs))
      case Raised(e) => if e == ValueError then Ok(None) else Raised(e)
  }

  function ScenesStep(variant: Variant, lookup: map<string, DeviceType>, st: SceneScan, raw: string): Outcome<SceneScan> {
    var line := Strip(raw);
    if StartsWith(line, "CONTROL CONTENT:") then Ok(st)
    else if StartsWith(line, "NAME:") then Ok(Open(st, HeaderName(raw)))
    else if st.current == [] then Ok(st)
    else match LineRecords(variant, lookup, line)
      case Raised(e) => Raised(e)
      case Ok(None) => Ok(st)
      case Ok(Some(cs)) => Ok(AddRecords(st, cs))
  }

  function ScenesFrom(variant: Variant, lookup: map<string, DeviceType>, st: SceneScan, lines: seq<string>): Outcome<SceneScan>
    decreases |lines|
  {
    if lines == [] then Ok(st)
    else match ScenesStep(variant, lookup, st, lines[0])
      case Raised(e) => Raised(e)
      case Ok(st') => ScenesFrom(variant, lookup, st', lines[1..])
  }

  /** The scene list: one scene per name, in insertion order (OutputItems
      states what it holds). */
  function Output(st: SceneScan): seq<Scene>
  {
    seq(|st.order|, k requires 0 <= k < |st.order| => Scene(st.order[k], Records(st.contents, st.order[k])))
  }

  /** process_scenes on a bucket, with the name-to-type lookup built by the
      device pass. */
  function Scenes(variant: Variant, lookup: map<string, DeviceType>, lines: seq<string>): Outcome<seq<Scene>> {
    match ScenesFrom(variant, lookup, NoScenes, lines)
    case Raised(e) => Raised(e)
    case Ok(st) => Ok(Output(st))
  }

  /** process_scenes: CONTROL CONTENT: lines are skipped, a NAME: line opens
      its scene (creating it on first sight), and every other line under a
      non-empty scene name is parsed and added to that scene. */
  method ProcessScenes(variant: Variant, lookup: map<string, DeviceType>, lines: seq<string>) returns (r: Outcome<seq<Scene>>)
    ensures r == Scenes(variant, lookup, lines)
  {
    var current: string := [];
    var order: seq<string> := [];
    var contents: map<string, seq<SceneContent>> := map[];
    for i := 0 to |lines|
      invariant ScenesFrom(variant, lookup, SceneScan(current, order, contents), lines[i..])
             == ScenesFrom(variant, lookup, NoScenes, lines)
    {
      assert lines[i..] == [lines[i]] + lines[i + 1..];
      var line := Strip(lines[i]);
      if StartsWith(line, "CONTROL CONTENT:") {
        continue;
      }
      if StartsWith(line, "NAME:") {
        current := Strip(RemoveAll(line, "NAME:"));
        if current !in contents {
          contents := contents[current := []];
          order := order + [current];
        }
      } else if current != [] {
        var cs: seq<SceneContent>;
        if variant == CatalogAware {
          var parsed := ParseSceneContent(lookup, line);
          if parsed.Raised? {
            if parsed.error == ValueError {
              continue;
            }
            return Raised(parsed.error);
          }
          cs := parsed.value;
        } else {
          cs := LegacyParseSceneContent(line);
        }
        contents := contents[current := Records(contents, current) + cs];
      }
    }
    r := Ok(Output(SceneScan(current, order, contents)));
  }

  // ---------------------------------------------------------------- Lemmas

  /** Every name in the order has an entry and every entry is in the order,
      no name is listed twice, and a non-empty current name has an entry. */
  predicate Valid(st: SceneScan) {
    && (forall n :: n in st.contents ==> n in st.order)
    && (forall n :: n in st.order ==> n in st.contents)
    && (forall i, j :: 0 <= i < j < |st.order| ==> st.order[i] != st.order[j])
    && (st.current != [] ==> st.current in st.contents)
  }

  lemma StepValid(variant: Variant, lookup: map<string, DeviceType>, st: SceneScan, raw: string)
    requires Valid(st) && ScenesStep(variant, lookup, st, raw).Ok?
    ensures Valid(ScenesStep(variant, lookup, st, raw).value)
  {
    var line := Strip(raw);
    if !StartsWith(line, "CONTROL CONTENT:") && StartsWith(line, "NAME:") {
      var n := HeaderName(raw);
      if n !in st.contents {
        var o := st.order + [n];
        assert forall i :: 0 <= i < |st.order| ==> o[i] == st.order[i];
      }
    }
  }

  /** A run that does not fail keeps the state valid. */
  lemma {:induction false} RunValid(variant: Variant, lookup: map<string, DeviceType>, st: SceneScan, lines: seq<string>)
    requires Valid(st) && ScenesFrom(variant, lookup, st, lines).Ok?
    ensures Valid(ScenesFrom(variant, lookup, st, lines).value)
    decreases |lines|
  {
    if lines != [] {
      StepValid(variant, lookup, st, lines[0]);
      RunValid(variant, lookup, ScenesStep(variant, lookup, st, lines[0]).value, lines[1..]);
    }
  }

  /** The list of a valid state is the dictionary's items: every key appears
      exactly once, with its records, and nothing else appears. */
  lemma OutputItems(st: SceneScan)
    requires Valid(st)
    ensures var r := Output(st);
      && (forall n :: n in st.contents ==> exists k :: 0 <= k < |r| && r[k] == Scene(n, st.contents[n]))
      && (forall k :: 0 <= k < |r| ==> r[k].sceneName in st.contents && r[k].contents == st.contents[r[k].sceneName])
      && (forall i, j :: 0 <= i < j < |r| ==> r[i].sceneName != r[j].sceneName)
  {
    var r := Output(st);
    forall n | n in st.contents
      ensures exists k :: 0 <= k < |r| && r[k] == Scene(n, st.contents[n])
    {
      var k :| 0 <= k < |st.order| && st.order[k] == n;
      assert r[k] == Scene(n, st.contents[n]);
    }
  }

  /** order with each of names appended unless already listed: the order in
      which a dictionary first sees its keys. */
  function AddNew(order: seq<string>, names: seq<string>): seq<string>
    decreases |names|
  {
    if names == [] then order
    else AddNew(if names[0] in order then order else order + [names[0]], names[1..])
  }

  /** No stripped line starts with both tags. */
  lemma TagsExclusive(line: string)
    requires IsNameLine(line)
    ensures !IsControlContentLine(line)
  {
    assert Strip(line)[0] == 'N';
  }

  lemma {:induction false} RunOrder(variant: Variant, lookup: map<string, DeviceType>, st: SceneScan, lines: seq<string>)
    requires Valid(st) && ScenesFrom(variant, lookup, st, lines).Ok?
    ensures ScenesFrom(variant, lookup, st, lines).value.order == AddNew(st.order, HeaderNames(lines))
    decreases |lines|
  {
    if lines != [] {
      var st' := ScenesStep(variant, lookup, st, lines[0]).value;
      StepValid(variant, lookup, st, lines[0]);
      RunOrder(variant, lookup, st', lines[1..]);
      if IsNameLine(lines[0]) {
        TagsExclusive(lines[0]);
        assert HeaderNames(lines) == [HeaderName(lines[0])] + HeaderNames(lines[1..]);
      } else {
        assert HeaderNames(lines) == HeaderNames(lines[1..]);
      }
    }
  }

  /** The scenes of a run that does not fail are named by the NAME: lines'
      names, each once, in the order of first appearance; an empty name is a
      scene too. */
  lemma SceneNames(variant: Variant, lookup: map<string, DeviceType>, lines: seq<string>)
    requires Scenes(variant, lookup, lines).Ok?
    ensures var out := Scenes(variant, lookup, lines).value;
      && |out| == |AddNew([], HeaderNames(lines))|
      && forall k :: 0 <= k < |out| ==> out[k].sceneName == AddNew([], HeaderNames(lines))[k]
  {
    RunOrder(variant, lookup, NoScenes, lines);
  }

  /** ... and no scene name is listed twice. */
  lemma SceneNamesDistinct(variant: Variant, lookup: map<string, DeviceType>, lines: seq<string>)
    requires Scenes(variant, lookup, lines).Ok?
    ensures var out := Scenes(variant, lookup, lines).value;
      forall i, j :: 0 <= i < j < |out| ==> out[i].sceneName != out[j].sceneName
  {
    RunValid(variant, lookup, NoScenes, lines);
  }

  /** The catalog-unaware builder never fails. */
  lemma {:induction false} UnawareNeverFails(lookup: map<string, DeviceType>, st: SceneScan, lines: seq<string>)
    ensures ScenesFrom(CatalogUnaware, lookup, st, lines).Ok?
    decreases |lines|
  {
    if lines != [] {
      UnawareNeverFails(lookup, ScenesStep(CatalogUnaware, lookup, st, lines[0]).value, lines[1..]);
    }
  }

  /** The catalog-aware builder fails only with the errors the scene-line
      parser lets escape: IndexError from a short fan line and StopIteration
      from a dimmer line without ON or OFF. */
  lemma {:induction false} AwareErrors(lookup: map<string, DeviceType>, st: SceneScan, lines: seq<string>)
    ensures var r := ScenesFrom(CatalogAware, lookup, st, lines);
      r.Raised? ==> r.error == IndexError || r.error == StopIteration
    decreases |lines|
  {
    if lines != [] {
      SceneLineErrors(lookup, Strip(lines[0]));
      var s := ScenesStep(CatalogAware, lookup, st, lines[0]);
      if s.Ok? {
        AwareErrors(lookup, s.value, lines[1..]);
      }
    }
  }

  /** The records the lines of one block body add to its scene, or the first
      error that escapes. */
  function BodyRecords(variant: Variant, lookup: map<string, DeviceType>, body: seq<string>): Outcome<seq<SceneContent>>
    decreases |body|
  {
    if body == [] then Ok([])
    else
      var here := if IsControlContentLine(body[0]) then Ok(None) else LineRecords(variant, lookup, Strip(body[0]));
      match here
      case Raised(e) => Raised(e)
      case Ok(o) =>
        match BodyRecords(variant, lookup, body[1..])
        case Raised(e) => Raised(e)
        case Ok(rest) => Ok((if o.Some? then o.value else []) + rest)
  }

  lemma AddTwice(st: SceneScan, a: seq<SceneContent>, b: seq<SceneContent>)
    requires st.current in st.contents
    ensures AddRecords(AddRecords(st, a), b) == AddRecords(st, a + b)
  {
    var c := st.current;
    assert st.contents[c] + a + b == st.contents[c] + (a + b);
  }

  lemma AddNothing(st: SceneScan)
    requires st.current in st.contents
    ensures AddRecords(st, []) == st
  {
    var c := st.current;
    assert st.contents[c] + [] == st.contents[c];
    assert st.contents[c := st.contents[c]] == st.contents;
  }

  lemma {:induction false} BodyRun(variant: Variant, lookup: map<string, DeviceType>, st: SceneScan, body: seq<string>)
    requires st.current != [] && st.current in st.contents && NoNameLine(body)
    ensures ScenesFrom(variant, lookup, st, body)
         == match BodyRecords(variant, lookup, body)
            case Raised(e) => Raised(e)
            case Ok(cs) => Ok(AddRecords(st, cs))
    decreases |body|
  {
    if body == [] {
      AddNothing(st);
    } else {
      var s := ScenesStep(variant, lookup, st, body[0]);
      if s.Ok? {
        var st' := s.value;
        var o := if IsControlContentLine(body[0]) then Ok(None) else LineRecords(variant, lookup, Strip(body[0]));
        var cs := if o.value.Some? then o.value.value else [];
        if o.value.None? {
          AddNothing(st);
        }
        assert st' == AddRecords(st, cs);
        BodyRun(variant, lookup, st', body[1..]);
        match BodyRecords(variant, lookup, body[1..])
        case Raised(e) =>
        case Ok(rest) => AddTwice(st, cs, rest);
      }
    }
  }

  /** A NAME: line with a non-empty name followed by lines that are not NAME:
      lines: the scene is opened (created at the end of the order on first
      sight, kept in place when reopened) and the body's records are appended
      after those it already had, unless a line raises an error that
      escapes. */
  lemma SceneBlock(variant: Variant, lookup: map<string, DeviceType>, st: SceneScan, header: string, body: seq<string>)
    requires IsNameLine(header) && HeaderName(header) != [] && NoNameLine(body)
    ensures var n, sc := HeaderName(header), Open(st, HeaderName(header));
      ScenesFrom(variant, lookup, st, [header] + body)
         == match BodyRecords(variant, lookup, body)
            case Raised(e) => Raised(e)
            case Ok(cs) => Ok(sc.(contents := sc.contents[n := Records(sc.contents, n) + cs]))
  {
    TagsExclusive(header);
    assert ([header] + body)[1..] == body;
    BodyRun(variant, lookup, Open(st, HeaderName(header)), body);
  }

  /** A NAME: line whose name is empty still creates the scene "" (with no
      records), and the lines after it, up to the next NAME: line, are
      ignored. */
  lemma {:induction false} EmptyNameBlock(variant: Variant, lookup: map<string, DeviceType>, st: SceneScan, header: string, body: seq<string>)
    requires IsNameLine(header) && HeaderName(header) == [] && NoNameLine(body)
    ensures ScenesFrom(variant, lookup, st, [header] + body) == Ok(Open(st, []))
  {
    TagsExclusive(header);
    assert ([header] + body)[1..] == body;
    IgnoredWithoutName(variant, lookup, Open(st, []), body);
  }

  lemma {:induction false} IgnoredWithoutName(variant: Variant, lookup: map<string, DeviceType>, st: SceneScan, body: seq<string>)
    requires st.current == [] && NoNameLine(body)
    ensures ScenesFrom(variant, lookup, st, body) == Ok(st)
    decreases |body|
  {
    if body != [] {
      IgnoredWithoutName(variant, lookup, st, body[1..]);
    }
  }
}
