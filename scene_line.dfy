/// The scene content line parsers: the catalog-aware parser that dispatches
/// on the device type of the line's first token, with one handler per type,
/// and the catalog-unaware parser (status, level, comma-split names).
module SceneLine {
  import opened Results
  import opened PyText
  import opened Catalog

  /** The statusConditions object of a scene record, one shape per template. */
  datatype Conditions =
    | NoConditions
    | Level(level: int)
    | Position(position: int)
    | FanState(relay: string, speed: int)
    | TwoWayPower(leftPowerOnOff: string, rightPowerOnOff: string)
    | SingleWayPower(rightPowerOnOff: string)

  /** One scene record; status is absent for the PowerPoint templates. */
  datatype SceneContent = SceneContent(name: string, status: Option<string>, statusConditions: Conditions)

  predicate IsStatus(t: string) {
    t == "ON" || t == "OFF"
  }

  /** entry.strip().strip(",") */
  function DeviceName(token: string): string {
    StripCommas(Strip(token))
  }

  /** One record per name token, all with the same status and conditions. */
  function Named(tokens: seq<string>, status: Option<string>, c: Conditions): (r: seq<SceneContent>)
    ensures |r| == |tokens|
  {
    seq(|tokens|, k requires 0 <= k < |tokens| => SceneContent(DeviceName(tokens[k]), status, c))
  }

  /** The loop every multi-name handler runs: one record per name token, in
      order. */
  method NameRecords(tokens: seq<string>, status: Option<string>, c: Conditions) returns (contents: seq<SceneContent>)
    ensures contents == Named(tokens, status, c)
  {
    contents := [];
    for k := 0 to |tokens|
      invariant |contents| == k
      invariant forall j :: 0 <= j < k ==> contents[j] == SceneContent(DeviceName(tokens[j]), status, c)
    {
      contents := contents + [SceneContent(DeviceName(tokens[k]), status, c)];
    }
  }

  // ---------------------------------------------------------------- Dimmer

  /** The index of the first ON/OFF token at or after k. */
  function FirstStatusFrom(parts: seq<string>, k: nat): (r: Option<nat>)
    requires k <= |parts|
    ensures r.Some? ==> (k <= r.value < |parts| && IsStatus(parts[r.value])
      && forall j :: k <= j < r.value ==> !IsStatus(parts[j]))
    ensures r.None? ==> forall j :: k <= j < |parts| ==> !IsStatus(parts[j])
    decreases |parts| - k
  {
    if k == |parts| then None
    else if IsStatus(parts[k]) then Some(k)
    else FirstStatusFrom(parts, k + 1)
  }

  /** next(i for i, part in enumerate(parts) if part in ["ON", "OFF"]) */
  function FirstStatus(parts: seq<string>): Option<nat> {
    FirstStatusFrom(parts, 0)
  }

  /** The level token with every "+" and then every "%" removed, stripped. */
  function LevelText(t: string): string {
    Strip(RemoveAll(RemoveAll(t, "+"), "%"))
  }

  /** The dimmer level: OFF gives 0; ON gives the value of the next token, or
      100 when there is none or it does not parse. */
  function DimmerLevel(parts: seq<string>, si: nat): int
    requires si < |parts| && IsStatus(parts[si])
  {
    if parts[si] == "ON" then
      if |parts| > si + 1 then
        match ParseInt(LevelText(parts[si + 1]))
        case Some(v) => v
        case None => 100
      else 100
    else 0
  }

  /** handle_dimmer_type: the status is the first ON/OFF token and the names
      are the tokens before it; with no ON/OFF token, next raises
      StopIteration. */
  function DimmerContents(parts: seq<string>): Outcome<seq<SceneContent>> {
    match FirstStatus(parts)
    case None => Raised(StopIteration)
    case Some(si) => Ok(Named(parts[..si], Some(parts[si]), Level(DimmerLevel(parts, si))))
  }

  method HandleDimmer(parts: seq<string>) returns (r: Outcome<seq<SceneContent>>)
    ensures r == DimmerContents(parts)
  {
    var si := 0;
    while si < |parts| && !(parts[si] == "ON" || parts[si] == "OFF")
      invariant si <= |parts|
      invariant FirstStatusFrom(parts, si) == FirstStatus(parts)
    {
      si := si + 1;
    }
    if si == |parts| {
      return Raised(StopIteration);
    }
    var status := parts[si];
    var level := 100;
    if status == "ON" && |parts| > si + 1 {
      var parsed := ParseInt(LevelText(parts[si + 1]));
      level := if parsed.Some? then parsed.value else 100;
    } else if status == "OFF" {
      level := 0;
    }
    var contents := NameRecords(parts[..si], Some(status), Level(level));
    r := Ok(contents);
  }

  // ---------------------------------------------------- Relay and Curtain

  /** handle_relay_type: the last token is the status, every other token a
      name. */
  function RelayContents(parts: seq<string>): seq<SceneContent>
    requires parts != []
  {
    Named(parts[..|parts| - 1], Some(parts[|parts| - 1]), NoConditions)
  }

  method HandleRelay(parts: seq<string>) returns (contents: seq<SceneContent>)
    requires parts != []
    ensures contents == RelayContents(parts)
  {
    var status := parts[|parts| - 1];
    contents := NameRecords(parts[..|parts| - 1], Some(status), NoConditions);
  }

  /** The curtain position: 100 exactly when the status is OPEN. */
  function CurtainPosition(status: string): int {
    if status == "OPEN" then 100 else 0
  }

  /** handle_curtain_type: as for a relay, with the position condition. */
  function CurtainContents(parts: seq<string>): seq<SceneContent>
    requires parts != []
  {
    var status := parts[|parts| - 1];
    Named(parts[..|parts| - 1], Some(status), Position(CurtainPosition(status)))
  }

  method HandleCurtain(parts: seq<string>) returns (contents: seq<SceneContent>)
    requires parts != []
    ensures contents == CurtainContents(parts)
  {
    var status := parts[|parts| - 1];
    contents := NameRecords(parts[..|parts| - 1], Some(status), Position(if status == "OPEN" then 100 else 0));
  }

  // ------------------------------------------------------------- PowerPoint

  /** The number of trailing power tokens of a PowerPoint sub-type. */
  function PowerTokens(way: PowerPointWay): nat {
    if way == TwoWay then 2 else 1
  }

  /** handle_powerpoint_type: Two-Way reads the last token as the right power
      and the one before as the left power; Single-Way reads the last token as
      the right power. The records have no status. */
  function PowerPointContents(parts: seq<string>, way: PowerPointWay): seq<SceneContent>
    requires |parts| >= PowerTokens(way)
  {
    var n := |parts|;
    match way
    case TwoWay => Named(parts[..n - 2], None, TwoWayPower(parts[n - 2], parts[n - 1]))
    case SingleWay => Named(parts[..n - 1], None, SingleWayPower(parts[n - 1]))
  }

  method HandlePowerPoint(parts: seq<string>, way: PowerPointWay) returns (contents: seq<SceneContent>)
    requires |parts| >= PowerTokens(way)
    ensures contents == PowerPointContents(parts, way)
  {
    var n := |parts|;
    if way == TwoWay {
      var right := parts[n - 1];
      var left := parts[n - 2];
      contents := NameRecords(parts[..n - 2], None, TwoWayPower(left, right));
    } else {
      var power := parts[n - 1];
      contents := NameRecords(parts[..n - 1], None, SingleWayPower(power));
    }
  }

  // -------------------------------------------------------------------- Fan

  /** handle_fan_type: tokens 0, 1, 3 and 5 are the name (as it is), the
      status, the relay status and the speed. Fewer than six tokens is an
      IndexError; a speed that is not an integer is a ValueError. */
  function HandleFan(parts: seq<string>): (r: Outcome<seq<SceneContent>>)
    ensures r.Raised? <==> |parts| < 6 || ParseInt(parts[5]).None?
    ensures r.Raised? ==> r.error == (if |parts| < 6 then IndexError else ValueError)
    ensures r.Ok? ==> r.value == [SceneContent(parts[0], Some(parts[1]), FanState(parts[3], ParseInt(parts[5]).value))]
  {
    if |parts| < 6 then Raised(IndexError)
    else match ParseInt(parts[5])
      case None => Raised(ValueError)
      case Some(speed) => Ok([SceneContent(parts[0], Some(parts[1]), FanState(parts[3], speed))])
  }

  // ------------------------------------------------------------- Dispatcher

  /** determine_device_type: the token stripped of white space and commas
      must be non-empty and in the lookup; otherwise ValueError. */
  function DetermineDeviceType(lookup: map<string, DeviceType>, token: string): (r: Outcome<DeviceType>)
    ensures r.Ok? <==> DeviceName(token) != [] && DeviceName(token) in lookup
    ensures r.Ok? ==> r.value == lookup[DeviceName(token)]
    ensures r.Raised? ==> r.error == ValueError
  {
    var key := DeviceName(token);
    if key == [] then Raised(ValueError)
    else if key in lookup then Ok(lookup[key])
    else Raised(ValueError)
  }

  /** parse_scene_content on one line: a line with fewer than two tokens, or
      whose first token has no known type, yields nothing; otherwise the
      handler of the type runs, and an RGB device yields nothing. */
  function ParseSceneLine(lookup: map<string, DeviceType>, line: string): Outcome<seq<SceneContent>> {
    var parts := Tokens(line);
    if |parts| < 2 then Ok([])
    else match DetermineDeviceType(lookup, parts[0])
      case Raised(_) => Ok([])
      case Ok(t) =>
        match t
        case Fan => HandleFan(parts)
        case Relay => Ok(RelayContents(parts))
        case Curtain => Ok(CurtainContents(parts))
        case Dimmer => DimmerContents(parts)
        case PowerPoint(way) => Ok(PowerPointContents(parts, way))
        case Rgb => Ok([])
  }

  method ParseSceneContent(lookup: map<string, DeviceType>, line: string) returns (r: Outcome<seq<SceneContent>>)
    ensures r == ParseSceneLine(lookup, line)
  {
    var parts := Tokens(line);
    if |parts| < 2 {
      return Ok([]);
    }
    var found := DetermineDeviceType(lookup, parts[0]);
    if found.Raised? {
      return Ok([]);
    }
    match found.value {
      case Fan =>
        r := HandleFan(parts);
      case Relay =>
        var contents := HandleRelay(parts);
        r := Ok(contents);
      case Curtain =>
        var contents := HandleCurtain(parts);
        r := Ok(contents);
      case Dimmer =>
        r := HandleDimmer(parts);
      case PowerPoint(way) =>
        var contents := HandlePowerPoint(parts, way);
        r := Ok(contents);
      case Rgb =>
        r := Ok([]);
    }
  }

  // ------------------------------------------------- Catalog-unaware parser

  /** The index of the status token: the last token when it is ON/OFF,
      otherwise the one before it. */
  function LegacyStatusIndex(parts: seq<string>): nat
    requires |parts| >= 2
  {
    if IsStatus(parts[|parts| - 1]) then |parts| - 1 else |parts| - 2
  }

  /** The level: 100 for ON and 0 otherwise, replaced by the value of the last
      token (every "%" and then every "+" removed) when that token contains a
      "+" and parses. */
  function LegacyLevel(parts: seq<string>): int
    requires |parts| >= 2
  {
    var last := parts[|parts| - 1];
    var default := if parts[LegacyStatusIndex(parts)] == "ON" then 100 else 0;
    if Contains(last, "+") then
      match ParseInt(RemoveAll(RemoveAll(last, "%"), "+"))
      case Some(v) => v
      case None => default
    else default
  }

  /** The names: the tokens before the status, joined by spaces, split on
      commas, each stripped. */
  function LegacyNames(parts: seq<string>): seq<string>
    requires |parts| >= 2
  {
    var pieces := SplitOn(Join(parts[..LegacyStatusIndex(parts)], " "), ',');
    seq(|pieces|, k requires 0 <= k < |pieces| => Strip(pieces[k]))
  }

  /** parse_scene_content of the catalog-unaware variant on one line. */
  function LegacyParseLine(line: string): seq<SceneContent> {
    var parts := Tokens(line);
    if |parts| < 2 then []
    else
      var names := LegacyNames(parts);
      var status := parts[LegacyStatusIndex(parts)];
      var level := LegacyLevel(parts);
      seq(|names|, k requires 0 <= k < |names| => SceneContent(names[k], Some(status), Level(level)))
  }

  method LegacyParseSceneContent(line: string) returns (contents: seq<SceneContent>)
    ensures contents == LegacyParseLine(line)
  {
    contents := [];
    var parts := Tokens(line);
    if |parts| < 2 {
      return;
    }
    var status, level, names := LegacyHeader(parts);
    for k := 0 to |names|
      invariant |contents| == k
      invariant forall j :: 0 <= j < k ==> contents[j] == SceneContent(Strip(names[j]), Some(status), Level(level))
    {
      contents := contents + [SceneContent(Strip(names[k]), Some(status), Level(level))];
    }
  }

  /** The statements of parse_scene_content before its loop: the status, the
      level and the comma-separated name pieces. */
  method LegacyHeader(parts: seq<string>) returns (status: string, level: int, names: seq<string>)
    requires |parts| >= 2
    ensures status == parts[LegacyStatusIndex(parts)] && level == LegacyLevel(parts)
    ensures |names| == |LegacyNames(parts)|
    ensures forall k :: 0 <= k < |names| ==> Strip(names[k]) == LegacyNames(parts)[k]
  {
    var last := parts[|parts| - 1];
    status := if last == "ON" || last == "OFF" then last else parts[|parts| - 2];
    level := if status == "ON" then 100 else 0;
    if Contains(last, "+") {
      var parsed := ParseInt(RemoveAll(RemoveAll(last, "%"), "+"));
      if parsed.Some? {
        level := parsed.value;
      }
    }
    var nameTokens := if last == "ON" || last == "OFF" then parts[..|parts| - 1] else parts[..|parts| - 2];
    names := SplitOn(Join(nameTokens, " "), ',');
  }

  // ---------------------------------------------------------------- Lemmas

  /** The dimmer handler fails exactly when no token is ON or OFF, and then
      with StopIteration; otherwise its records are the tokens before the
      first ON/OFF token, in order, each with that token as status. */
  lemma DimmerNames(parts: seq<string>)
    ensures DimmerContents(parts).Raised? <==> forall j :: 0 <= j < |parts| ==> !IsStatus(parts[j])
    ensures DimmerContents(parts).Raised? ==> DimmerContents(parts).error == StopIteration
    ensures DimmerContents(parts).Ok? ==>
      var rs := DimmerContents(parts).value;
      && |rs| < |parts| && IsStatus(parts[|rs|])
      && forall k :: 0 <= k < |rs| ==>
           && !IsStatus(parts[k])
           && rs[k].name == DeviceName(parts[k])
           && rs[k].status == Some(parts[|rs|])
  {
  }

  /** A status token that is not ON never yields a level other than 0, and ON
      without a parsable next token yields 100. */
  lemma DimmerLevelRange(parts: seq<string>, si: nat)
    requires si < |parts| && IsStatus(parts[si])
    ensures parts[si] == "OFF" ==> DimmerLevel(parts, si) == 0
    ensures parts[si] == "ON" && (|parts| == si + 1 || ParseInt(LevelText(parts[si + 1])).None?) ==>
      DimmerLevel(parts, si) == 100
  {
  }

  /** The catalog-aware parser raises only from the fan handler (IndexError
      for fewer than six tokens, ValueError for a speed that is not an
      integer) and from the dimmer handler (StopIteration when no token is ON
      or OFF). */
  lemma {:induction false} SceneLineErrors(lookup: map<string, DeviceType>, line: string)
    ensures var r, parts := ParseSceneLine(lookup, line), Tokens(line);
      r.Raised? ==>
        && |parts| >= 2 && DeviceName(parts[0]) in lookup
        && match r.error
           case IndexError => lookup[DeviceName(parts[0])] == Fan && |parts| < 6
           case ValueError => lookup[DeviceName(parts[0])] == Fan && |parts| >= 6 && ParseInt(parts[5]).None?
           case StopIteration => lookup[DeviceName(parts[0])] == DeviceType.Dimmer && FirstStatus(parts).None?
           case _ => false
  {
    var parts := Tokens(line);
    if |parts| >= 2 && DeviceName(parts[0]) != [] && DeviceName(parts[0]) in lookup {
      var t := lookup[DeviceName(parts[0])];
      if t == Fan {
        assert ParseSceneLine(lookup, line) == HandleFan(parts);
      } else if t == DeviceType.Dimmer {
        assert ParseSceneLine(lookup, line) == DimmerContents(parts);
      }
    }
  }

  /** A line with fewer than two tokens, or whose first token (white space and
      commas stripped) is empty or has no known type, or whose device is an
      RGB device, yields nothing. */
  lemma SceneLineSkipped(lookup: map<string, DeviceType>, line: string)
    requires var parts := Tokens(line);
      || |parts| < 2
      || DeviceName(parts[0]) == [] || DeviceName(parts[0]) !in lookup
      || lookup[DeviceName(parts[0])] == Rgb
    ensures ParseSceneLine(lookup, line) == Ok([])
  {
  }

  /** The catalog-unaware parser yields one record per comma of the name text
      plus one, so at least one record for any line of two or more tokens. */
  lemma LegacyRecordCount(line: string)
    ensures var parts := Tokens(line);
      |parts| >= 2 ==>
        |LegacyParseLine(line)| == CountChar(Join(parts[..LegacyStatusIndex(parts)], " "), ',') + 1
  {
    var parts := Tokens(line);
    if |parts| >= 2 {
      SplitOnJoin(Join(parts[..LegacyStatusIndex(parts)], " "), ',');
    }
  }

  /** A line whose first device is a relay never fails and yields one record
      per token before the last, named by that token, with the last token as
      status and no conditions. */
  lemma RelayLine(lookup: map<string, DeviceType>, line: string)
    requires var parts := Tokens(line);
      |parts| >= 2 && DeviceName(parts[0]) != [] && DeviceName(parts[0]) in lookup
      && lookup[DeviceName(parts[0])] == Relay
    ensures var parts, r := Tokens(line), ParseSceneLine(lookup, line);
      && r.Ok? && |r.value| == |parts| - 1
      && forall k :: 0 <= k < |r.value| ==>
           r.value[k] == SceneContent(DeviceName(parts[k]), Some(parts[|parts| - 1]), NoConditions)
  {
  }

  /** A line whose first device is a curtain is read as a relay line, with
      position 100 exactly when the status is OPEN and 0 otherwise. */
  lemma CurtainLine(lookup: map<string, DeviceType>, line: string)
    requires var parts := Tokens(line);
      |parts| >= 2 && DeviceName(parts[0]) != [] && DeviceName(parts[0]) in lookup
      && lookup[DeviceName(parts[0])] == Curtain
    ensures var parts, r := Tokens(line), ParseSceneLine(lookup, line);
      && r.Ok? && |r.value| == |parts| - 1
      && forall k :: 0 <= k < |r.value| ==>
           && r.value[k].name == DeviceName(parts[k])
           && r.value[k].status == Some(parts[|parts| - 1])
           && (r.value[k].statusConditions == Position(100) <==> parts[|parts| - 1] == "OPEN")
           && (r.value[k].statusConditions == Position(0) <==> parts[|parts| - 1] != "OPEN")
  {
  }

  /** A two-way PowerPoint line yields one record per token before the last
      two, without status, with the second-to-last token as left power and
      the last as right power; a single-way line reads only the last token,
      as right power. */
  lemma PowerPointLine(lookup: map<string, DeviceType>, line: string, way: PowerPointWay)
    requires var parts := Tokens(line);
      |parts| >= 2 && DeviceName(parts[0]) != [] && DeviceName(parts[0]) in lookup
      && lookup[DeviceName(parts[0])] == PowerPoint(way)
    ensures var parts, r := Tokens(line), ParseSceneLine(lookup, line);
      var n := |parts|;
      && r.Ok? && |r.value| == n - PowerTokens(way)
      && forall k :: 0 <= k < |r.value| ==>
           && r.value[k].name == DeviceName(parts[k])
           && r.value[k].status.None?
           && r.value[k].statusConditions
              == (if way == TwoWay then TwoWayPower(parts[n - 2], parts[n - 1]) else SingleWayPower(parts[n - 1]))
  {
  }

  /** A catalog-unaware line of two or more tokens yields at least one record.
      All of them carry the status (the last token when it is ON or OFF,
      otherwise the one before it) and the same level, and every name is
      stripped. Without a "+" in the last token, the level is 100 for ON and
      0 otherwise. */
  lemma LegacyLine(line: string)
    requires |Tokens(line)| >= 2
    ensures var parts, rs := Tokens(line), LegacyParseLine(line);
      var n := |parts|;
      var status := if IsStatus(parts[n - 1]) then parts[n - 1] else parts[n - 2];
      && |rs| >= 1
      && (!Contains(parts[n - 1], "+") ==> LegacyLevel(parts) == if status == "ON" then 100 else 0)
      && forall k :: 0 <= k < |rs| ==>
           && rs[k].status == Some(status)
           && rs[k].statusConditions == Level(LegacyLevel(parts))
           && Strip(rs[k].name) == rs[k].name
  {
    LegacyNamesStripped(Tokens(line));
  }

  lemma LegacyNamesStripped(parts: seq<string>)
    requires |parts| >= 2
    ensures |LegacyNames(parts)| >= 1
    ensures forall k :: 0 <= k < |LegacyNames(parts)| ==> Strip(LegacyNames(parts)[k]) == LegacyNames(parts)[k]
  {
    var names := LegacyNames(parts);
    forall k | 0 <= k < |names|
      ensures Strip(names[k]) == names[k]
    {
      var pieces := SplitOn(Join(parts[..LegacyStatusIndex(parts)], " "), ',');
      StripStripped(pieces[k]);
    }
  }
}
