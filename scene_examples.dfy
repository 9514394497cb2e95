/// Worked readings of scene lines by both parsers, proved for every choice of
/// names, status and level digits.
module SceneLineExamples {
  import opened Results
  import opened PyText
  import opened Catalog
  import opened SceneLine

  /** A level token "+<digits>%" is a word containing "+". */
  lemma LevelTokenWord(d: string)
    requires IsDigits(d)
    ensures IsWord("+" + d + "%") && Contains("+" + d + "%", "+")
  {
    var t := "+" + d + "%";
    assert t == ['+'] + d + ['%'];
    assert OccursAt(t, "+", 0);
    forall i | 0 <= i < |t| ensures !IsSpace(t[i]) {
      if 0 < i < |t| - 1 {
        assert t[i] == d[i - 1] && IsDigit(d[i - 1]);
      }
    }
  }

  /** Removing every "%" and then every "+" from "+<digits>%" leaves the digits. */
  lemma PercentThenPlus(d: string)
    requires IsDigits(d)
    ensures RemoveAll(RemoveAll("+" + d + "%", "%"), "+") == d
  {
    DigitsExclude(d, '%');
    DigitsExclude(d, '+');
    assert "%" == ['%'] && "+" == ['+'];
    assert "+" + d + "%" == ['+'] + d + ['%'];
    RemoveAround('+', d, '%', '%');
    var m := RemoveAll("+" + d + "%", "%");
    assert m == ['+'] + d;
    RemoveAllCharConcat(['+'], d, '+');
    RemoveAllAbsent(d, '+');
    RemoveAllSingle('+', '+');
  }

  /** Removing every "+" and then every "%" from "+<digits>%" leaves the digits. */
  lemma PlusThenPercent(d: string)
    requires IsDigits(d)
    ensures RemoveAll(RemoveAll("+" + d + "%", "+"), "%") == d
  {
    DigitsExclude(d, '%');
    DigitsExclude(d, '+');
    assert "%" == ['%'] && "+" == ['+'];
    assert "+" + d + "%" == ['+'] + d + ['%'];
    RemoveAround('+', d, '%', '+');
    var n := RemoveAll("+" + d + "%", "+");
    assert n == d + ['%'];
    RemoveAllCharConcat(d, ['%'], '%');
    RemoveAllAbsent(d, '%');
    RemoveAllSingle('%', '%');
  }

  lemma LegacyLineJoin(a: string, b: string, st: string, d: string)
    ensures a + ", " + b + " " + st + " +" + d + "%" == Join([a + ",", b, st, "+" + d + "%"], " ")
  {
    JoinFour(a + ",", b, st, "+" + d + "%");
  }

  lemma LegacyLineWords(a: string, b: string, st: string, d: string)
    requires IsWord(a) && IsWord(b) && IsStatus(st) && IsDigits(d)
    ensures forall k :: 0 <= k < 4 ==> IsWord([a + ",", b, st, "+" + d + "%"][k])
  {
    WordComma(a);
    LevelTokenWord(d);
  }

  /** The tokens of "<a>, <b> <status> +<digits>%". */
  lemma LegacyLineTokens(a: string, b: string, st: string, d: string)
    requires IsWord(a) && IsWord(b) && IsStatus(st) && IsDigits(d)
    ensures Tokens(a + ", " + b + " " + st + " +" + d + "%") == [a + ",", b, st, "+" + d + "%"]
  {
    LegacyLineJoin(a, b, st, d);
    LegacyLineWords(a, b, st, d);
    TokensJoin([a + ",", b, st, "+" + d + "%"]);
  }

  /** "<a>, <b>" split on commas: the two names, the second after its space. */
  lemma CommaPieces(a: string, b: string)
    requires IsWord(b) && ',' !in a && ',' !in b
    ensures SplitOn(Join([a + ",", b], " "), ',') == [a, " " + b]
  {
    var ws := [a + ",", b];
    assert ws[1..] == [b];
    assert Join(ws, " ") == a + [','] + (" " + b);
    SplitOnFirst(a, ',', " " + b);
    SplitOnAbsent(" " + b, ',');
  }

  /** Two comma-separated names before the status. */
  lemma LegacyTwoNames(parts: seq<string>, a: string, b: string)
    requires |parts| >= 2 && LegacyStatusIndex(parts) == 2 && parts[..2] == [a + ",", b]
    requires IsWord(a) && IsWord(b) && ',' !in a && ',' !in b
    ensures LegacyNames(parts) == [a, b]
  {
    CommaPieces(a, b);
    StripWord(a);
    StripSpaceWord(b);
  }

  /** A last token "+<digits>%" sets the level to the digits' value, whatever
      the status. */
  lemma LegacyLevelToken(parts: seq<string>, d: string)
    requires |parts| >= 2 && parts[|parts| - 1] == "+" + d + "%" && IsDigits(d)
    ensures LegacyLevel(parts) == DigitsValue(d)
  {
    LevelTokenWord(d);
    PercentThenPlus(d);
    ParseIntDigits(d);
  }

  /** "<a>, <b> <status> +<digits>%": one record per name, each with the status
      and the level the last token gives. */
  lemma LegacyLineExample(a: string, b: string, st: string, d: string)
    requires IsWord(a) && IsWord(b) && ',' !in a && ',' !in b && IsStatus(st) && IsDigits(d)
    ensures LegacyParseLine(a + ", " + b + " " + st + " +" + d + "%")
         == [SceneContent(a, Some(st), Level(DigitsValue(d))), SceneContent(b, Some(st), Level(DigitsValue(d)))]
  {
    var parts := [a + ",", b, st, "+" + d + "%"];
    LegacyLineTokens(a, b, st, d);
    assert parts[3][0] == '+';
    assert LegacyStatusIndex(parts) == 2;
    assert parts[..2] == [a + ",", b];
    LegacyTwoNames(parts, a, b);
    LegacyLevelToken(parts, d);
  }

  /** A name token followed by a comma, or a bare name token, is read as the
      name. */
  lemma NameTokens(a: string)
    requires IsWord(a) && ',' !in a
    ensures DeviceName(a + ",") == a && DeviceName(a) == a
  {
    WordComma(a);
    StripWord(a + ",");
    StripCommasComma(a);
    StripWord(a);
    TrimKeeps(a, Commas);
  }

  lemma CommaNotStatus(a: string)
    ensures !IsStatus(a + ",")
  {
    var t := a + ",";
    assert t[|t| - 1] == ',';
  }

  lemma FirstStatusThird(parts: seq<string>)
    requires |parts| >= 3 && !IsStatus(parts[0]) && !IsStatus(parts[1]) && IsStatus(parts[2])
    ensures FirstStatus(parts) == Some(2)
  {
    assert FirstStatusFrom(parts, 2) == Some(2);
    assert FirstStatusFrom(parts, 1) == Some(2);
  }

  lemma DimmerLevelToken(parts: seq<string>, d: string)
    requires |parts| == 4 && parts[2] == "ON" && parts[3] == "+" + d + "%" && IsDigits(d)
    ensures DimmerLevel(parts, 2) == DigitsValue(d)
  {
    PlusThenPercent(d);
    assert forall i :: 0 <= i < |d| ==> IsDigit(d[i]);
    StripKeeps(d);
    ParseIntDigits(d);
  }

  lemma NamedPair(a: string, b: string, status: Option<string>, c: Conditions)
    requires IsWord(a) && IsWord(b) && ',' !in a && ',' !in b
    ensures Named([a + ",", b], status, c) == [SceneContent(a, status, c), SceneContent(b, status, c)]
  {
    NameTokens(a);
    NameTokens(b);
  }

  /** The catalog-aware reading of "<a>, <b> <status> +<digits>%" for a
      dimmer a: one record per name; ON takes the level from the next token,
      OFF is level 0 whatever follows. */
  lemma DimmerLineExample(lookup: map<string, DeviceType>, a: string, b: string, st: string, d: string)
    requires a in lookup && lookup[a] == DeviceType.Dimmer
    requires IsWord(a) && IsWord(b) && ',' !in a && ',' !in b && !IsStatus(b) && IsStatus(st) && IsDigits(d)
    ensures var level := if st == "ON" then DigitsValue(d) else 0;
      ParseSceneLine(lookup, a + ", " + b + " " + st + " +" + d + "%")
         == Ok([SceneContent(a, Some(st), Level(level)), SceneContent(b, Some(st), Level(level))])
  {
    var line := a + ", " + b + " " + st + " +" + d + "%";
    var parts := [a + ",", b, st, "+" + d + "%"];
    LegacyLineTokens(a, b, st, d);
    NameTokens(a);
    assert DetermineDeviceType(lookup, parts[0]) == Ok(DeviceType.Dimmer);
    assert ParseSceneLine(lookup, line) == DimmerContents(parts);
    CommaNotStatus(a);
    FirstStatusThird(parts);
    var level := DimmerLevel(parts, 2);
    if st == "ON" {
      DimmerLevelToken(parts, d);
    }
    assert parts[..2] == [a + ",", b];
    NamedPair(a, b, Some(st), Level(level));
  }

  /** "Light1, Light2 ON +45%" read by the catalog-unaware parser. */
  lemma LegacyLight45()
    ensures LegacyParseLine("Light1, Light2 ON +45%")
         == [SceneContent("Light1", Some("ON"), Level(45)), SceneContent("Light2", Some("ON"), Level(45))]
  {
    assert "Light1, Light2 ON +45%" == "Light1" + ", " + "Light2" + " " + "ON" + " +" + "45" + "%";
    assert "45"[..1] == "4";
    LegacyLineExample("Light1", "Light2", "ON", "45");
  }

  /** "Light1, Light2 OFF +30%": the catalog-unaware parser takes level 30
      from the last token, while for a dimmer Light1 the catalog-aware parser
      gives level 0. */
  lemma VariantsDisagreeOnOffLevel(lookup: map<string, DeviceType>)
    requires "Light1" in lookup && lookup["Light1"] == DeviceType.Dimmer
    ensures LegacyParseLine("Light1, Light2 OFF +30%")
         == [SceneContent("Light1", Some("OFF"), Level(30)), SceneContent("Light2", Some("OFF"), Level(30))]
    ensures ParseSceneLine(lookup, "Light1, Light2 OFF +30%")
         == Ok([SceneContent("Light1", Some("OFF"), Level(0)), SceneContent("Light2", Some("OFF"), Level(0))])
  {
    OffLevelLine();
    LegacyLineExample("Light1", "Light2", "OFF", "30");
    DimmerLineExample(lookup, "Light1", "Light2", "OFF", "30");
  }

  /** The example line, cut at its separators. */
  lemma OffLevelLine()
    ensures "Light1, Light2 OFF +30%" == "Light1" + ", " + "Light2" + " " + "OFF" + " +" + "30" + "%"
    ensures IsWord("Light1") && IsWord("Light2") && ',' !in "Light1" && ',' !in "Light2"
    ensures !IsStatus("Light2") && IsStatus("OFF") && "OFF" != "ON"
    ensures IsDigits("30") && DigitsValue("30") == 30
  {
    assert "30"[..1] == "3";
  }
}
