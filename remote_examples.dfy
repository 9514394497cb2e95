/// Worked readings of link lines, proved for every choice of number, name
/// and action, and one concrete line.
module RemoteExamples {
  import opened Results
  import opened PyText
  import opened Remotes

  /** A link line "<digits>:<rest>" with no colon in rest has exactly two fields. */
  lemma LinkFields(d: string, rest: string)
    requires IsDigits(d) && ':' !in rest
    ensures SplitOn(d + ":" + rest, ':') == [d, rest]
  {
    DigitsExclude(d, ':');
    assert d + ":" + rest == d + [':'] + rest;
    SplitOnFirst(d, ':', rest);
    SplitOnAbsent(rest, ':');
  }

  /** int() of the digits field. */
  lemma LinkNumber(d: string)
    requires IsDigits(d)
    ensures ParseInt(Strip(d)) == Some(DigitsValue(d))
  {
    assert forall i :: 0 <= i < |d| ==> IsDigit(d[i]);
    StripKeeps(d);
    ParseIntDigits(d);
  }

  /** The last " - " before a word is the one rsplit finds. */
  lemma SplitAction(x: string, act: string)
    requires IsWord(act)
    ensures RSplitOnce(x + " - " + act, " - ") == Some((x, act))
  {
    var s := x + " - " + act;
    var k := |x|;
    assert s[..k] == x && s[k + 3..] == act;
    assert OccursAt(s, " - ", k);
    forall j | k < j <= |s| - 3
      ensures !OccursAt(s, " - ", j)
    {
      if j == k + 1 {
        assert s[j] == '-';
      } else if j == k + 2 {
        assert s[j + 2] == act[1];
      } else {
        assert s[j] == act[j - k - 3];
      }
    }
    RSplitOnceAt(s, " - ", k);
  }

  /** "SCENE <name>" names the scene <name>. */
  lemma SceneName(n: string)
    requires IsWord(n) && !Contains(n, "SCENE")
    ensures TargetOf("SCENE " + n) == Some(Target(2, n))
  {
    assert "SCENE " + n == "SCENE" + (" " + n);
    assert ("SCENE" + (" " + n))[5..] == " " + n;
    ContainsAfterSpace(n, "SCENE");
    RemoveAllMissing(" " + n, "SCENE");
    StripSpaceWord(n);
  }

  /** "GROUP <name>" names the group <name>. */
  lemma GroupName(n: string)
    requires IsWord(n) && !Contains(n, "GROUP")
    ensures TargetOf("GROUP " + n) == Some(Target(1, n))
  {
    assert "GROUP " + n == "GROUP" + (" " + n);
    assert ("GROUP" + (" " + n))[5..] == " " + n;
    assert ("GROUP " + n)[0] == 'G';
    ContainsAfterSpace(n, "GROUP");
    RemoveAllMissing(" " + n, "GROUP");
    StripSpaceWord(n);
  }

  /** The description field " <x> - <act>" reads as x and act upper-cased. */
  lemma ActionOf(x: string, act: string)
    requires x != [] && !IsSpace(x[0]) && IsWord(act)
    ensures DescriptionAction(" " + x + " - " + act) == (x, Upper(act))
  {
    var y := x + " - " + act;
    assert " " + x + " - " + act == " " + y;
    assert y[0] == x[0] && y[|y| - 1] == act[|act| - 1];
    StripAfterSpace(y);
    SplitAction(x, act);
    StripWord(act);
  }

  lemma LinkLineShape(d: string, n: string, act: string)
    ensures d + ": SCENE " + n + " - " + act == d + ":" + (" " + ("SCENE " + n) + " - " + act)
  {
  }

  lemma LinkRestNoColon(n: string, act: string)
    requires ':' !in n && ':' !in act
    ensures ':' !in " " + ("SCENE " + n) + " - " + act
  {
    assert ':' !in " SCENE " && ':' !in " - ";
  }

  /** "<digits>: SCENE <name> - <act>" is link number <digits> minus one, to
      the scene <name>, with the action upper-cased. */
  lemma DecodeSceneLink(d: string, n: string, act: string)
    requires IsDigits(d) && IsWord(n) && IsWord(act) && ':' !in n && ':' !in act
    requires !Contains(n, "SCENE")
    ensures DecodeLink(d + ": SCENE " + n + " - " + act) == Decoded(DigitsValue(d) - 1, Upper(act), Some(Target(2, n)))
  {
    var x := "SCENE " + n;
    var rest := " " + x + " - " + act;
    LinkLineShape(d, n, act);
    LinkRestNoColon(n, act);
    LinkFields(d, rest);
    LinkNumber(d);
    DecodeTwoFields(d + ":" + rest, d, rest, DigitsValue(d));
    ActionOf(x, act);
    SceneName(n);
  }

  /** The literal facts the worked lines need. */
  lemma EveningWords()
    ensures IsDigits("3") && DigitsValue("3") == 3
    ensures IsWord("Evening") && ':' !in "Evening" && !Contains("Evening", "SCENE")
  {
    assert "3"[..0] == [];
    MissingChar("Evening", "SCENE", 'C');
  }

  /** "3: SCENE Evening - <act>" is the third link, to the scene Evening,
      with act upper-cased. */
  lemma EveningAction(act: string)
    requires IsWord(act) && ':' !in act
    ensures DecodeLink("3: SCENE Evening - " + act) == Decoded(2, Upper(act), Some(Target(2, "Evening")))
  {
    EveningWords();
    assert "3: SCENE Evening - " + act == "3" + ": SCENE " + "Evening" + " - " + act;
    DecodeSceneLink("3", "Evening", act);
  }

  /** "3: SCENE Evening - DOUBLE" is the third link, to the scene Evening,
      with action DOUBLE. */
  lemma EveningLink()
    ensures DecodeLink("3: SCENE Evening - DOUBLE") == Decoded(2, "DOUBLE", Some(Target(2, "Evening")))
  {
    assert IsWord("DOUBLE") && ':' !in "DOUBLE";
    UpperKeeps("DOUBLE");
    assert "3: SCENE Evening - DOUBLE" == "3: SCENE Evening - " + "DOUBLE";
    EveningAction("DOUBLE");
  }

  /** The action is upper-cased: "3: SCENE Evening - double" has action
      DOUBLE. */
  lemma EveningLowerCase()
    ensures DecodeLink("3: SCENE Evening - double") == Decoded(2, "DOUBLE", Some(Target(2, "Evening")))
  {
    assert IsWord("double") && ':' !in "double";
    assert Upper("double") == "DOUBLE";
    assert "3: SCENE Evening - double" == "3: SCENE Evening - " + "double";
    EveningAction("double");
  }

  /** A description without " - " ends at its target's name. */
  lemma NoActionSeparator(n: string)
    requires IsWord(n)
    ensures !Contains("DEVICE " + n, " - ")
  {
    var x := "DEVICE " + n;
    forall i | 0 <= i <= |x| - 3
      ensures !OccursAt(x, " - ", i)
    {
      if i < 6 {
        assert x[i] == "DEVICE"[i];
        Mismatch(x, " - ", i, 0);
      } else if i == 6 {
        assert x[i + 2] == n[1];
        Mismatch(x, " - ", i, 2);
      } else {
        assert x[i] == n[i - 7];
        Mismatch(x, " - ", i, 0);
      }
    }
  }

  /** "DEVICE <name>" names the device <name>. */
  lemma DeviceTarget(n: string)
    requires IsWord(n) && !Contains(n, "DEVICE")
    ensures TargetOf("DEVICE " + n) == Some(Target(0, n))
  {
    assert "DEVICE " + n == "DEVICE" + (" " + n);
    assert ("DEVICE" + (" " + n))[6..] == " " + n;
    ContainsAfterSpace(n, "DEVICE");
    RemoveAllMissing(" " + n, "DEVICE");
    StripSpaceWord(n);
  }

  lemma DeviceLineShape(d: string, n: string)
    requires ':' !in n
    ensures d + ": DEVICE " + n == d + ":" + (" " + ("DEVICE " + n))
    ensures ':' !in " " + ("DEVICE " + n)
  {
    assert ':' !in " DEVICE ";
  }

  /** "<digits>: DEVICE <name>" without " - " has the action NORMAL. */
  lemma DecodeDeviceLink(d: string, n: string)
    requires IsDigits(d) && IsWord(n) && ':' !in n && !Contains(n, "DEVICE")
    ensures DecodeLink(d + ": DEVICE " + n) == Decoded(DigitsValue(d) - 1, "NORMAL", Some(Target(0, n)))
  {
    DeviceLinkFields(d, n);
    LinkNumber(d);
    DecodeTwoFields(d + ": DEVICE " + n, d, " " + ("DEVICE " + n), DigitsValue(d));
    PlainDescription(n);
    DeviceTarget(n);
  }

  lemma DeviceLinkFields(d: string, n: string)
    requires IsDigits(d) && ':' !in n
    ensures SplitOn(d + ": DEVICE " + n, ':') == [d, " " + ("DEVICE " + n)]
  {
    DeviceLineShape(d, n);
    LinkFields(d, " " + ("DEVICE " + n));
  }

  /** A line of two fields whose first is an integer decodes its second. */
  lemma DecodeTwoFields(line: string, d: string, rest: string, v: int)
    requires SplitOn(line, ':') == [d, rest] && ParseInt(Strip(d)) == Some(v)
    ensures DecodeLink(line) == Decoded(v - 1, DescriptionAction(rest).1, TargetOf(DescriptionAction(rest).0))
  {
  }

  /** " DEVICE <name>" has no action: it reads as NORMAL. */
  lemma PlainDescription(n: string)
    requires IsWord(n)
    ensures DescriptionAction(" " + ("DEVICE " + n)) == ("DEVICE " + n, "NORMAL")
  {
    var x := "DEVICE " + n;
    assert x[0] == 'D' && x[|x| - 1] == n[|n| - 1];
    StripAfterSpace(x);
    NoActionSeparator(n);
  }

  /** "1: DEVICE Lamp" is the first link, to the device Lamp, with action
      NORMAL. */
  lemma LampLink()
    ensures DecodeLink("1: DEVICE Lamp") == Decoded(0, "NORMAL", Some(Target(0, "Lamp")))
  {
    MissingChar("Lamp", "DEVICE", 'D');
    assert "1"[..0] == [];
    assert IsDigits("1") && DigitsValue("1") == 1 && IsWord("Lamp") && ':' !in "Lamp";
    assert "1: DEVICE Lamp" == "1" + ": DEVICE " + "Lamp";
    DecodeDeviceLink("1", "Lamp");
  }
}
