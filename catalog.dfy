/// The device-type catalog and the classification of an appearance
/// shortname against it.
module Catalog {
  import opened Results
  import opened PyText

  datatype PowerPointWay = SingleWay | TwoWay

  /** The device types of the catalog. PowerPoint carries its sub-type. */
  datatype DeviceType = Dimmer | Relay | Curtain | Fan | Rgb | PowerPoint(way: PowerPointWay)

  /** The label written into the output: the catalog key, and for PowerPoint
      the key followed by the sub-type in parentheses. */
  function Label(t: DeviceType): string {
    match t
    case Dimmer => "Dimmer Type"
    case Relay => "Relay Type"
    case Curtain => "Curtain Type"
    case Fan => "Fan Type"
    case Rgb => "RGB Type"
    case PowerPoint(SingleWay) => "PowerPoint Type (Single-Way)"
    case PowerPoint(TwoWay) => "PowerPoint Type (Two-Way)"
  }

  /** Different device types have different labels, so a test of the label
      string selects exactly one type. */
  lemma LabelInjective(a: DeviceType, b: DeviceType)
    requires Label(a) == Label(b)
    ensures a == b
  {
  }

  /** The substring test `"PowerPoint Type" in device_type` holds exactly for
      the two PowerPoint labels. */
  lemma PowerPointLabel(t: DeviceType)
    ensures Contains(Label(t), "PowerPoint Type") <==> t.PowerPoint?
  {
    if t.PowerPoint? {
      assert OccursAt(Label(t), "PowerPoint Type", 0);
    }
  }

  /** Within a PowerPoint label, `"Two-Way" in device_type` and
      `"Single-Way" in device_type` each hold for exactly its own sub-type. */
  lemma WayLabel(w: PowerPointWay)
    ensures Contains(Label(PowerPoint(w)), "Two-Way") <==> w == TwoWay
    ensures Contains(Label(PowerPoint(w)), "Single-Way") <==> w == SingleWay
  {
    var s := Label(PowerPoint(w));
    if w == TwoWay {
      assert OccursAt(s, "Two-Way", 17);
      MissingChar(s, "Single-Way", 'S');
    } else {
      assert OccursAt(s, "Single-Way", 17);
      NoTwoWay();
    }
  }

  /** The only 'T' of the single-way label is not followed by 'w'. */
  lemma NoTwoWay()
    ensures !Contains("PowerPoint Type (Single-Way)", "Two-Way")
  {
    var s := "PowerPoint Type (Single-Way)";
    forall i | 0 <= i <= |s| - 7
      ensures !OccursAt(s, "Two-Way", i)
    {
      if i == 11 {
        Mismatch(s, "Two-Way", i, 1);
      } else {
        assert s[i] != 'T';
        Mismatch(s, "Two-Way", i, 0);
      }
    }
  }

  /** One group of model codes, all classified as `kind`. */
  datatype Entry = Entry(kind: DeviceType, codes: seq<string>)

  /** The catalog in its declared order. The two PowerPoint sub-types follow
      each other in their own declared order, Single-Way before Two-Way. */
  const Catalog: seq<Entry> := [
    Entry(Dimmer, ["KBSKTDIM", "D300IB", "D300IB2", "DH10VIB", "DM300BH", "D0-10IB", "DDAL"]),
    Entry(Relay, ["KBSKTREL", "S2400IB2", "RM1440BH", "KBSKTR", "Z2"]),
    Entry(Curtain, ["C300IBH"]),
    Entry(Fan, ["FC150A2"]),
    Entry(Rgb, ["KB8RGBG", "KB36RGBS", "KB9TWG", "KB12RGBD", "KB12RGBG"]),
    Entry(PowerPoint(SingleWay), ["H1PPWVBX"]),
    Entry(PowerPoint(TwoWay), ["K2PPHB", "H2PPHB", "H2PPWHB"])
  ]

  /** The two-way substring test: the code occurs in the shortname, or the
      shortname occurs in the code. */
  predicate CodeMatches(code: string, shortname: string) {
    Contains(shortname, code) || Contains(code, shortname)
  }

  predicate EntryMatches(e: Entry, shortname: string) {
    exists j :: 0 <= j < |e.codes| && CodeMatches(e.codes[j], shortname)
  }

  /** The kind of the first entry, in order, that has a matching code. */
  function FirstMatch(entries: seq<Entry>, shortname: string): Option<DeviceType> {
    if entries == [] then None
    else if EntryMatches(entries[0], shortname) then Some(entries[0].kind)
    else FirstMatch(entries[1..], shortname)
  }

  /** The device type of a shortname, or None when no catalog code matches. */
  function Classify(shortname: string): Option<DeviceType> {
    FirstMatch(Catalog, shortname)
  }

  /** First match wins: the result is None exactly when no entry matches, and
      otherwise the kind of a matching entry before which no entry matches. */
  lemma {:induction false} FirstMatchIsFirst(entries: seq<Entry>, shortname: string)
    ensures FirstMatch(entries, shortname).None? <==>
      forall i :: 0 <= i < |entries| ==> !EntryMatches(entries[i], shortname)
    ensures FirstMatch(entries, shortname).Some? ==>
      exists i :: 0 <= i < |entries| && EntryMatches(entries[i], shortname)
        && entries[i].kind == FirstMatch(entries, shortname).value
        && forall k :: 0 <= k < i ==> !EntryMatches(entries[k], shortname)
  {
    if entries != [] {
      FirstMatchIsFirst(entries[1..], shortname);
      if !EntryMatches(entries[0], shortname) {
        if FirstMatch(entries, shortname).Some? {
          var i :| 0 <= i < |entries[1..]| && EntryMatches(entries[1..][i], shortname)
            && entries[1..][i].kind == FirstMatch(entries, shortname).value
            && forall k :: 0 <= k < i ==> !EntryMatches(entries[1..][k], shortname);
          assert forall k :: 0 <= k < i + 1 ==> !EntryMatches(entries[k], shortname) by {
            forall k | 0 <= k < i + 1
              ensures !EntryMatches(entries[k], shortname)
            {
              if k > 0 {
                assert entries[k] == entries[1..][k - 1];
              }
            }
          }
        } else {
          forall i | 0 <= i < |entries|
            ensures !EntryMatches(entries[i], shortname)
          {
            if i > 0 {
              assert entries[i] == entries[1..][i - 1];
            }
          }
        }
      }
    }
  }

  /** The empty shortname is a substring of every code, so it classifies as
      the first catalog type. */
  lemma ClassifyEmpty()
    ensures Classify("") == Some(Dimmer)
  {
    assert OccursAt(Catalog[0].codes[0], "", 0);
    assert CodeMatches(Catalog[0].codes[0], "");
  }

  /** A shortname that is a substring of codes of several types (here of a
      Dimmer, a Relay and an RGB code) takes the earliest type. */
  lemma ClassifyAmbiguous()
    ensures Classify("KB") == Some(Dimmer)
  {
    var code := Catalog[0].codes[0];
    assert code[0..2] == "KB";
    assert OccursAt(code, "KB", 0);
    assert CodeMatches(code, "KB");
    assert CodeMatches(Catalog[1].codes[0], "KB") by {
      assert Catalog[1].codes[0][0..2] == "KB";
      assert OccursAt(Catalog[1].codes[0], "KB", 0);
    }
  }

  /** The classification loop of the device registry: the catalog is walked in
      order, each entry's codes in order, and the first matching code ends the
      search. */
  method ClassifyShortname(shortname: string) returns (t: Option<DeviceType>)
    ensures t == Classify(shortname)
  {
    t := None;
    var i := 0;
    while i < |Catalog|
      invariant 0 <= i <= |Catalog|
      invariant t == None
      invariant FirstMatch(Catalog[i..], shortname) == Classify(shortname)
    {
      var codes := Catalog[i].codes;
      var j := 0;
      while j < |codes|
        invariant 0 <= j <= |codes|
        invariant t == None
        invariant forall k :: 0 <= k < j ==> !CodeMatches(codes[k], shortname)
      {
        if Contains(shortname, codes[j]) || Contains(codes[j], shortname) {
          t := Some(Catalog[i].kind);
          break;
        }
        j := j + 1;
      }
      if t.Some? {
        assert EntryMatches(Catalog[i..][0], shortname);
        break;
      }
      assert Catalog[i..][1..] == Catalog[i + 1..];
      i := i + 1;
    }
  }
}
