/// The device registry builder: the devices bucket becomes device records
/// and, in the catalog-aware variant, the device name → device type lookup
/// that the scene parser reads.
module Devices {
  import opened Results
  import opened PyText
  import opened Catalog
  import opened Headers

  /** One output device; deviceType is absent when classification found nothing
      (and always in the catalog-unaware variant). */
  datatype Device = Device(appearanceShortname: string, deviceName: string, deviceType: Option<DeviceType>)

  /** What process_devices leaves behind: its records and the lookup. */
  datatype Registry = Registry(devices: seq<Device>, lookup: map<string, DeviceType>)

  /** The scan state: the current shortname (None before any NAME: line), and
      the registry built so far. */
  datatype Scan = Scan(shortname: Option<string>, registry: Registry)

  predicate IsQtyLine(line: string) {
    HasTag(line, "QTY:")
  }

  /** One line of the devices bucket. */
  function DevicesStep(variant: Variant, classify: string -> Option<DeviceType>, st: Scan, raw: string): Outcome<Scan> {
    var line := Strip(raw);
    if StartsWith(line, "NAME:") then Ok(st.(shortname := Some(HeaderName(raw))))
    else if StartsWith(line, "QTY:") then Ok(st)
    else if variant == CatalogAware && st.shortname.None? then Raised(TypeError)
    else if st.shortname.None? || st.shortname.value == [] then Ok(st)
    else
      var sn := st.shortname.value;
      var t := if variant == CatalogAware then classify(sn) else None;
      var reg := st.registry;
      Ok(st.(registry := Registry(reg.devices + [Device(sn, line, t)],
                                  if t.Some? then reg.lookup[line := t.value] else reg.lookup)))
  }

  function DevicesFrom(variant: Variant, classify: string -> Option<DeviceType>, st: Scan, lines: seq<string>): Outcome<Scan>
    decreases |lines|
  {
    if lines == [] then Ok(st)
    else match DevicesStep(variant, classify, st, lines[0])
      case Raised(e) => Raised(e)
      case Ok(st') => DevicesFrom(variant, classify, st', lines[1..])
  }

  /** process_devices on a bucket, starting from the lookup as it stands. */
  function Devices(variant: Variant, classify: string -> Option<DeviceType>, lines: seq<string>, lookup: map<string, DeviceType>): Outcome<Registry> {
    match DevicesFrom(variant, classify, Scan(None, Registry([], lookup)), lines)
    case Raised(e) => Raised(e)
    case Ok(st) => Ok(st.registry)
  }

  /** process_devices: NAME: lines set the shortname, QTY: lines are skipped,
      and every other line under a non-empty shortname becomes a device. The
      catalog-aware variant classifies before it tests the shortname, so a
      device line before any NAME: line raises TypeError. */
  method ProcessDevices(variant: Variant, lines: seq<string>, lookup: map<string, DeviceType>)
    returns (r: Outcome<Registry>)
    ensures r == Devices(variant, Classify, lines, lookup)
  {
    var devices: seq<Device> := [];
    var nameToType := lookup;
    var shortname: Option<string> := None;
    for i := 0 to |lines|
      invariant DevicesFrom(variant, Classify, Scan(shortname, Registry(devices, nameToType)), lines[i..])
             == DevicesFrom(variant, Classify, Scan(None, Registry([], lookup)), lines)
    {
      assert lines[i..] == [lines[i]] + lines[i + 1..];
      var line := Strip(lines[i]);
      if StartsWith(line, "NAME:") {
        shortname := Some(Strip(RemoveAll(line, "NAME:")));
        continue;
      }
      if StartsWith(line, "QTY:") {
        continue;
      }
      var deviceType: Option<DeviceType> := None;
      if variant == CatalogAware {
        if shortname.None? {
          return Raised(TypeError);
        }
        deviceType := ClassifyShortname(shortname.value);
      }
      if shortname.Some? && shortname.value != [] {
        devices := devices + [Device(shortname.value, line, deviceType)];
        if deviceType.Some? {
          nameToType := nameToType[line := deviceType.value];
        }
      }
    }
    r := Ok(Registry(devices, nameToType));
  }

  /** The lookup after registering the typed records of ds, in order. */
  function RegisterTyped(m: map<string, DeviceType>, ds: seq<Device>): map<string, DeviceType>
    decreases |ds|
  {
    if ds == [] then m
    else RegisterTyped(if ds[0].deviceType.Some? then m[ds[0].deviceName := ds[0].deviceType.value] else m, ds[1..])
  }

  lemma {:induction false} RegisterTypedAppend(m: map<string, DeviceType>, ds: seq<Device>, d: Device)
    ensures RegisterTyped(m, ds + [d])
         == var m' := RegisterTyped(m, ds); if d.deviceType.Some? then m'[d.deviceName := d.deviceType.value] else m'
    decreases |ds|
  {
    if ds != [] {
      assert (ds + [d])[1..] == ds[1..] + [d];
      RegisterTypedAppend(if ds[0].deviceType.Some? then m[ds[0].deviceName := ds[0].deviceType.value] else m, ds[1..], d);
    } else {
      assert ([] + [d])[1..] == [];
    }
  }

  /** The record a device line yields: its shortname is non-empty, and its type
      is the classification of the shortname (catalog-aware) or absent. */
  predicate WellTyped(variant: Variant, classify: string -> Option<DeviceType>, d: Device) {
    d.appearanceShortname != []
    && d.deviceType == (if variant == CatalogAware then classify(d.appearanceShortname) else None)
  }

  /** One line adds at most one record, which is well typed, and registers it. */
  lemma StepEffect(variant: Variant, classify: string -> Option<DeviceType>, st: Scan, raw: string)
    requires DevicesStep(variant, classify, st, raw).Ok?
    ensures var reg, reg' := st.registry, DevicesStep(variant, classify, st, raw).value.registry;
      || reg' == reg
      || (&& |reg'.devices| == |reg.devices| + 1
          && reg'.devices == reg.devices + [reg'.devices[|reg.devices|]]
          && WellTyped(variant, classify, reg'.devices[|reg.devices|])
          && reg'.lookup == RegisterTyped(reg.lookup, [reg'.devices[|reg.devices|]]))
  {
  }

  /** A run only appends records, and each record it appends carries the
      classification of its shortname. */
  lemma {:induction false} RunAppends(variant: Variant, classify: string -> Option<DeviceType>, st: Scan, lines: seq<string>)
    requires DevicesFrom(variant, classify, st, lines).Ok?
    ensures var ds, ds' := st.registry.devices, DevicesFrom(variant, classify, st, lines).value.registry.devices;
      && |ds| <= |ds'| && ds'[..|ds|] == ds
      && forall k :: |ds| <= k < |ds'| ==> WellTyped(variant, classify, ds'[k])
    decreases |lines|
  {
    if lines != [] {
      var st' := DevicesStep(variant, classify, st, lines[0]).value;
      StepEffect(variant, classify, st, lines[0]);
      RunAppends(variant, classify, st', lines[1..]);
    }
  }

  /** The lookup follows the records: it gains or overwrites an entry exactly
      for the appended records that have a type, in order. */
  lemma {:induction false} LookupFollowsRecords(variant: Variant, classify: string -> Option<DeviceType>, st: Scan, lines: seq<string>)
    requires DevicesFrom(variant, classify, st, lines).Ok?
    ensures var reg, reg' := st.registry, DevicesFrom(variant, classify, st, lines).value.registry;
      |reg.devices| <= |reg'.devices| && reg'.lookup == RegisterTyped(reg.lookup, reg'.devices[|reg.devices|..])
    decreases |lines|
  {
    RunAppends(variant, classify, st, lines);
    var reg := st.registry;
    if lines == [] {
      assert reg.devices[|reg.devices|..] == [];
    } else {
      var st' := DevicesStep(variant, classify, st, lines[0]).value;
      StepEffect(variant, classify, st, lines[0]);
      RunAppends(variant, classify, st', lines[1..]);
      LookupFollowsRecords(variant, classify, st', lines[1..]);
      var mid := st'.registry;
      var reg' := DevicesFrom(variant, classify, st', lines[1..]).value.registry;
      if mid != reg {
        var d := mid.devices[|reg.devices|];
        var rest := reg'.devices[|mid.devices|..];
        assert reg'.devices[|reg.devices|..] == [d] + rest;
        assert ([d] + rest)[1..] == rest;
      }
    }
  }

  /** The type of the last record in ds that is named `name` and has a type. */
  function LastTypedFor(ds: seq<Device>, name: string): Option<DeviceType>
    decreases |ds|
  {
    if ds == [] then None
    else match LastTypedFor(ds[1..], name)
      case Some(t) => Some(t)
      case None => if ds[0].deviceName == name then ds[0].deviceType else None
  }

  /** The lookup built from ds gives a name the type of its last typed record,
      and otherwise what the lookup held before. */
  lemma {:induction false} RegisterTypedLookup(m: map<string, DeviceType>, ds: seq<Device>, name: string)
    ensures name in RegisterTyped(m, ds) <==> name in m || LastTypedFor(ds, name).Some?
    ensures name in RegisterTyped(m, ds) ==>
      RegisterTyped(m, ds)[name] == (if LastTypedFor(ds, name).Some? then LastTypedFor(ds, name).value else m[name])
    decreases |ds|
  {
    if ds != [] {
      var m' := if ds[0].deviceType.Some? then m[ds[0].deviceName := ds[0].deviceType.value] else m;
      RegisterTypedLookup(m', ds[1..], name);
    }
  }

  /** After process_devices, every record carries the classification of its
      shortname, and a name is in the lookup exactly when it was there before or
      some record of that name has a type; its type is then that of the last
      such record. */
  lemma RegistryLookup(variant: Variant, classify: string -> Option<DeviceType>, lines: seq<string>, lookup: map<string, DeviceType>, name: string)
    requires Devices(variant, classify, lines, lookup).Ok?
    ensures var reg := Devices(variant, classify, lines, lookup).value;
      && (forall k :: 0 <= k < |reg.devices| ==> WellTyped(variant, classify, reg.devices[k]))
      && (name in reg.lookup <==> name in lookup || LastTypedFor(reg.devices, name).Some?)
      && (name in reg.lookup ==>
            reg.lookup[name] == (if LastTypedFor(reg.devices, name).Some? then LastTypedFor(reg.devices, name).value else lookup[name]))
  {
    var st := Scan(None, Registry([], lookup));
    RunAppends(variant, classify, st, lines);
    LookupFollowsRecords(variant, classify, st, lines);
    var reg := Devices(variant, classify, lines, lookup).value;
    assert reg.devices[0..] == reg.devices;
    RegisterTypedLookup(lookup, reg.devices, name);
  }

  /** The first line that is not a QTY: line, if any. */
  function FirstNonQty(lines: seq<string>): Option<string>
    decreases |lines|
  {
    if lines == [] then None
    else if IsQtyLine(lines[0]) && !IsNameLine(lines[0]) then FirstNonQty(lines[1..])
    else Some(lines[0])
  }

  /** The catalog-unaware registry never fails. */
  lemma {:induction false} UnawareNeverFails(classify: string -> Option<DeviceType>, st: Scan, lines: seq<string>)
    ensures DevicesFrom(CatalogUnaware, classify, st, lines).Ok?
    decreases |lines|
  {
    if lines != [] {
      UnawareNeverFails(classify, DevicesStep(CatalogUnaware, classify, st, lines[0]).value, lines[1..]);
    }
  }

  /** Once a NAME: line has been seen, the catalog-aware registry cannot fail. */
  lemma {:induction false} NamedNeverFails(classify: string -> Option<DeviceType>, st: Scan, lines: seq<string>)
    requires st.shortname.Some?
    ensures DevicesFrom(CatalogAware, classify, st, lines).Ok?
    decreases |lines|
  {
    if lines != [] {
      var st' := DevicesStep(CatalogAware, classify, st, lines[0]).value;
      NamedNeverFails(classify, st', lines[1..]);
    }
  }

  /** The catalog-aware registry fails, with TypeError, exactly when a device
      line comes before any NAME: line, that is when the first line that is not
      a QTY: line is not a NAME: line. */
  lemma {:induction false} DevicesFailIff(classify: string -> Option<DeviceType>, st: Scan, lines: seq<string>)
    ensures DevicesFrom(CatalogAware, classify, st, lines).Raised? ==>
      DevicesFrom(CatalogAware, classify, st, lines).error == TypeError
    ensures DevicesFrom(CatalogAware, classify, st, lines).Raised? <==>
      st.shortname.None? && FirstNonQty(lines).Some? && !IsNameLine(FirstNonQty(lines).value)
    decreases |lines|
  {
    if st.shortname.Some? {
      NamedNeverFails(classify, st, lines);
    } else if lines != [] {
      var l := lines[0];
      var step := DevicesStep(CatalogAware, classify, st, l);
      if IsNameLine(l) {
        NamedNeverFails(classify, step.value, lines[1..]);
      } else if IsQtyLine(l) {
        assert step == Ok(st);
        DevicesFailIff(classify, st, lines[1..]);
      } else {
        assert step == Raised(TypeError);
      }
    }
  }

  /** The stripped lines of a block that are not QTY: lines. */
  function DeviceLines(body: seq<string>): seq<string>
    decreases |body|
  {
    if body == [] then []
    else (if IsQtyLine(body[0]) then [] else [Strip(body[0])]) + DeviceLines(body[1..])
  }

  /** One record per device name, all under shortname sn with type t. */
  function Tagged(sn: string, t: Option<DeviceType>, names: seq<string>): (r: seq<Device>)
    ensures |r| == |names|
    ensures forall k :: 0 <= k < |r| ==> r[k] == Device(sn, names[k], t)
  {
    if names == [] then [] else [Device(sn, names[0], t)] + Tagged(sn, t, names[1..])
  }

  /** The records a block under shortname sn yields. */
  function BlockRecords(variant: Variant, classify: string -> Option<DeviceType>, sn: string, body: seq<string>): seq<Device> {
    if sn == [] then []
    else Tagged(sn, if variant == CatalogAware then classify(sn) else None, DeviceLines(body))
  }

  /** One line of a block that is not a NAME: line keeps the shortname and adds
      the records the line yields as a block of its own. */
  lemma BodyStep(variant: Variant, classify: string -> Option<DeviceType>, st: Scan, line: string)
    requires st.shortname.Some? && !IsNameLine(line)
    ensures DevicesStep(variant, classify, st, line).Ok?
    ensures DevicesStep(variant, classify, st, line).value.shortname == st.shortname
    ensures DevicesStep(variant, classify, st, line).value.registry.devices
         == st.registry.devices + BlockRecords(variant, classify, st.shortname.value, [line])
  {
    var sn := st.shortname.value;
    if sn != [] {
      assert DeviceLines([line]) == (if IsQtyLine(line) then [] else [Strip(line)]) + DeviceLines([]);
    }
  }

  /** The records of a block are those of its first line followed by those of
      the rest. */
  lemma BlockRecordsCons(variant: Variant, classify: string -> Option<DeviceType>, sn: string, body: seq<string>)
    requires body != []
    ensures BlockRecords(variant, classify, sn, body)
         == BlockRecords(variant, classify, sn, [body[0]]) + BlockRecords(variant, classify, sn, body[1..])
  {
    if sn != [] {
      var t := if variant == CatalogAware then classify(sn) else None;
      assert [body[0]][1..] == [];
      var first := if IsQtyLine(body[0]) then [] else [Strip(body[0])];
      assert DeviceLines([body[0]]) == first;
      TaggedAppend(sn, t, first, DeviceLines(body[1..]));
    }
  }

  lemma TaggedAppend(sn: string, t: Option<DeviceType>, a: seq<string>, b: seq<string>)
    ensures Tagged(sn, t, a + b) == Tagged(sn, t, a) + Tagged(sn, t, b)
  {
  }

  /** Lines that are not NAME: lines, under a shortname, never fail and keep
      the shortname. */
  lemma {:induction false} BlockKeepsShortname(variant: Variant, classify: string -> Option<DeviceType>, st: Scan, body: seq<string>)
    requires st.shortname.Some? && NoNameLine(body)
    ensures DevicesFrom(variant, classify, st, body).Ok?
    ensures DevicesFrom(variant, classify, st, body).value.shortname == st.shortname
    decreases |body|
  {
    if body != [] {
      BodyStep(variant, classify, st, body[0]);
      BlockKeepsShortname(variant, classify, DevicesStep(variant, classify, st, body[0]).value, body[1..]);
    }
  }

  lemma {:induction false} BlockBody(variant: Variant, classify: string -> Option<DeviceType>, st: Scan, body: seq<string>)
    requires st.shortname.Some? && NoNameLine(body)
    ensures DevicesFrom(variant, classify, st, body).Ok?
    ensures DevicesFrom(variant, classify, st, body).value.registry.devices
         == st.registry.devices + BlockRecords(variant, classify, st.shortname.value, body)
    decreases |body|
  {
    BlockKeepsShortname(variant, classify, st, body);
    if body != [] {
      BodyStep(variant, classify, st, body[0]);
      var st' := DevicesStep(variant, classify, st, body[0]).value;
      BlockBody(variant, classify, st', body[1..]);
      BlockRecordsCons(variant, classify, st.shortname.value, body);
    }
  }

  /** A NAME: line followed by lines that are not NAME: lines yields one record
      per line that is not a QTY: line, in order, each with that block's
      shortname; an empty shortname yields nothing. */
  lemma Block(variant: Variant, classify: string -> Option<DeviceType>, st: Scan, header: string, body: seq<string>)
    requires IsNameLine(header)
    requires NoNameLine(body)
    ensures DevicesFrom(variant, classify, st, [header] + body).Ok?
    ensures DevicesFrom(variant, classify, st, [header] + body).value.registry.devices
         == st.registry.devices + BlockRecords(variant, classify, HeaderName(header), body)
  {
    var st' := DevicesStep(variant, classify, st, header).value;
    assert ([header] + body)[1..] == body;
    BlockBody(variant, classify, st', body);
  }
}
