/// The group builder, identical in both variants: every line under a
/// non-empty NAME: header becomes one group record holding the line as it
/// is, unsplit.
module Groups {
  import opened PyText
  import opened Headers

  /** One output group record: the group's name and one device line. */
  datatype GroupEntry = GroupEntry(groupName: string, devices: string)

  /** The scan state: the current group name (empty before any header, which
      behaves like Python's None here), and the records so far. */
  datatype GroupScan = GroupScan(current: string, entries: seq<GroupEntry>)

  predicate IsDeviceControlLine(line: string) {
    HasTag(line, "DEVICE CONTROL:")
  }

  function GroupsStep(st: GroupScan, raw: string): GroupScan {
    var line := Strip(raw);
    if StartsWith(line, "NAME:") then st.(current := HeaderName(raw))
    else if StartsWith(line, "DEVICE CONTROL:") then st
    else if st.current != [] then st.(entries := st.entries + [GroupEntry(st.current, line)])
    else st
  }

  function GroupsFrom(st: GroupScan, lines: seq<string>): GroupScan
    decreases |lines|
  {
    if lines == [] then st else GroupsFrom(GroupsStep(st, lines[0]), lines[1..])
  }

  /** process_groups on a bucket. */
  function Groups(lines: seq<string>): seq<GroupEntry> {
    GroupsFrom(GroupScan([], []), lines).entries
  }

  /** process_groups: a NAME: line sets the current group, DEVICE CONTROL:
      lines are skipped, and any other line under a non-empty group becomes a
      record. */
  method ProcessGroups(lines: seq<string>) returns (groups: seq<GroupEntry>)
    ensures groups == Groups(lines)
  {
    groups := [];
    var current: string := [];
    for i := 0 to |lines|
      invariant GroupsFrom(GroupScan(current, groups), lines[i..]) == GroupsFrom(GroupScan([], []), lines)
    {
      assert lines[i..] == [lines[i]] + lines[i + 1..];
      var line := Strip(lines[i]);
      if StartsWith(line, "NAME:") {
        current := Strip(RemoveAll(line, "NAME:"));
        continue;
      }
      if StartsWith(line, "DEVICE CONTROL:") {
        continue;
      }
      if current != [] {
        groups := groups + [GroupEntry(current, line)];
      }
    }
  }

  /** A record names a group and holds a stripped line that is neither a
      header nor a DEVICE CONTROL: line. */
  predicate WellFormed(e: GroupEntry) {
    e.groupName != [] && !IsNameLine(e.devices) && !IsDeviceControlLine(e.devices)
      && Strip(e.devices) == e.devices
  }

  /** Every record a run appends is well formed, and records are only ever
      appended. */
  lemma {:induction false} GroupsWellFormed(st: GroupScan, lines: seq<string>)
    ensures var es, es' := st.entries, GroupsFrom(st, lines).entries;
      |es| <= |es'| && es'[..|es|] == es && forall k :: |es| <= k < |es'| ==> WellFormed(es'[k])
    decreases |lines|
  {
    if lines != [] {
      var st' := GroupsStep(st, lines[0]);
      var line := Strip(lines[0]);
      StripStripped(lines[0]);
      assert |st.entries| <= |st'.entries| && st'.entries[..|st.entries|] == st.entries;
      assert forall k :: |st.entries| <= k < |st'.entries| ==> WellFormed(st'.entries[k]);
      GroupsWellFormed(st', lines[1..]);
    }
  }

  /** Lines before the first NAME: line produce nothing. */
  lemma {:induction false} LinesBeforeHeaderIgnored(lines: seq<string>)
    requires NoNameLine(lines)
    ensures GroupsFrom(GroupScan([], []), lines) == GroupScan([], [])
    decreases |lines|
  {
    if lines != [] {
      LinesBeforeHeaderIgnored(lines[1..]);
    }
  }

  /** The records one block body yields under group name g: one per line that
      is not a DEVICE CONTROL: line, holding the stripped line. */
  function BlockEntries(g: string, body: seq<string>): seq<GroupEntry>
    decreases |body|
  {
    if g == [] || body == [] then []
    else (if IsDeviceControlLine(body[0]) then [] else [GroupEntry(g, Strip(body[0]))]) + BlockEntries(g, body[1..])
  }

  /** One line that is not a NAME: line appends what it yields as a block of
      its own. */
  lemma BodyStep(st: GroupScan, line: string)
    requires !IsNameLine(line)
    ensures GroupsStep(st, line) == GroupScan(st.current, st.entries + BlockEntries(st.current, [line]))
  {
    if st.current != [] {
      assert BlockEntries(st.current, [line])
          == (if IsDeviceControlLine(line) then [] else [GroupEntry(st.current, Strip(line))]) + BlockEntries(st.current, []);
    }
  }

  lemma {:induction false} BlockBody(st: GroupScan, body: seq<string>)
    requires NoNameLine(body)
    ensures GroupsFrom(st, body) == GroupScan(st.current, st.entries + BlockEntries(st.current, body))
    decreases |body|
  {
    if body != [] {
      BodyStep(st, body[0]);
      var st' := GroupsStep(st, body[0]);
      BlockBody(st', body[1..]);
      var g := st.current;
      assert BlockEntries(g, body) == BlockEntries(g, [body[0]]) + BlockEntries(g, body[1..]) by {
        if g != [] {
          assert [body[0]][1..] == [];
        }
      }
    } else {
      assert st.entries + [] == st.entries;
    }
  }

  /** A NAME: line followed by lines that are not NAME: lines appends one
      record per line that is not a DEVICE CONTROL: line, in order, under the
      header's name; an empty name yields nothing. */
  lemma Block(st: GroupScan, header: string, body: seq<string>)
    requires IsNameLine(header) && NoNameLine(body)
    ensures GroupsFrom(st, [header] + body).entries == st.entries + BlockEntries(HeaderName(header), body)
  {
    assert ([header] + body)[1..] == body;
    BlockBody(GroupsStep(st, header), body);
  }
}
