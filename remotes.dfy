/// The remote-control builder (process_remote_controls): NAME: lines start a
/// remote, and each link line "<number>: <KIND> <name> [- <action>]" under it
/// becomes one link record.
module Remotes {
  import opened Results
  import opened PyText
  import opened Headers

  /** One link record: the zero-based index, the kind (0 device, 1 group,
      2 scene), the target's name and the action. */
  datatype Link = Link(linkIndex: int, linkType: int, linkName: string, action: string)

  /** One remote control and its links. */
  datatype Remote = Remote(remoteName: string, links: seq<Link>)

  /** A link's target: its kind and its name. */
  datatype Target = Target(kind: int, name: string)

  /** The target a description names: SCENE, GROUP or DEVICE at its start
      gives the kind, and the description with every copy of that word
      removed, stripped, gives the name. */
  function TargetOf(desc: string): (r: Option<Target>)
    ensures r.Some? <==> StartsWith(desc, "SCENE") || StartsWith(desc, "GROUP") || StartsWith(desc, "DEVICE")
    ensures r.Some? ==> 0 <= r.value.kind <= 2
  {
    if StartsWith(desc, "SCENE") then Some(Target(2, Strip(RemoveAll(desc, "SCENE"))))
    else if StartsWith(desc, "GROUP") then Some(Target(1, Strip(RemoveAll(desc, "GROUP"))))
    else if StartsWith(desc, "DEVICE") then Some(Target(0, Strip(RemoveAll(desc, "DEVICE"))))
    else None
  }

  /** What a link line reads as: no colon at all, a number that is not an
      integer, or the zero-based index, the action and the target, if the
      description names one. */
  datatype LinkLine =
    | NoColon
    | BadIndex
    | Decoded(index: int, action: string, target: Option<Target>)

  /** The description (text between the first and second colon, stripped)
      split at its last " - " into the target text and the action, stripped
      and upper-cased; "NORMAL" when there is no " - ". */
  function DescriptionAction(field: string): (string, string) {
    var desc := Strip(field);
    match RSplitOnce(desc, " - ")
    case None => (desc, "NORMAL")
    case Some(pair) => (pair.0, Upper(Strip(pair.1)))
  }

  function DecodeLink(line: string): LinkLine {
    var parts := SplitOn(line, ':');
    if |parts| < 2 then NoColon
    else match ParseInt(Strip(parts[0]))
      case None => BadIndex
      case Some(n) =>
        var (desc, action) := DescriptionAction(parts[1]);
        Decoded(n - 1, action, TargetOf(desc))
  }

  /** The scan state: the current remote name (empty before any header), its
      links so far, the remotes finished so far, and the kind and name of the
      last link line that named a target (Python's link_type and link_name,
      which keep their values from line to line and remote to remote). */
  datatype RemoteScan = RemoteScan(current: string, links: seq<Link>, remotes: seq<Remote>, last: Option<Target>)

  const NoRemotes := RemoteScan([], [], [], None)

  /** The remotes with the current one appended when its name is non-empty. */
  function Flush(st: RemoteScan): seq<Remote> {
    if st.current != [] then st.remotes + [Remote(st.current, st.links)] else st.remotes
  }

  /** One stripped line. A description that names no target keeps the
      previous line's kind and name in the catalog-aware variant (and fails
      with UnboundLocalError when there is none), and drops the line in the
      catalog-unaware variant. */
  function RemotesStep(variant: Variant, st: RemoteScan, raw: string): Outcome<RemoteScan> {
    var line := Strip(raw);
    if StartsWith(line, "TOTAL") then Ok(st)
    else if StartsWith(line, "NAME:") then Ok(RemoteScan(HeaderName(raw), [], Flush(st), st.last))
    else if StartsWith(line, "LINK:") then Ok(st)
    else match DecodeLink(line)
      case NoColon => Ok(st)
      case BadIndex => Raised(ValueError)
      case Decoded(i, action, target) =>
        match target
        case Some(t) => Ok(st.(links := st.links + [Link(i, t.kind, t.name, action)], last := Some(t)))
        case None =>
          if variant == CatalogUnaware then Ok(st)
          else match st.last
            case None => Raised(UnboundLocalError)
            case Some(t) => Ok(st.(links := st.links + [Link(i, t.kind, t.name, action)]))
  }

  function RemotesFrom(variant: Variant, st: RemoteScan, lines: seq<string>): Outcome<RemoteScan>
    decreases |lines|
  {
    if lines == [] then Ok(st)
    else match RemotesStep(variant, st, lines[0])
      case Raised(e) => Raised(e)
      case Ok(st') => RemotesFrom(variant, st', lines[1..])
  }

  /** process_remote_controls on a bucket. */
  function Remotes(variant: Variant, lines: seq<string>): Outcome<seq<Remote>> {
    match RemotesFrom(variant, NoRemotes, lines)
    case Raised(e) => Raised(e)
    case Ok(st) => Ok(Flush(st))
  }

  /** The decoding statements of the loop body: split on ":", int() of the
      first field minus one, the description and action from the second
      field, and the target from the description. */
  method ReadLinkLine(line: string) returns (d: LinkLine)
    ensures d == DecodeLink(line)
  {
    var parts := SplitOn(line, ':');
    if |parts| < 2 {
      return NoColon;
    }
    var n := ParseInt(Strip(parts[0]));
    if n.None? {
      return BadIndex;
    }
    var desc, action := ReadDescription(parts[1]);
    var target := ReadTarget(desc);
    d := Decoded(n.value - 1, action, target);
  }

  /** The description and its action: rsplit on the last " - " when there is one. */
  method ReadDescription(field: string) returns (desc: string, action: string)
    ensures (desc, action) == DescriptionAction(field)
  {
    desc := Strip(field);
    action := "NORMAL";
    if Contains(desc, " - ") {
      var pair := RSplitOnce(desc, " - ").value;
      desc := pair.0;
      action := Upper(Strip(pair.1));
    }
  }

  /** The if/elif chain on the description's first word. */
  method ReadTarget(desc: string) returns (target: Option<Target>)
    ensures target == TargetOf(desc)
  {
    target := None;
    if StartsWith(desc, "SCENE") {
      target := Some(Target(2, Strip(RemoveAll(desc, "SCENE"))));
    } else if StartsWith(desc, "GROUP") {
      target := Some(Target(1, Strip(RemoveAll(desc, "GROUP"))));
    } else if StartsWith(desc, "DEVICE") {
      target := Some(Target(0, Strip(RemoveAll(desc, "DEVICE"))));
    }
  }

  /** The run from line i is the step on line i followed by the run from
      line i + 1. */
  lemma RemotesFromAt(variant: Variant, st: RemoteScan, lines: seq<string>, i: nat)
    requires i < |lines|
    ensures RemotesFrom(variant, st, lines[i..])
         == match RemotesStep(variant, st, lines[i])
            case Raised(e) => Raised(e)
            case Ok(st') => RemotesFrom(variant, st', lines[i + 1..])
  {
    assert lines[i..][1..] == lines[i + 1..];
  }

  /** process_remote_controls: TOTAL and LINK: lines are skipped, a NAME: line
      finishes the current remote (if it has a name) and starts the next, and
      any other line with a colon is decoded into a link. */
  method ProcessRemoteControls(variant: Variant, lines: seq<string>) returns (r: Outcome<seq<Remote>>)
    ensures r == Remotes(variant, lines)
  {
    var remotes: seq<Remote> := [];
    var current: string := [];
    var links: seq<Link> := [];
    var linkType := 0;
    var linkName: string := [];
    var bound := false;
    for i := 0 to |lines|
      invariant var last := if bound then Some(Target(linkType, linkName)) else None;
        RemotesFrom(variant, RemoteScan(current, links, remotes, last), lines[i..])
          == RemotesFrom(variant, NoRemotes, lines)
    {
      RemotesFromAt(variant, RemoteScan(current, links, remotes, if bound then Some(Target(linkType, linkName)) else None), lines, i);
      var line := Strip(lines[i]);
      if StartsWith(line, "TOTAL") {
        continue;
      }
      if StartsWith(line, "NAME:") {
        if current != [] {
          remotes := remotes + [Remote(current, links)];
        }
        current := Strip(RemoveAll(line, "NAME:"));
        links := [];
      } else if StartsWith(line, "LINK:") {
        continue;
      } else {
        var decoded := ReadLinkLine(line);
        match decoded
        case NoColon =>
          continue;
        case BadIndex =>
          return Raised(ValueError);
        case Decoded(linkIndex, action, target) =>
          if target.Some? {
            linkType, linkName, bound := target.value.kind, target.value.name, true;
          } else if variant == CatalogUnaware {
            continue;
          } else if !bound {
            return Raised(UnboundLocalError);
          }
          links := links + [Link(linkIndex, linkType, linkName, action)];
      }
    }
    if current != [] {
      remotes := remotes + [Remote(current, links)];
    }
    r := Ok(remotes);
  }

  // ---------------------------------------------------------------- Lemmas

  /** Every link kind in the state, and the remembered one, is 0, 1 or 2. */
  predicate KindsInRange(st: RemoteScan) {
    && (forall k :: 0 <= k < |st.links| ==> 0 <= st.links[k].linkType <= 2)
    && (forall r, k :: 0 <= r < |st.remotes| && 0 <= k < |st.remotes[r].links| ==> 0 <= st.remotes[r].links[k].linkType <= 2)
    && (st.last.Some? ==> 0 <= st.last.value.kind <= 2)
  }

  lemma StepKinds(variant: Variant, st: RemoteScan, raw: string)
    requires KindsInRange(st) && RemotesStep(variant, st, raw).Ok?
    ensures KindsInRange(RemotesStep(variant, st, raw).value)
  {
  }

  lemma {:induction false} RunKinds(variant: Variant, st: RemoteScan, lines: seq<string>)
    requires KindsInRange(st) && RemotesFrom(variant, st, lines).Ok?
    ensures KindsInRange(RemotesFrom(variant, st, lines).value)
    decreases |lines|
  {
    if lines != [] {
      StepKinds(variant, st, lines[0]);
      RunKinds(variant, RemotesStep(variant, st, lines[0]).value, lines[1..]);
    }
  }

  /** Every link of every remote has kind 0 (device), 1 (group) or 2
      (scene). */
  lemma LinkKinds(variant: Variant, lines: seq<string>)
    requires Remotes(variant, lines).Ok?
    ensures var rs := Remotes(variant, lines).value;
      forall r, k :: 0 <= r < |rs| && 0 <= k < |rs[r].links| ==> 0 <= rs[r].links[k].linkType <= 2
  {
    RunKinds(variant, NoRemotes, lines);
  }

  /** The names of a list of remotes. */
  function RemoteNames(rs: seq<Remote>): (r: seq<string>)
    ensures |r| == |rs|
  {
    seq(|rs|, k requires 0 <= k < |rs| => rs[k].remoteName)
  }

  /** The non-empty strings of names, in order. */
  function NonEmpty(names: seq<string>): seq<string>
    decreases |names|
  {
    if names == [] then []
    else (if names[0] != [] then [names[0]] else []) + NonEmpty(names[1..])
  }

  lemma {:induction false} NonEmptyAppend(a: seq<string>, b: seq<string>)
    ensures NonEmpty(a + b) == NonEmpty(a) + NonEmpty(b)
    decreases |a|
  {
    if a == [] {
      assert a + b == b;
    } else {
      assert (a + b)[1..] == a[1..] + b;
      NonEmptyAppend(a[1..], b);
    }
  }

  /** The names output so far plus the current one if it will be output. */
  function Pending(st: RemoteScan): seq<string> {
    RemoteNames(Flush(st))
  }

  lemma TotalNotName(line: string)
    requires IsNameLine(line)
    ensures !StartsWith(Strip(line), "TOTAL")
  {
    assert Strip(line)[0] == 'N';
  }

  lemma PendingFlush(st: RemoteScan, h: string)
    ensures Pending(RemoteScan(h, [], Flush(st), st.last)) == Pending(st) + NonEmpty([h])
  {
    assert [h][1..] == [];
  }

  lemma StepNames(variant: Variant, st: RemoteScan, raw: string)
    requires RemotesStep(variant, st, raw).Ok?
    ensures Pending(RemotesStep(variant, st, raw).value) == Pending(st) + NonEmpty(HeaderNames([raw]))
  {
    assert [raw][1..] == [];
    if IsNameLine(raw) {
      TotalNotName(raw);
      PendingFlush(st, HeaderName(raw));
      assert HeaderNames([raw]) == [HeaderName(raw)];
    } else {
      assert HeaderNames([raw]) == [];
    }
  }

  lemma HeaderNamesCons(lines: seq<string>)
    requires lines != []
    ensures HeaderNames(lines) == HeaderNames([lines[0]]) + HeaderNames(lines[1..])
  {
    assert [lines[0]][1..] == [];
  }

  /** A run that does not fail takes its first step and runs on from there. */
  lemma RemotesFromCons(variant: Variant, st: RemoteScan, lines: seq<string>)
    requires lines != [] && RemotesFrom(variant, st, lines).Ok?
    ensures RemotesStep(variant, st, lines[0]).Ok?
    ensures RemotesFrom(variant, st, lines) == RemotesFrom(variant, RemotesStep(variant, st, lines[0]).value, lines[1..])
  {
  }

  lemma {:induction false} RunNames(variant: Variant, st: RemoteScan, lines: seq<string>)
    requires RemotesFrom(variant, st, lines).Ok?
    ensures Pending(RemotesFrom(variant, st, lines).value) == Pending(st) + NonEmpty(HeaderNames(lines))
    decreases |lines|
  {
    if lines != [] {
      RemotesFromCons(variant, st, lines);
      var st' := RemotesStep(variant, st, lines[0]).value;
      StepNames(variant, st, lines[0]);
      RunNames(variant, st', lines[1..]);
      HeaderNamesCons(lines);
      NonEmptyAppend(HeaderNames([lines[0]]), HeaderNames(lines[1..]));
      ConcatAssoc(Pending(st), NonEmpty(HeaderNames([lines[0]])), NonEmpty(HeaderNames(lines[1..])));
    }
  }

  /** The remotes of a run that does not fail are named, in order, by the
      NAME: lines whose name is not empty; a NAME: line with an empty name
      starts a remote that is never output. */
  lemma RemoteNamesFromHeaders(variant: Variant, lines: seq<string>)
    requires Remotes(variant, lines).Ok?
    ensures RemoteNames(Remotes(variant, lines).value) == NonEmpty(HeaderNames(lines))
  {
    RunNames(variant, NoRemotes, lines);
    assert Pending(NoRemotes) == [];
  }

  /** A line fails with UnboundLocalError only in the catalog-aware variant
      and only while no earlier link line has named a target; every other
      failure is the ValueError of a link number that is not an integer. */
  lemma {:induction false} RemoteErrors(variant: Variant, st: RemoteScan, lines: seq<string>)
    ensures var r := RemotesFrom(variant, st, lines);
      r.Raised? ==> r.error == ValueError || (r.error == UnboundLocalError && variant == CatalogAware && st.last.None?)
    decreases |lines|
  {
    if lines != [] {
      var s := RemotesStep(variant, st, lines[0]);
      if s.Ok? {
        RemoteErrors(variant, s.value, lines[1..]);
        assert st.last.Some? ==> s.value.last.Some?;
      }
    }
  }

  /** Processing a concatenation is processing its two parts in turn. */
  lemma {:induction false} RemotesFromAppend(variant: Variant, st: RemoteScan, a: seq<string>, b: seq<string>)
    ensures RemotesFrom(variant, st, a + b)
         == match RemotesFrom(variant, st, a)
            case Raised(e) => Raised(e)
            case Ok(st') => RemotesFrom(variant, st', b)
    decreases |a|
  {
    if a != [] {
      assert (a + b)[0] == a[0] && (a + b)[1..] == a[1..] + b;
      var s := RemotesStep(variant, st, a[0]);
      if s.Ok? {
        RemotesFromAppend(variant, s.value, a[1..], b);
      }
    } else {
      assert a + b == b;
    }
  }

  /** Before the first NAME: line no remote is started or finished, whatever
      the links read. */
  lemma {:induction false} BeforeFirstName(variant: Variant, st: RemoteScan, pre: seq<string>)
    requires st.current == [] && st.remotes == [] && NoNameLine(pre)
    requires RemotesFrom(variant, st, pre).Ok?
    ensures RemotesFrom(variant, st, pre).value.current == []
    ensures RemotesFrom(variant, st, pre).value.remotes == []
    decreases |pre|
  {
    if pre != [] {
      BeforeFirstName(variant, RemotesStep(variant, st, pre[0]).value, pre[1..]);
    }
  }

  /** Links read before the first NAME: line are lost: the run continues from
      the first header with no remote and no links, carrying over only the
      last named target. */
  lemma LinksBeforeFirstNameLost(variant: Variant, pre: seq<string>, header: string, rest: seq<string>)
    requires NoNameLine(pre) && IsNameLine(header)
    requires RemotesFrom(variant, NoRemotes, pre).Ok?
    ensures var last := RemotesFrom(variant, NoRemotes, pre).value.last;
      RemotesFrom(variant, NoRemotes, pre + [header] + rest)
        == RemotesFrom(variant, RemoteScan(HeaderName(header), [], [], last), rest)
  {
    var st := RemotesFrom(variant, NoRemotes, pre).value;
    BeforeFirstName(variant, NoRemotes, pre);
    RemotesFromAppend(variant, NoRemotes, pre, [header] + rest);
    assert pre + [header] + rest == pre + ([header] + rest);
    TotalNotName(header);
    assert ([header] + rest)[1..] == rest;
  }

  /** Only the text before the first colon and the text between the first and
      the second colon are read from a link line. */
  lemma OnlyTwoFields(a: string, b: string, c: string)
    requires ':' !in a && ':' !in b
    ensures DecodeLink(a + ":" + b + ":" + c) == DecodeLink(a + ":" + b)
  {
    assert a + ":" + b + ":" + c == a + [':'] + (b + [':'] + c);
    assert a + ":" + b == a + [':'] + b;
    SplitOnFirst(a, ':', b + [':'] + c);
    SplitOnFirst(b, ':', c);
    SplitOnFirst(a, ':', b);
    SplitOnAbsent(b, ':');
  }

  /** A run's outcome with the remembered target forgotten. */
  function Forget(o: Outcome<RemoteScan>): Outcome<RemoteScan> {
    match o
    case Raised(e) => Raised(e)
    case Ok(st) => Ok(st.(last := None))
  }

  /** In the catalog-unaware variant the remembered target is never read: two
      states that differ only in it lead to the same remotes. */
  lemma {:induction false} UnawareIgnoresLast(s1: RemoteScan, s2: RemoteScan, lines: seq<string>)
    requires s1.(last := None) == s2.(last := None)
    ensures Forget(RemotesFrom(CatalogUnaware, s1, lines)) == Forget(RemotesFrom(CatalogUnaware, s2, lines))
    decreases |lines|
  {
    if lines != [] {
      var r1, r2 := RemotesStep(CatalogUnaware, s1, lines[0]), RemotesStep(CatalogUnaware, s2, lines[0]);
      assert Forget(r1) == Forget(r2);
      if r1.Ok? {
        UnawareIgnoresLast(r1.value, r2.value, lines[1..]);
      }
    }
  }

  /** In the catalog-unaware variant, whatever comes before the first NAME:
      line makes no difference to the remotes, unless it fails. */
  lemma UnawarePrefixIgnored(pre: seq<string>, header: string, rest: seq<string>)
    requires NoNameLine(pre) && IsNameLine(header)
    requires RemotesFrom(CatalogUnaware, NoRemotes, pre).Ok?
    ensures Remotes(CatalogUnaware, pre + [header] + rest) == Remotes(CatalogUnaware, [header] + rest)
  {
    var last := RemotesFrom(CatalogUnaware, NoRemotes, pre).value.last;
    var h := RemoteScan(HeaderName(header), [], [], None);
    LinksBeforeFirstNameLost(CatalogUnaware, pre, header, rest);
    UnawareIgnoresLast(h.(last := last), h, rest);
    TotalNotName(header);
    assert ([header] + rest)[1..] == rest;
    assert RemotesFrom(CatalogUnaware, NoRemotes, [header] + rest) == RemotesFrom(CatalogUnaware, h, rest);
  }
}
