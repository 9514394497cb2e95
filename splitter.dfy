/// The section splitter: sentinel lines divide the flattened text into the
/// devices, groups, scenes and remote-control buckets.
module Splitter {
  import opened Results

  datatype Bucket = Devices | Groups | Scenes | RemoteControls

  /** The line that opens each bucket. */
  function Sentinel(b: Bucket): string {
    match b
    case Devices => "KASTA DEVICE"
    case Groups => "KASTA GROUP"
    case Scenes => "KASTA SCENE"
    case RemoteControls => "REMOTE CONTROL LINK"
  }

  /** The bucket a line opens, when it is exactly one of the sentinels. */
  function BucketOf(line: string): (r: Option<Bucket>)
    ensures r.Some? ==> line == Sentinel(r.value)
    ensures forall b :: line == Sentinel(b) ==> r == Some(b)
  {
    if line == "KASTA DEVICE" then Some(Devices)
    else if line == "KASTA GROUP" then Some(Groups)
    else if line == "KASTA SCENE" then Some(Scenes)
    else if line == "REMOTE CONTROL LINK" then Some(RemoteControls)
    else None
  }

  predicate NoSentinel(lines: seq<string>) {
    forall i :: 0 <= i < |lines| ==> BucketOf(lines[i]).None?
  }

  /** The four buckets of lines. */
  datatype Buckets = Buckets(devices: seq<string>, groups: seq<string>, scenes: seq<string>, remoteControls: seq<string>)
  {
    function Get(b: Bucket): seq<string> {
      match b
      case Devices => devices
      case Groups => groups
      case Scenes => scenes
      case RemoteControls => remoteControls
    }

    /** The buckets with `more` appended to bucket b and the others unchanged. */
    function Extend(b: Bucket, more: seq<string>): (r: Buckets)
      ensures r.Get(b) == Get(b) + more
      ensures forall c :: c != b ==> r.Get(c) == Get(c)
    {
      match b
      case Devices => this.(devices := devices + more)
      case Groups => this.(groups := groups + more)
      case Scenes => this.(scenes := scenes + more)
      case RemoteControls => this.(remoteControls := remoteControls + more)
    }
  }

  const NoLines := Buckets([], [], [], [])

  /** The splitter's state: the active bucket, if a sentinel has been seen, and
      the buckets filled so far. */
  datatype SplitState = SplitState(active: Option<Bucket>, buckets: Buckets)

  function SplitStep(st: SplitState, line: string): SplitState {
    match BucketOf(line)
    case Some(b) => SplitState(Some(b), st.buckets)
    case None =>
      if st.active.Some? then SplitState(st.active, st.buckets.Extend(st.active.value, [line]))
      else st
  }

  function SplitFrom(st: SplitState, lines: seq<string>): SplitState
    decreases |lines|
  {
    if lines == [] then st else SplitFrom(SplitStep(st, lines[0]), lines[1..])
  }

  /** The buckets of a whole line sequence. */
  function Split(lines: seq<string>): Buckets {
    SplitFrom(SplitState(None, NoLines), lines).buckets
  }

  /** The splitting loop of split_json_file: a sentinel switches the active
      bucket and is stored nowhere; any other line goes to the active bucket. */
  method SplitSections(content: seq<string>) returns (split: Buckets)
    ensures split == Split(content)
  {
    var current: Option<Bucket> := None;
    split := NoLines;
    for i := 0 to |content|
      invariant SplitFrom(SplitState(current, split), content[i..]) == SplitFrom(SplitState(None, NoLines), content)
    {
      assert content[i..] == [content[i]] + content[i + 1..];
      var line := content[i];
      var key := BucketOf(line);
      if key.Some? {
        current := key;
        continue;
      }
      if current.Some? {
        split := split.Extend(current.value, [line]);
      }
    }
  }

  /** Processing a concatenation is processing its two parts in turn. */
  lemma {:induction false} SplitFromAppend(st: SplitState, a: seq<string>, b: seq<string>)
    ensures SplitFrom(st, a + b) == SplitFrom(SplitFrom(st, a), b)
    decreases |a|
  {
    if a != [] {
      assert (a + b)[0] == a[0] && (a + b)[1..] == a[1..] + b;
      var st' := SplitStep(st, a[0]);
      SplitFromAppend(st', a[1..], b);
      assert SplitFrom(st, a + b) == SplitFrom(st', a[1..] + b);
      assert SplitFrom(st, a) == SplitFrom(st', a[1..]);
    } else {
      assert a + b == b;
    }
  }

  /** Lines before the first sentinel are dropped. */
  lemma {:induction false} LinesBeforeSentinelDropped(st: SplitState, lines: seq<string>)
    requires st.active.None? && NoSentinel(lines)
    ensures SplitFrom(st, lines) == st
    decreases |lines|
  {
    if lines != [] {
      LinesBeforeSentinelDropped(SplitStep(st, lines[0]), lines[1..]);
    }
  }

  lemma ExtendTwice(bs: Buckets, b: Bucket, x: seq<string>, y: seq<string>)
    ensures bs.Extend(b, x).Extend(b, y) == bs.Extend(b, x + y)
  {
  }

  /** Without sentinels, every line goes, in order, to the active bucket. */
  lemma {:induction false} BodyAppended(st: SplitState, body: seq<string>)
    requires st.active.Some? && NoSentinel(body)
    ensures SplitFrom(st, body) == SplitState(st.active, st.buckets.Extend(st.active.value, body))
    decreases |body|
  {
    if body != [] {
      var b := st.active.value;
      var st' := SplitStep(st, body[0]);
      assert st' == SplitState(st.active, st.buckets.Extend(b, [body[0]]));
      BodyAppended(st', body[1..]);
      assert [body[0]] + body[1..] == body;
      ExtendTwice(st.buckets, b, [body[0]], body[1..]);
    }
  }

  /** A sentinel followed by lines without sentinels appends those lines, in
      order, to that sentinel's bucket, after whatever it already held; a
      sentinel seen again resumes the same bucket. */
  lemma Section(st: SplitState, b: Bucket, body: seq<string>)
    requires NoSentinel(body)
    ensures SplitFrom(st, [Sentinel(b)] + body) == SplitState(Some(b), st.buckets.Extend(b, body))
  {
    SplitFromAppend(st, [Sentinel(b)], body);
    BodyAppended(SplitState(Some(b), st.buckets), body);
  }

  /** Sections for two different buckets can be swapped without changing any
      bucket, as long as what follows them starts a section of its own. */
  lemma SectionsCommute(pre: seq<string>, b1: Bucket, body1: seq<string>, b2: Bucket, body2: seq<string>, post: seq<string>)
    requires b1 != b2 && NoSentinel(body1) && NoSentinel(body2)
    requires post == [] || BucketOf(post[0]).Some?
    ensures Split(pre + ([Sentinel(b1)] + body1) + ([Sentinel(b2)] + body2) + post)
         == Split(pre + ([Sentinel(b2)] + body2) + ([Sentinel(b1)] + body1) + post)
  {
    var init := SplitState(None, NoLines);
    var s1, s2 := [Sentinel(b1)] + body1, [Sentinel(b2)] + body2;
    var st := SplitFrom(init, pre);
    SplitFromAppend(init, pre + s1 + s2, post);
    SplitFromAppend(init, pre + s1, s2);
    SplitFromAppend(init, pre, s1);
    SplitFromAppend(init, pre + s2 + s1, post);
    SplitFromAppend(init, pre + s2, s1);
    SplitFromAppend(init, pre, s2);
    Section(st, b1, body1);
    Section(SplitFrom(st, s1), b2, body2);
    Section(st, b2, body2);
    Section(SplitFrom(st, s2), b1, body1);
    var x := SplitFrom(SplitFrom(st, s1), s2);
    var y := SplitFrom(SplitFrom(st, s2), s1);
    assert x.buckets == y.buckets by {
      var bx, bY := x.buckets, y.buckets;
      assert forall c :: bx.Get(c) == bY.Get(c);
      assert bx.devices == bx.Get(Devices) && bY.devices == bY.Get(Devices);
      assert bx.groups == bx.Get(Groups) && bY.groups == bY.Get(Groups);
      assert bx.scenes == bx.Get(Scenes) && bY.scenes == bY.Get(Scenes);
      assert bx.remoteControls == bx.Get(RemoteControls) && bY.remoteControls == bY.Get(RemoteControls);
    }
    if post != [] {
      assert post == [post[0]] + post[1..];
      assert SplitStep(x, post[0]) == SplitStep(y, post[0]);
    }
  }
}
