/** What the audio mixer decides about one stream of one listener, and what the passes of
    `prepareMix` do with whole vectors of streams (AudioMixerWorker.cpp). */
module MixStreams {

  type Uuid = nat       // 0 is the null UUID
  type LocalID = nat    // 0 is the null local ID

  /** NodeIDStreamID. The microphone stream of a node has the null stream ID. */
  datatype StreamKey = StreamKey(nodeID: Uuid, localID: LocalID, streamID: Uuid) {
    // operator==, which is not equality: the node may match by either of its IDs
    predicate Matches(other: StreamKey) {
      (localID == other.localID || nodeID == other.nodeID) && streamID == other.streamID
    }
  }

  /** MixableStream, without its HRTF. Its approximate volume is recomputed before every use, so
      it is the function Volume below. */
  datatype Stream = Stream(key: StreamKey, ignoredByListener: bool, ignoringListener: bool)

  /** What the mix reads through the pointer to a live positional stream. */
  datatype StreamAudio = StreamAudio(
    lastPopSucceeded: bool,
    loudness: real,
    trailingLoudness: real,
    shouldLoopback: bool,
    ignoreBoxEnabled: bool,
    touchesListenerBox: bool,
    approximateGain: real)

  /** The removals staged since the last frame, shared by all workers. */
  datatype Removals = Removals(nodes: seq<LocalID>, streams: seq<StreamKey>)

  /** Everything the mix for one listener reads but does not change. `audio` holds the streams
      that exist: looking up another key would follow a dangling pointer. */
  datatype Context = Context(
    nodeID: Uuid,
    localID: LocalID,
    newIgnored: seq<Uuid>,
    newUnignored: seq<Uuid>,
    newIgnoring: seq<Uuid>,
    newUnignoring: seq<Uuid>,
    isAdmin: bool,
    soloed: seq<Uuid>,
    ignoreBoxEnabled: bool,
    removals: Removals,
    audio: map<StreamKey, StreamAudio>)

  datatype Streams = Streams(active: seq<Stream>, inactive: seq<Stream>, skipped: seq<Stream>) {
    function All(): seq<Stream> { active + inactive + skipped }
  }

  datatype Bucket = Active | Inactive | Skipped

  predicate ShouldBeRemoved(r: Removals, key: StreamKey) {
    key.localID in r.nodes || exists k :: k in r.streams && k.Matches(key)
  }

  predicate ShouldBeInactive(ctx: Context, s: Stream)
    requires s.key in ctx.audio
  {
    !ctx.audio[s.key].lastPopSucceeded || ctx.audio[s.key].loudness == 0.0
  }

  predicate IsOwn(ctx: Context, s: Stream) { s.key.localID == ctx.localID }

  // The flag update inside shouldBeSkipped, which leaves the listener's own streams alone.
  function Refresh(ctx: Context, s: Stream): Stream {
    if IsOwn(ctx, s) then s
    else s.(ignoredByListener := RefreshFlag(s.ignoredByListener, s.key.nodeID, ctx.newIgnored, ctx.newUnignored),
            ignoringListener := RefreshFlag(s.ignoringListener, s.key.nodeID, ctx.newIgnoring, ctx.newUnignoring))
  }

  predicate RefreshFlag(flag: bool, node: Uuid, on: seq<Uuid>, off: seq<Uuid>) {
    if flag then node !in off else node in on
  }

  // The answer of shouldBeSkipped, given the stream with its flags already updated.
  predicate SkipsRefreshed(ctx: Context, s: Stream)
    requires s.key in ctx.audio
  {
    var audio := ctx.audio[s.key];
    if IsOwn(ctx, s) then !audio.shouldLoopback
    else if s.ignoredByListener || (s.ignoringListener && !ctx.isAdmin) then true
    else if ctx.soloed != [] then s.key.nodeID !in ctx.soloed
    else (ctx.ignoreBoxEnabled || audio.ignoreBoxEnabled) && audio.touchesListenerBox
  }

  predicate ShouldBeSkipped(ctx: Context, s: Stream)
    requires s.key in ctx.audio
  {
    SkipsRefreshed(ctx, Refresh(ctx, s))
  }

  function Volume(ctx: Context, s: Stream): real
    requires s.key in ctx.audio
  {
    var audio := ctx.audio[s.key];
    if audio.trailingLoudness == 0.0 then 0.0
    else if s.key == StreamKey(ctx.nodeID, ctx.localID, 0) then 1.0
    else audio.trailingLoudness * audio.approximateGain
  }

  /** The one-shot classifier: skipped if it should be skipped, else inactive if silent, else active. */
  function Classify(ctx: Context, s: Stream): Bucket
    requires s.key in ctx.audio
  {
    if ShouldBeSkipped(ctx, s) then Skipped else if ShouldBeInactive(ctx, s) then Inactive else Active
  }

  // Every stream that is not about to be removed still exists.
  predicate NoDangling(ctx: Context, xs: seq<Stream>) {
    forall i :: 0 <= i < |xs| && !ShouldBeRemoved(ctx.removals, xs[i].key) ==> xs[i].key in ctx.audio
  }

  /** The streams of xs that stay and that the classifier puts into bucket b, in order, with updated flags. */
  function Select(ctx: Context, b: Bucket, xs: seq<Stream>): seq<Stream>
    requires NoDangling(ctx, xs)
  {
    if xs == [] then [] else
      var rest := Select(ctx, b, xs[..|xs| - 1]);
      var x := xs[|xs| - 1];
      if ShouldBeRemoved(ctx.removals, x.key) || Classify(ctx, x) != b then rest else rest + [Refresh(ctx, x)]
  }

  function Kept(ctx: Context, xs: seq<Stream>): seq<Stream> {
    if xs == [] then [] else
      var rest := Kept(ctx, xs[..|xs| - 1]);
      var x := xs[|xs| - 1];
      if ShouldBeRemoved(ctx.removals, x.key) then rest else rest + [x]
  }

  // ---------- the passes as functions ----------

  predicate NothingDangles(ctx: Context, st: Streams) {
    NoDangling(ctx, st.active) && NoDangling(ctx, st.inactive) && NoDangling(ctx, st.skipped)
  }

  function SkippedPass(ctx: Context, st: Streams): (r: Streams)
    requires NothingDangles(ctx, st)
    ensures NothingDangles(ctx, r)
  {
    SelectIsLive(ctx, Active, st.skipped);
    SelectIsLive(ctx, Inactive, st.skipped);
    SelectIsLive(ctx, Skipped, st.skipped);
    Streams(st.active + Select(ctx, Active, st.skipped),
            st.inactive + Select(ctx, Inactive, st.skipped),
            Select(ctx, Skipped, st.skipped))
  }

  function InactivePass(ctx: Context, st: Streams): (r: Streams)
    requires NothingDangles(ctx, st)
    ensures NothingDangles(ctx, r)
  {
    SelectIsLive(ctx, Active, st.inactive);
    SelectIsLive(ctx, Inactive, st.inactive);
    SelectIsLive(ctx, Skipped, st.inactive);
    Streams(st.active + Select(ctx, Active, st.inactive),
            Select(ctx, Inactive, st.inactive),
            st.skipped + Select(ctx, Skipped, st.inactive))
  }

  // The last pass visits the active streams in the given order: their own, or the throttled one.
  function ActivePass(ctx: Context, st: Streams, order: seq<Stream>): Streams
    requires NoDangling(ctx, order)
  {
    Streams(Select(ctx, Active, order),
            st.inactive + Select(ctx, Inactive, order),
            st.skipped + Select(ctx, Skipped, order))
  }

  /** The three passes in the order `prepareMix` makes them. */
  function MultiPass(ctx: Context, st: Streams, order: seq<Stream>): Streams
    requires NothingDangles(ctx, st) && NoDangling(ctx, order)
  {
    ActivePass(ctx, InactivePass(ctx, SkippedPass(ctx, st)), order)
  }

  // The active streams as the last pass finds them.
  function ActiveBeforeLastPass(ctx: Context, st: Streams): seq<Stream>
    requires NothingDangles(ctx, st)
  {
    InactivePass(ctx, SkippedPass(ctx, st)).active
  }

  // ---------- facts about Select ----------

  lemma {:induction false} SelectIsLive(ctx: Context, b: Bucket, xs: seq<Stream>)
    requires NoDangling(ctx, xs)
    ensures forall y :: y in Select(ctx, b, xs) ==> y.key in ctx.audio && !ShouldBeRemoved(ctx.removals, y.key)
    ensures NoDangling(ctx, Select(ctx, b, xs))
  {
    if xs != [] {
      SelectIsLive(ctx, b, xs[..|xs| - 1]);
    }
  }

  lemma {:induction false} SelectConcat(ctx: Context, b: Bucket, xs: seq<Stream>, ys: seq<Stream>)
    requires NoDangling(ctx, xs) && NoDangling(ctx, ys)
    ensures NoDangling(ctx, xs + ys)
    ensures Select(ctx, b, xs + ys) == Select(ctx, b, xs) + Select(ctx, b, ys)
  {
    if ys == [] {
      assert xs + ys == xs;
    } else {
      var n := |ys| - 1;
      assert (xs + ys)[..|xs + ys| - 1] == xs + ys[..n];
      SelectConcat(ctx, b, xs, ys[..n]);
    }
  }

  // What one stream adds to bucket b.
  function Chosen(ctx: Context, b: Bucket, x: Stream): seq<Stream>
    requires ShouldBeRemoved(ctx.removals, x.key) || x.key in ctx.audio
  {
    if ShouldBeRemoved(ctx.removals, x.key) || Classify(ctx, x) != b then [] else [Refresh(ctx, x)]
  }

  lemma SelectStep(ctx: Context, b: Bucket, xs: seq<Stream>, i: nat)
    requires i < |xs| && NoDangling(ctx, xs)
    ensures NoDangling(ctx, xs[..i]) && NoDangling(ctx, xs[..i + 1])
    ensures Select(ctx, b, xs[..i + 1]) == Select(ctx, b, xs[..i]) + Chosen(ctx, b, xs[i])
  {
    assert xs[..i + 1][..i] == xs[..i];
  }

  // The same behind what the bucket held before.
  lemma SelectStepOn(ctx: Context, b: Bucket, base: seq<Stream>, xs: seq<Stream>, i: nat)
    requires i < |xs| && NoDangling(ctx, xs)
    ensures NoDangling(ctx, xs[..i]) && NoDangling(ctx, xs[..i + 1])
    ensures base + Select(ctx, b, xs[..i]) + Chosen(ctx, b, xs[i]) == base + Select(ctx, b, xs[..i + 1])
  {
    SelectStep(ctx, b, xs, i);
    hide Select, Chosen;
  }

  lemma {:induction false} KeptConcat(ctx: Context, xs: seq<Stream>, ys: seq<Stream>)
    ensures Kept(ctx, xs + ys) == Kept(ctx, xs) + Kept(ctx, ys)
  {
    if ys == [] {
      assert xs + ys == xs;
    } else {
      var n := |ys| - 1;
      assert (xs + ys)[..|xs + ys| - 1] == xs + ys[..n];
      KeptConcat(ctx, xs, ys[..n]);
    }
  }

  lemma {:induction false} KeptIsLive(ctx: Context, xs: seq<Stream>)
    requires NoDangling(ctx, xs)
    ensures forall y :: y in Kept(ctx, xs) ==> y in xs && y.key in ctx.audio && !ShouldBeRemoved(ctx.removals, y.key)
    ensures |Kept(ctx, xs)| <= |xs|
  {
    if xs != [] {
      KeptIsLive(ctx, xs[..|xs| - 1]);
    }
  }

  lemma {:induction false} SelectKept(ctx: Context, b: Bucket, xs: seq<Stream>)
    requires NoDangling(ctx, xs)
    ensures NoDangling(ctx, Kept(ctx, xs))
    ensures Select(ctx, b, Kept(ctx, xs)) == Select(ctx, b, xs)
  {
    KeptIsLive(ctx, xs);
    if xs != [] {
      var n := |xs| - 1;
      SelectKept(ctx, b, xs[..n]);
      if !ShouldBeRemoved(ctx.removals, xs[n].key) {
        assert Kept(ctx, xs)[..|Kept(ctx, xs)| - 1] == Kept(ctx, xs[..n]);
      }
    }
  }

  lemma WithoutOne<T>(xs: seq<T>, i: nat)
    requires i < |xs|
    ensures multiset(xs[..i] + xs[i + 1..]) == multiset(xs) - multiset{xs[i]}
  {
    assert xs == xs[..i] + [xs[i]] + xs[i + 1..];
    assert multiset(xs) == multiset(xs[..i]) + multiset{xs[i]} + multiset(xs[i + 1..]);
  }

  // Taking the last element of xs out of both of two permutations of each other.
  lemma TakeOut<T>(xs: seq<T>, ys: seq<T>) returns (j: nat)
    requires xs != [] && multiset(xs) == multiset(ys)
    ensures j < |ys| && ys[j] == xs[|xs| - 1]
    ensures multiset(xs[..|xs| - 1]) == multiset(ys[..j] + ys[j + 1..])
  {
    var n := |xs| - 1;
    assert xs[n] in multiset(ys);
    j :| 0 <= j < |ys| && ys[j] == xs[n];
    WithoutOne(xs, n);
    assert xs[..n] + xs[n + 1..] == xs[..n];
    WithoutOne(ys, j);
  }

  lemma SelectMiddle(ctx: Context, b: Bucket, ys: seq<Stream>, j: nat)
    requires j < |ys| && NoDangling(ctx, ys)
    ensures NoDangling(ctx, ys[..j] + ys[j + 1..]) && NoDangling(ctx, [ys[j]])
    ensures multiset(Select(ctx, b, ys)) == multiset(Select(ctx, b, ys[..j] + ys[j + 1..])) +
      multiset(Select(ctx, b, [ys[j]]))
  {
    var before, after := ys[..j], ys[j + 1..];
    assert ys == before + ([ys[j]] + after);
    SelectConcat(ctx, b, before, after);
    SelectConcat(ctx, b, [ys[j]], after);
    SelectConcat(ctx, b, before, [ys[j]] + after);
  }

  // Select does not care about order, as far as what it selects goes.
  lemma {:induction false} SelectPermuted(ctx: Context, b: Bucket, xs: seq<Stream>, ys: seq<Stream>)
    requires NoDangling(ctx, xs) && NoDangling(ctx, ys) && multiset(xs) == multiset(ys)
    ensures multiset(Select(ctx, b, xs)) == multiset(Select(ctx, b, ys))
  {
    if xs == [] {
      assert |ys| == |multiset(ys)| == 0;
    } else {
      var n := |xs| - 1;
      var j := TakeOut(xs, ys);
      SelectMiddle(ctx, b, ys, j);
      SelectMiddle(ctx, b, xs, n);
      assert xs[..n] + xs[n + 1..] == xs[..n];
      SelectPermuted(ctx, b, xs[..n], ys[..j] + ys[j + 1..]);
    }
  }

  // ---------- evaluating a stream more than once ----------

  /** The node of a stream is staged both ways, in one of the two directions of ignoring. */
  predicate StagedBothWays(ctx: Context, n: Uuid) {
    (n in ctx.newIgnored && n in ctx.newUnignored) || (n in ctx.newIgnoring && n in ctx.newUnignoring)
  }

  /** A second evaluation of shouldBeSkipped in the same frame changes nothing exactly if the node
      of the stream is not staged both ways (or the stream is the listener's own). */
  lemma RefreshSettles(ctx: Context, s: Stream)
    ensures Refresh(ctx, Refresh(ctx, s)) == Refresh(ctx, s) <==> IsOwn(ctx, s) || !StagedBothWays(ctx, s.key.nodeID)
  {
  }

  function In(b: Bucket, st: Streams): seq<Stream> {
    match b case Active => st.active case Inactive => st.inactive case Skipped => st.skipped
  }

  /** The first evaluation moves a stream of bucket `from` to a bucket that a later pass visits. */
  predicate Reevaluated(ctx: Context, from: Bucket, s: Stream)
    requires s.key in ctx.audio
  {
    match from
    case Skipped => Classify(ctx, s) != Skipped
    case Inactive => Classify(ctx, s) == Active
    case Active => false
  }

  /** What the passes make of a stream of bucket `from`, and where they leave it. */
  function Final(ctx: Context, from: Bucket, s: Stream): (r: Stream)
    requires s.key in ctx.audio
  {
    if Reevaluated(ctx, from, s) then Refresh(ctx, Refresh(ctx, s)) else Refresh(ctx, s)
  }

  function FinalBucket(ctx: Context, from: Bucket, s: Stream): Bucket
    requires s.key in ctx.audio
  {
    if Reevaluated(ctx, from, s) then Classify(ctx, Refresh(ctx, s)) else Classify(ctx, s)
  }

  // The streams of bucket `from` that end in bucket b.
  function Settled(ctx: Context, b: Bucket, from: Bucket, xs: seq<Stream>): seq<Stream>
    requires NoDangling(ctx, xs)
  {
    if xs == [] then [] else
      var rest := Settled(ctx, b, from, xs[..|xs| - 1]);
      var x := xs[|xs| - 1];
      if ShouldBeRemoved(ctx.removals, x.key) || FinalBucket(ctx, from, x) != b then rest
      else rest + [Final(ctx, from, x)]
  }

  lemma SelectTwiceStep(ctx: Context, b: Bucket, c: Bucket, xs: seq<Stream>)
    requires NoDangling(ctx, xs) && xs != []
    ensures var x, rest := xs[|xs| - 1], xs[..|xs| - 1];
      && NoDangling(ctx, Select(ctx, c, xs)) && NoDangling(ctx, Select(ctx, c, rest))
      && Select(ctx, b, Select(ctx, c, xs)) == Select(ctx, b, Select(ctx, c, rest)) +
        if ShouldBeRemoved(ctx.removals, x.key) || Classify(ctx, x) != c || Classify(ctx, Refresh(ctx, x)) != b then []
        else [Refresh(ctx, Refresh(ctx, x))]
  {
    SelectIsLive(ctx, c, xs);
    SelectIsLive(ctx, c, xs[..|xs| - 1]);
    var x, first := xs[|xs| - 1], Select(ctx, c, xs[..|xs| - 1]);
    if !ShouldBeRemoved(ctx.removals, x.key) && Classify(ctx, x) == c {
      assert (first + [Refresh(ctx, x)])[..|first|] == first;
    }
  }

  // Waking and falling silent is not decided by the flags.
  lemma {:induction false} SilentStaysSilent(ctx: Context, b: Bucket, c: Bucket, xs: seq<Stream>)
    requires NoDangling(ctx, xs) && b != c && b != Skipped && c != Skipped
    ensures NoDangling(ctx, Select(ctx, c, xs)) && Select(ctx, b, Select(ctx, c, xs)) == []
  {
    SelectIsLive(ctx, c, xs);
    if xs != [] {
      SilentStaysSilent(ctx, b, c, xs[..|xs| - 1]);
      SelectTwiceStep(ctx, b, c, xs);
    }
  }

  // ---------- the main result ----------

  // What the first two passes leave.
  lemma FirstPasses(ctx: Context, st: Streams)
    requires NothingDangles(ctx, st)
    ensures NoDangling(ctx, Select(ctx, Inactive, st.skipped))
    ensures InactivePass(ctx, SkippedPass(ctx, st)) == Streams(
      st.active + Select(ctx, Active, st.skipped) + Select(ctx, Active, st.inactive),
      Select(ctx, Inactive, st.inactive) + Select(ctx, Inactive, Select(ctx, Inactive, st.skipped)),
      Select(ctx, Skipped, st.skipped) +
        (Select(ctx, Skipped, st.inactive) + Select(ctx, Skipped, Select(ctx, Inactive, st.skipped))))
  {
    var moved := Select(ctx, Inactive, st.skipped);
    SilentStaysSilent(ctx, Active, Inactive, st.skipped);
    SelectConcat(ctx, Active, st.inactive, moved);
    SelectConcat(ctx, Inactive, st.inactive, moved);
    SelectConcat(ctx, Skipped, st.inactive, moved);
    hide Select, NoDangling, Classify, ShouldBeRemoved;
  }

  // What the last pass makes of the active streams it finds.
  lemma LastPass(ctx: Context, st: Streams, b: Bucket)
    requires NothingDangles(ctx, st)
    ensures NoDangling(ctx, Select(ctx, Active, st.skipped)) && NoDangling(ctx, Select(ctx, Active, st.inactive))
    ensures NoDangling(ctx, ActiveBeforeLastPass(ctx, st))
    ensures Select(ctx, b, ActiveBeforeLastPass(ctx, st)) == Select(ctx, b, st.active) +
      Select(ctx, b, Select(ctx, Active, st.skipped)) + Select(ctx, b, Select(ctx, Active, st.inactive))
  {
    FirstPasses(ctx, st);
    var unskipped, woken := Select(ctx, Active, st.skipped), Select(ctx, Active, st.inactive);
    SelectIsLive(ctx, Active, st.skipped);
    SelectIsLive(ctx, Active, st.inactive);
    SelectConcat(ctx, b, st.active, unskipped);
    SelectConcat(ctx, b, st.active + unskipped, woken);
    hide Select, NoDangling, Classify, ShouldBeRemoved;
  }

  /** The contents and order of the three vectors after an unthrottled mix, whatever is staged. A
      nested selection is a stream that is evaluated twice. */
  lemma UnthrottledOrder(ctx: Context, st: Streams)
    requires NothingDangles(ctx, st)
    ensures NoDangling(ctx, ActiveBeforeLastPass(ctx, st)) && NoDangling(ctx, Select(ctx, Inactive, st.skipped))
    ensures NoDangling(ctx, Select(ctx, Active, st.skipped)) && NoDangling(ctx, Select(ctx, Active, st.inactive))
    ensures MultiPass(ctx, st, ActiveBeforeLastPass(ctx, st)) == Streams(
      Select(ctx, Active, st.active) + Select(ctx, Active, Select(ctx, Active, st.skipped)) +
        Select(ctx, Active, Select(ctx, Active, st.inactive)),
      Select(ctx, Inactive, st.inactive) + Select(ctx, Inactive, Select(ctx, Inactive, st.skipped)) +
        Select(ctx, Inactive, st.active),
      Select(ctx, Skipped, st.skipped) +
        (Select(ctx, Skipped, st.inactive) + Select(ctx, Skipped, Select(ctx, Inactive, st.skipped))) +
        (Select(ctx, Skipped, st.active) + Select(ctx, Skipped, Select(ctx, Active, st.skipped)) +
          Select(ctx, Skipped, Select(ctx, Active, st.inactive))))
  {
    FirstPasses(ctx, st);
    LastPass(ctx, st, Active);
    LastPass(ctx, st, Inactive);
    LastPass(ctx, st, Skipped);
    SilentStaysSilent(ctx, Inactive, Active, st.skipped);
    SilentStaysSilent(ctx, Inactive, Active, st.inactive);
    hide Select, NoDangling, Classify, ShouldBeRemoved;
  }

  function One(b: bool): nat { if b then 1 else 0 }

  lemma SettledStep(ctx: Context, b: Bucket, from: Bucket, xs: seq<Stream>, y: Stream)
    requires NoDangling(ctx, xs) && xs != []
    ensures var x := xs[|xs| - 1];
      multiset(Settled(ctx, b, from, xs))[y] == multiset(Settled(ctx, b, from, xs[..|xs| - 1]))[y] +
        One(!ShouldBeRemoved(ctx.removals, x.key) && FinalBucket(ctx, from, x) == b && Final(ctx, from, x) == y)
  {
  }

  lemma SelectLast(ctx: Context, b: Bucket, xs: seq<Stream>, y: Stream)
    requires NoDangling(ctx, xs) && xs != []
    ensures var x := xs[|xs| - 1];
      multiset(Select(ctx, b, xs))[y] == multiset(Select(ctx, b, xs[..|xs| - 1]))[y] +
        One(!ShouldBeRemoved(ctx.removals, x.key) && Classify(ctx, x) == b && Refresh(ctx, x) == y)
  {
  }

  lemma SelectTwiceLast(ctx: Context, b: Bucket, c: Bucket, xs: seq<Stream>, y: Stream)
    requires NoDangling(ctx, xs) && xs != []
    ensures NoDangling(ctx, Select(ctx, c, xs)) && NoDangling(ctx, Select(ctx, c, xs[..|xs| - 1]))
    ensures var x := xs[|xs| - 1];
      multiset(Select(ctx, b, Select(ctx, c, xs)))[y] == multiset(Select(ctx, b, Select(ctx, c, xs[..|xs| - 1])))[y] +
        One(!ShouldBeRemoved(ctx.removals, x.key) && Classify(ctx, x) == c && Classify(ctx, Refresh(ctx, x)) == b &&
            Refresh(ctx, Refresh(ctx, x)) == y)
  {
    SelectTwiceStep(ctx, b, c, xs);
    hide Select, Classify, Refresh, ShouldBeRemoved;
  }

  lemma {:induction false} SettledActive(ctx: Context, b: Bucket, xs: seq<Stream>)
    requires NoDangling(ctx, xs)
    ensures Settled(ctx, b, Active, xs) == Select(ctx, b, xs)
  {
    if xs != [] {
      SettledActive(ctx, b, xs[..|xs| - 1]);
    }
  }

  // Of the inactive streams those that fall active are evaluated again.
  lemma {:induction false} SettledInactive(ctx: Context, b: Bucket, xs: seq<Stream>, y: Stream)
    requires NoDangling(ctx, xs)
    ensures NoDangling(ctx, Select(ctx, Active, xs))
    ensures multiset(Settled(ctx, b, Inactive, xs))[y] ==
      (if b == Active then 0 else multiset(Select(ctx, b, xs))[y]) +
        multiset(Select(ctx, b, Select(ctx, Active, xs)))[y]
  {
    if xs != [] {
      SettledInactive(ctx, b, xs[..|xs| - 1], y);
      SettledStep(ctx, b, Inactive, xs, y);
      SelectLast(ctx, b, xs, y);
      SelectTwiceLast(ctx, b, Active, xs, y);
      hide Settled, Select, NoDangling, ShouldBeRemoved, Classify, Refresh;
    }
  }

  // Of the skipped streams all that leave are.
  lemma {:induction false} SettledSkipped(ctx: Context, b: Bucket, xs: seq<Stream>, y: Stream)
    requires NoDangling(ctx, xs)
    ensures NoDangling(ctx, Select(ctx, Active, xs)) && NoDangling(ctx, Select(ctx, Inactive, xs))
    ensures multiset(Settled(ctx, b, Skipped, xs))[y] == (if b == Skipped then multiset(Select(ctx, b, xs))[y] else 0) +
      multiset(Select(ctx, b, Select(ctx, Inactive, xs)))[y] + multiset(Select(ctx, b, Select(ctx, Active, xs)))[y]
  {
    if xs != [] {
      SettledSkipped(ctx, b, xs[..|xs| - 1], y);
      SettledStep(ctx, b, Skipped, xs, y);
      SelectLast(ctx, b, xs, y);
      SelectTwiceLast(ctx, b, Active, xs, y);
      SelectTwiceLast(ctx, b, Inactive, xs, y);
      hide Settled, Select, NoDangling, ShouldBeRemoved, Classify, Refresh;
    }
  }

  /** Whatever is staged, and in whatever order the last pass visits the active streams: every stream
      that stays ends exactly once, where its one or two evaluations put it. */
  lemma MultiPassSettles(ctx: Context, st: Streams, order: seq<Stream>, b: Bucket)
    requires NothingDangles(ctx, st) && NoDangling(ctx, order)
    requires multiset(Kept(ctx, order)) == multiset(Kept(ctx, ActiveBeforeLastPass(ctx, st)))
    ensures multiset(In(b, MultiPass(ctx, st, order))) == multiset(Settled(ctx, b, Active, st.active)) +
      multiset(Settled(ctx, b, Inactive, st.inactive)) + multiset(Settled(ctx, b, Skipped, st.skipped))
  {
    var active := ActiveBeforeLastPass(ctx, st);
    SelectKept(ctx, b, order);
    SelectKept(ctx, b, active);
    SelectPermuted(ctx, b, Kept(ctx, order), Kept(ctx, active));
    forall y ensures multiset(In(b, MultiPass(ctx, st, order)))[y] == multiset(Settled(ctx, b, Active, st.active))[y] +
      multiset(Settled(ctx, b, Inactive, st.inactive))[y] + multiset(Settled(ctx, b, Skipped, st.skipped))[y]
    {
      SettlesEach(ctx, st, order, b, y);
    }
  }

  lemma SettlesEach(ctx: Context, st: Streams, order: seq<Stream>, b: Bucket, y: Stream)
    requires NothingDangles(ctx, st) && NoDangling(ctx, order) && NoDangling(ctx, ActiveBeforeLastPass(ctx, st))
    requires multiset(Select(ctx, b, order)) == multiset(Select(ctx, b, ActiveBeforeLastPass(ctx, st)))
    ensures multiset(In(b, MultiPass(ctx, st, order)))[y] == multiset(Settled(ctx, b, Active, st.active))[y] +
      multiset(Settled(ctx, b, Inactive, st.inactive))[y] + multiset(Settled(ctx, b, Skipped, st.skipped))[y]
  {
    FirstPasses(ctx, st);
    LastPass(ctx, st, b);
    SettledActive(ctx, b, st.active);
    SettledInactive(ctx, b, st.inactive, y);
    SettledSkipped(ctx, b, st.skipped, y);
    SilentStaysSilent(ctx, Active, Inactive, st.skipped);
    hide Select, Settled, NoDangling, Classify, ShouldBeRemoved;
  }

  /** The passes do to the stream what the one-shot classifier would. */
  predicate Agrees(ctx: Context, from: Bucket, s: Stream)
    requires s.key in ctx.audio
  {
    IsOwn(ctx, s) || !StagedBothWays(ctx, s.key.nodeID) || !Reevaluated(ctx, from, s)
  }

  lemma AgreesIff(ctx: Context, from: Bucket, s: Stream)
    requires s.key in ctx.audio
    ensures Agrees(ctx, from, s) <==> Final(ctx, from, s) == Refresh(ctx, s)
    ensures Agrees(ctx, from, s) ==> FinalBucket(ctx, from, s) == Classify(ctx, s)
  {
    RefreshSettles(ctx, s);
  }

  predicate Stays(ctx: Context, xs: seq<Stream>, i: int) {
    0 <= i < |xs| && !ShouldBeRemoved(ctx.removals, xs[i].key)
  }

  ghost predicate AllAgree(ctx: Context, from: Bucket, xs: seq<Stream>)
    requires NoDangling(ctx, xs)
  {
    forall i :: Stays(ctx, xs, i) ==> Agrees(ctx, from, xs[i])
  }

  ghost predicate PassesAgree(ctx: Context, st: Streams)
    requires NothingDangles(ctx, st)
  {
    AllAgree(ctx, Active, st.active) && AllAgree(ctx, Inactive, st.inactive) && AllAgree(ctx, Skipped, st.skipped)
  }

  /** The index holds every key at most once, as the frame invariant says. */
  ghost predicate DistinctKeys(st: Streams) {
    forall b, c, i, j :: 0 <= i < |In(b, st)| && 0 <= j < |In(c, st)| && In(b, st)[i].key == In(c, st)[j].key ==>
      b == c && i == j
  }

  lemma {:induction false} SettledIs(ctx: Context, b: Bucket, from: Bucket, xs: seq<Stream>, y: Stream)
    requires NoDangling(ctx, xs)
    ensures y in Settled(ctx, b, from, xs) <==>
      exists i :: Stays(ctx, xs, i) && FinalBucket(ctx, from, xs[i]) == b && Final(ctx, from, xs[i]) == y
  {
    if xs != [] {
      var n := |xs| - 1;
      SettledIs(ctx, b, from, xs[..n], y);
      forall i | Stays(ctx, xs[..n], i) ensures Stays(ctx, xs, i) && xs[..n][i] == xs[i] {
      }
      forall i | Stays(ctx, xs, i) && i < n ensures Stays(ctx, xs[..n], i) {
      }
      hide Final, FinalBucket, ShouldBeRemoved;
    }
  }

  lemma {:induction false} SettledAgrees(ctx: Context, b: Bucket, from: Bucket, xs: seq<Stream>)
    requires NoDangling(ctx, xs) && AllAgree(ctx, from, xs)
    ensures Settled(ctx, b, from, xs) == Select(ctx, b, xs)
  {
    if xs != [] {
      var n := |xs| - 1;
      forall i | Stays(ctx, xs[..n], i) ensures Agrees(ctx, from, xs[..n][i]) {
        assert Stays(ctx, xs, i);
      }
      SettledAgrees(ctx, b, from, xs[..n]);
      if !ShouldBeRemoved(ctx.removals, xs[n].key) {
        assert Stays(ctx, xs, n);
        AgreesIff(ctx, from, xs[n]);
      }
    }
  }

  lemma SelectAll(ctx: Context, st: Streams, b: Bucket)
    requires NothingDangles(ctx, st)
    ensures NoDangling(ctx, st.All())
    ensures Select(ctx, b, st.All()) == Select(ctx, b, st.active) + Select(ctx, b, st.inactive) +
      Select(ctx, b, st.skipped)
  {
    SelectConcat(ctx, b, st.active, st.inactive);
    SelectConcat(ctx, b, st.active + st.inactive, st.skipped);
  }

  /** If no stream is evaluated twice with different answers, the multi-pass update puts every
      surviving stream where the one-shot classifier would, with its flags updated once, whatever
      bucket it started in and in whatever order the last pass visits the active streams. */
  lemma MultiPassIsOneShot(ctx: Context, st: Streams, order: seq<Stream>, b: Bucket)
    requires NothingDangles(ctx, st) && NoDangling(ctx, order)
    requires multiset(Kept(ctx, order)) == multiset(Kept(ctx, ActiveBeforeLastPass(ctx, st)))
    requires PassesAgree(ctx, st)
    ensures NoDangling(ctx, st.All())
    ensures multiset(In(b, MultiPass(ctx, st, order))) == multiset(Select(ctx, b, st.All()))
  {
    MultiPassSettles(ctx, st, order, b);
    SettledAgrees(ctx, b, Active, st.active);
    SettledAgrees(ctx, b, Inactive, st.inactive);
    SettledAgrees(ctx, b, Skipped, st.skipped);
    SelectAll(ctx, st, b);
    hide Select, Settled, NoDangling, Classify, ShouldBeRemoved, Kept, MultiPass;
  }

  ghost predicate IsOneShot(ctx: Context, st: Streams, after: Streams)
    requires NothingDangles(ctx, st) && NoDangling(ctx, st.All())
  {
    forall b :: multiset(In(b, after)) == multiset(Select(ctx, b, st.All()))
  }

  /** The multi-pass update is the one-shot classification exactly if every surviving stream is the
      listener's own, or of a node that is not staged both ways, or not moved to a bucket that a
      later pass visits. */
  lemma MultiPassIsOneShotIff(ctx: Context, st: Streams, order: seq<Stream>)
    requires NothingDangles(ctx, st) && NoDangling(ctx, order) && DistinctKeys(st)
    requires multiset(Kept(ctx, order)) == multiset(Kept(ctx, ActiveBeforeLastPass(ctx, st)))
    ensures NoDangling(ctx, st.All())
    ensures IsOneShot(ctx, st, MultiPass(ctx, st, order)) <==> PassesAgree(ctx, st)
  {
    SelectAll(ctx, st, Active);
    if PassesAgree(ctx, st) {
      forall b ensures multiset(In(b, MultiPass(ctx, st, order))) == multiset(Select(ctx, b, st.All())) {
        MultiPassIsOneShot(ctx, st, order, b);
      }
    }
    if IsOneShot(ctx, st, MultiPass(ctx, st, order)) {
      OneShotAgrees(ctx, st, order, Active);
      OneShotAgrees(ctx, st, order, Inactive);
      OneShotAgrees(ctx, st, order, Skipped);
    }
    hide Select, MultiPass, NoDangling, AllAgree, Kept, DistinctKeys;
  }

  lemma InIsLive(ctx: Context, st: Streams, b: Bucket)
    requires NothingDangles(ctx, st)
    ensures NoDangling(ctx, In(b, st))
  {
  }

  lemma OneShotAgrees(ctx: Context, st: Streams, order: seq<Stream>, from: Bucket)
    requires NothingDangles(ctx, st) && NoDangling(ctx, order) && NoDangling(ctx, st.All()) && DistinctKeys(st)
    requires multiset(Kept(ctx, order)) == multiset(Kept(ctx, ActiveBeforeLastPass(ctx, st)))
    requires IsOneShot(ctx, st, MultiPass(ctx, st, order))
    ensures NoDangling(ctx, In(from, st)) && AllAgree(ctx, from, In(from, st))
  {
    InIsLive(ctx, st, from);
    forall i | Stays(ctx, In(from, st), i) ensures Agrees(ctx, from, In(from, st)[i]) {
      OneShotAgreesAt(ctx, st, order, from, i);
    }
  }

  // What is where the classifier puts a stream can only come from that stream.
  lemma OneShotAgreesAt(ctx: Context, st: Streams, order: seq<Stream>, from: Bucket, i: nat)
    requires NothingDangles(ctx, st) && NoDangling(ctx, order) && NoDangling(ctx, st.All()) && DistinctKeys(st)
    requires multiset(Kept(ctx, order)) == multiset(Kept(ctx, ActiveBeforeLastPass(ctx, st)))
    requires IsOneShot(ctx, st, MultiPass(ctx, st, order)) && Stays(ctx, In(from, st), i)
    ensures In(from, st)[i].key in ctx.audio && Agrees(ctx, from, In(from, st)[i])
  {
    InIsLive(ctx, st, from);
    var x := In(from, st)[i];
    ClassifiedIsMixed(ctx, st, order, from, i);
    var c, j := SettledFrom(ctx, st, order, Classify(ctx, x), Refresh(ctx, x));
    FinalKeepsKey(ctx, c, In(c, st)[j]);
    assert c == from && j == i;
    AgreesIff(ctx, from, x);
  }

  lemma FinalKeepsKey(ctx: Context, from: Bucket, s: Stream)
    requires s.key in ctx.audio
    ensures Final(ctx, from, s).key == s.key == Refresh(ctx, s).key
  {
  }

  lemma ClassifiedIsMixed(ctx: Context, st: Streams, order: seq<Stream>, from: Bucket, i: nat)
    requires NothingDangles(ctx, st) && NoDangling(ctx, order) && NoDangling(ctx, st.All())
    requires IsOneShot(ctx, st, MultiPass(ctx, st, order)) && Stays(ctx, In(from, st), i)
    ensures In(from, st)[i].key in ctx.audio
    ensures Refresh(ctx, In(from, st)[i]) in In(Classify(ctx, In(from, st)[i]), MultiPass(ctx, st, order))
  {
    InIsLive(ctx, st, from);
    var x := In(from, st)[i];
    var b, y := Classify(ctx, x), Refresh(ctx, x);
    SelectHas(ctx, In(from, st), i);
    SelectAll(ctx, st, b);
    hide Select, Classify, Refresh, NoDangling, MultiPass;
    assert y in multiset(Select(ctx, b, st.All()));
    assert y in multiset(In(b, MultiPass(ctx, st, order)));
  }

  lemma InOneOfThree<T>(xs: seq<T>, a: seq<T>, b: seq<T>, c: seq<T>, y: T)
    requires multiset(xs) == multiset(a) + multiset(b) + multiset(c)
    ensures y in xs <==> y in a || y in b || y in c
  {
    assert y in xs <==> y in multiset(xs);
  }

  // Where a stream of the index after a mix comes from.
  lemma SettledFromBucket(ctx: Context, st: Streams, order: seq<Stream>, b: Bucket, y: Stream) returns (from: Bucket)
    requires NothingDangles(ctx, st) && NoDangling(ctx, order)
    requires multiset(Kept(ctx, order)) == multiset(Kept(ctx, ActiveBeforeLastPass(ctx, st)))
    requires y in In(b, MultiPass(ctx, st, order))
    ensures NoDangling(ctx, In(from, st)) && y in Settled(ctx, b, from, In(from, st))
  {
    MultiPassSettles(ctx, st, order, b);
    InOneOfThree(In(b, MultiPass(ctx, st, order)), Settled(ctx, b, Active, st.active),
      Settled(ctx, b, Inactive, st.inactive), Settled(ctx, b, Skipped, st.skipped), y);
    hide Settled, MultiPass, Kept, NoDangling, ActiveBeforeLastPass;
    from := if y in Settled(ctx, b, Active, st.active) then Active
      else if y in Settled(ctx, b, Inactive, st.inactive) then Inactive else Skipped;
  }

  lemma SettledFrom(ctx: Context, st: Streams, order: seq<Stream>, b: Bucket, y: Stream) returns (from: Bucket, i: nat)
    requires NothingDangles(ctx, st) && NoDangling(ctx, order)
    requires multiset(Kept(ctx, order)) == multiset(Kept(ctx, ActiveBeforeLastPass(ctx, st)))
    requires y in In(b, MultiPass(ctx, st, order))
    ensures Stays(ctx, In(from, st), i) && In(from, st)[i].key in ctx.audio
    ensures FinalBucket(ctx, from, In(from, st)[i]) == b && Final(ctx, from, In(from, st)[i]) == y
  {
    from := SettledFromBucket(ctx, st, order, b, y);
    hide Settled, MultiPass, Kept, ShouldBeRemoved, Final, FinalBucket, In, ActiveBeforeLastPass, NothingDangles;
    SettledIs(ctx, b, from, In(from, st), y);
    i :| Stays(ctx, In(from, st), i) && FinalBucket(ctx, from, In(from, st)[i]) == b &&
      Final(ctx, from, In(from, st)[i]) == y;
  }

  // Every stream that stays is in the index after the mix.
  lemma SettledIn(ctx: Context, st: Streams, order: seq<Stream>, from: Bucket, i: nat)
    requires NothingDangles(ctx, st) && NoDangling(ctx, order)
    requires multiset(Kept(ctx, order)) == multiset(Kept(ctx, ActiveBeforeLastPass(ctx, st)))
    requires Stays(ctx, In(from, st), i)
    ensures In(from, st)[i].key in ctx.audio
    ensures Final(ctx, from, In(from, st)[i]) in In(FinalBucket(ctx, from, In(from, st)[i]), MultiPass(ctx, st, order))
  {
    InIsLive(ctx, st, from);
    var x := In(from, st)[i];
    var b, y := FinalBucket(ctx, from, x), Final(ctx, from, x);
    MultiPassSettles(ctx, st, order, b);
    SettledIs(ctx, b, from, In(from, st), y);
    InOneOfThree(In(b, MultiPass(ctx, st, order)), Settled(ctx, b, Active, st.active),
      Settled(ctx, b, Inactive, st.inactive), Settled(ctx, b, Skipped, st.skipped), y);
    hide Settled, Final, FinalBucket, MultiPass, Kept, ShouldBeRemoved, NoDangling, ActiveBeforeLastPass;
  }

  lemma {:induction false} SelectHas(ctx: Context, xs: seq<Stream>, i: nat)
    requires NoDangling(ctx, xs) && Stays(ctx, xs, i)
    ensures Refresh(ctx, xs[i]) in Select(ctx, Classify(ctx, xs[i]), xs)
  {
    if i < |xs| - 1 {
      SelectHas(ctx, xs[..|xs| - 1], i);
    }
  }

  /** Staged both ways, a stream whose node was ignored and unignored between two frames leaves the
      skipped bucket and is put back by the next pass, with its flag as it was. */
  lemma OverlappingStagesMisplace(ctx: Context, s: Stream)
    requires s.key == StreamKey(7, 7, 0) && s.ignoredByListener && !s.ignoringListener
    requires ctx == Context(1, 1, [7], [7], [], [], false, [], false, Removals([], []),
                            map[s.key := StreamAudio(true, 1.0, 1.0, false, false, false, 1.0)])
    ensures var st := Streams([], [], [s]);
      && NothingDangles(ctx, st) && NoDangling(ctx, st.All()) && StagedBothWays(ctx, 7)
      && Select(ctx, Skipped, st.All()) == []
      && MultiPass(ctx, st, ActiveBeforeLastPass(ctx, st)).skipped == [s]
  {
    var t := s.(ignoredByListener := false);
    var st := Streams([], [], [s]);
    assert st.All() == [s];
    assert !ShouldBeRemoved(ctx.removals, s.key);
    assert Refresh(ctx, s) == t && Refresh(ctx, t) == s;
    assert Classify(ctx, s) == Active && Classify(ctx, t) == Skipped;
    SelectOne(ctx, Active, s);
    SelectOne(ctx, Inactive, s);
    SelectOne(ctx, Skipped, s);
    SelectOne(ctx, Skipped, t);
    assert SkippedPass(ctx, st) == Streams([t], [], []);
    assert ActiveBeforeLastPass(ctx, st) == [t];
  }

  lemma SelectOne(ctx: Context, b: Bucket, s: Stream)
    requires s.key in ctx.audio
    ensures Select(ctx, b, [s]) ==
      if ShouldBeRemoved(ctx.removals, s.key) || Classify(ctx, s) != b then [] else [Refresh(ctx, s)]
  {
  }

  // ---------- the ignore flags ----------

  /** How the staged lists relate the set of ignored nodes at the last mix to the current one: a
      node staged one way only is now in (or out), an unstaged one is as it was. */
  ghost predicate StagedFrom(before: set<Uuid>, on: seq<Uuid>, off: seq<Uuid>, now: seq<Uuid>, self: Uuid) {
    forall n :: n != 0 && n != self ==>
      (n in on && n !in off ==> n in now) &&
      (n in off && n !in on ==> n !in now) &&
      (n !in on && n !in off ==> (n in now <==> n in before))
  }

  // A flag after the one or two evaluations of its stream.
  predicate FinalFlag(flag: bool, n: Uuid, on: seq<Uuid>, off: seq<Uuid>, twice: bool) {
    if twice then RefreshFlag(RefreshFlag(flag, n, on, off), n, on, off) else RefreshFlag(flag, n, on, off)
  }

  // A node staged both ways toggles the flag at every evaluation.
  predicate FlagSettles(flag: bool, n: Uuid, on: seq<Uuid>, off: seq<Uuid>, now: seq<Uuid>, twice: bool) {
    if n in on && n in off then (flag == (n in now)) == twice else true
  }

  /** A flag that was right at the last mix, or that a new stream got from the current set, is right
      after the mix exactly if its node is not staged both ways, or it was right already and is
      evaluated twice, or it was wrong and is evaluated once. */
  lemma FlagIsCurrentIff(flag: bool, n: Uuid, before: set<Uuid>, on: seq<Uuid>, off: seq<Uuid>, now: seq<Uuid>,
      self: Uuid, twice: bool)
    requires StagedFrom(before, on, off, now, self) && n != 0 && n != self
    requires flag == (n in before) || flag == (n in now)
    ensures FinalFlag(flag, n, on, off, twice) == (n in now) <==> FlagSettles(flag, n, on, off, now, twice)
  {
  }

  // A stream of another node than the listener.
  predicate IsForeign(ctx: Context, s: Stream) {
    s.key.nodeID != 0 && s.key.nodeID != ctx.nodeID && !IsOwn(ctx, s)
  }

  // The flags of a stream of another node say what the sets of ignored and ignoring nodes say.
  predicate FlagsAre(ctx: Context, s: Stream, ignored: seq<Uuid>, ignoring: seq<Uuid>) {
    IsForeign(ctx, s) ==>
      s.ignoredByListener == (s.key.nodeID in ignored) && s.ignoringListener == (s.key.nodeID in ignoring)
  }

  /** One stream's flags before a mix: as of the last mix, or fresh from the current sets. */
  ghost predicate FlagsFrom(ctx: Context, s: Stream, ignored0: set<Uuid>, ignored: seq<Uuid>,
      ignoring0: set<Uuid>, ignoring: seq<Uuid>) {
    IsForeign(ctx, s) ==>
      (s.ignoredByListener == (s.key.nodeID in ignored0) || s.ignoredByListener == (s.key.nodeID in ignored)) &&
      (s.ignoringListener == (s.key.nodeID in ignoring0) || s.ignoringListener == (s.key.nodeID in ignoring))
  }

  /** What the staged lists and the bucket of a stream say about its flags after the mix. */
  predicate FlagsSettle(ctx: Context, from: Bucket, s: Stream, ignored: seq<Uuid>, ignoring: seq<Uuid>)
    requires s.key in ctx.audio
  {
    var n, twice := s.key.nodeID, Reevaluated(ctx, from, s);
    IsForeign(ctx, s) ==>
      FlagSettles(s.ignoredByListener, n, ctx.newIgnored, ctx.newUnignored, ignored, twice) &&
      FlagSettles(s.ignoringListener, n, ctx.newIgnoring, ctx.newUnignoring, ignoring, twice)
  }

  lemma FinalFlagsIff(ctx: Context, from: Bucket, s: Stream, ignored0: set<Uuid>, ignored: seq<Uuid>,
      ignoring0: set<Uuid>, ignoring: seq<Uuid>)
    requires s.key in ctx.audio && FlagsFrom(ctx, s, ignored0, ignored, ignoring0, ignoring)
    requires StagedFrom(ignored0, ctx.newIgnored, ctx.newUnignored, ignored, ctx.nodeID)
    requires StagedFrom(ignoring0, ctx.newIgnoring, ctx.newUnignoring, ignoring, ctx.nodeID)
    ensures FlagsAre(ctx, Final(ctx, from, s), ignored, ignoring) <==> FlagsSettle(ctx, from, s, ignored, ignoring)
  {
    if IsForeign(ctx, s) {
      var n, twice := s.key.nodeID, Reevaluated(ctx, from, s);
      FlagIsCurrentIff(s.ignoredByListener, n, ignored0, ctx.newIgnored, ctx.newUnignored, ignored, ctx.nodeID, twice);
      FlagIsCurrentIff(s.ignoringListener, n, ignoring0, ctx.newIgnoring, ctx.newUnignoring, ignoring, ctx.nodeID,
        twice);
    }
  }

  ghost predicate AllSettle(ctx: Context, from: Bucket, xs: seq<Stream>, ignored: seq<Uuid>, ignoring: seq<Uuid>)
    requires NoDangling(ctx, xs)
  {
    forall i :: Stays(ctx, xs, i) ==> FlagsSettle(ctx, from, xs[i], ignored, ignoring)
  }

  ghost predicate PassesSettle(ctx: Context, st: Streams, ignored: seq<Uuid>, ignoring: seq<Uuid>)
    requires NothingDangles(ctx, st)
  {
    && AllSettle(ctx, Active, st.active, ignored, ignoring)
    && AllSettle(ctx, Inactive, st.inactive, ignored, ignoring)
    && AllSettle(ctx, Skipped, st.skipped, ignored, ignoring)
  }

  ghost predicate AllFlagsAre(ctx: Context, st: Streams, ignored: seq<Uuid>, ignoring: seq<Uuid>) {
    forall b, i :: 0 <= i < |In(b, st)| ==> FlagsAre(ctx, In(b, st)[i], ignored, ignoring)
  }

  ghost predicate AllFlagsFrom(ctx: Context, st: Streams, ignored0: set<Uuid>, ignored: seq<Uuid>,
      ignoring0: set<Uuid>, ignoring: seq<Uuid>) {
    forall b, i :: 0 <= i < |In(b, st)| ==> FlagsFrom(ctx, In(b, st)[i], ignored0, ignored, ignoring0, ignoring)
  }

  /** After a mix the flags of all streams of other nodes equal membership in the current sets of
      ignored and ignoring nodes exactly if every stream of a node staged both ways had the wrong
      flag and is evaluated once, or had the right one and is evaluated twice. */
  lemma MixSettlesFlagsIff(ctx: Context, st: Streams, order: seq<Stream>,
      ignored0: set<Uuid>, ignored: seq<Uuid>, ignoring0: set<Uuid>, ignoring: seq<Uuid>)
    requires NothingDangles(ctx, st) && NoDangling(ctx, order)
    requires multiset(Kept(ctx, order)) == multiset(Kept(ctx, ActiveBeforeLastPass(ctx, st)))
    requires StagedFrom(ignored0, ctx.newIgnored, ctx.newUnignored, ignored, ctx.nodeID)
    requires StagedFrom(ignoring0, ctx.newIgnoring, ctx.newUnignoring, ignoring, ctx.nodeID)
    requires AllFlagsFrom(ctx, st, ignored0, ignored, ignoring0, ignoring)
    ensures AllFlagsAre(ctx, MultiPass(ctx, st, order), ignored, ignoring) <==> PassesSettle(ctx, st, ignored, ignoring)
  {
    if PassesSettle(ctx, st, ignored, ignoring) {
      forall b, k | 0 <= k < |In(b, MultiPass(ctx, st, order))|
        ensures FlagsAre(ctx, In(b, MultiPass(ctx, st, order))[k], ignored, ignoring)
      {
        SettledFlagsAre(ctx, st, order, b, In(b, MultiPass(ctx, st, order))[k], ignored0, ignored, ignoring0, ignoring);
      }
    }
    if AllFlagsAre(ctx, MultiPass(ctx, st, order), ignored, ignoring) {
      RightFlagsAllSettle(ctx, st, order, ignored0, ignored, ignoring0, ignoring);
    }
    hide MultiPass, Kept, NoDangling, StagedFrom, AllFlagsFrom, PassesSettle, FlagsAre, In;
  }

  lemma RightFlagsAllSettle(ctx: Context, st: Streams, order: seq<Stream>,
      ignored0: set<Uuid>, ignored: seq<Uuid>, ignoring0: set<Uuid>, ignoring: seq<Uuid>)
    requires NothingDangles(ctx, st) && NoDangling(ctx, order)
    requires multiset(Kept(ctx, order)) == multiset(Kept(ctx, ActiveBeforeLastPass(ctx, st)))
    requires StagedFrom(ignored0, ctx.newIgnored, ctx.newUnignored, ignored, ctx.nodeID)
    requires StagedFrom(ignoring0, ctx.newIgnoring, ctx.newUnignoring, ignoring, ctx.nodeID)
    requires AllFlagsFrom(ctx, st, ignored0, ignored, ignoring0, ignoring)
    requires AllFlagsAre(ctx, MultiPass(ctx, st, order), ignored, ignoring)
    ensures PassesSettle(ctx, st, ignored, ignoring)
  {
    RightFlagsSettle(ctx, st, order, Active, ignored0, ignored, ignoring0, ignoring);
    RightFlagsSettle(ctx, st, order, Inactive, ignored0, ignored, ignoring0, ignoring);
    RightFlagsSettle(ctx, st, order, Skipped, ignored0, ignored, ignoring0, ignoring);
    hide MultiPass, Kept, NoDangling, StagedFrom, AllFlagsFrom, AllFlagsAre, AllSettle;
  }

  lemma SettledFlagsAre(ctx: Context, st: Streams, order: seq<Stream>, b: Bucket, s: Stream,
      ignored0: set<Uuid>, ignored: seq<Uuid>, ignoring0: set<Uuid>, ignoring: seq<Uuid>)
    requires NothingDangles(ctx, st) && NoDangling(ctx, order) && PassesSettle(ctx, st, ignored, ignoring)
    requires multiset(Kept(ctx, order)) == multiset(Kept(ctx, ActiveBeforeLastPass(ctx, st)))
    requires StagedFrom(ignored0, ctx.newIgnored, ctx.newUnignored, ignored, ctx.nodeID)
    requires StagedFrom(ignoring0, ctx.newIgnoring, ctx.newUnignoring, ignoring, ctx.nodeID)
    requires AllFlagsFrom(ctx, st, ignored0, ignored, ignoring0, ignoring)
    requires s in In(b, MultiPass(ctx, st, order))
    ensures FlagsAre(ctx, s, ignored, ignoring)
  {
    var from, i := SettledFrom(ctx, st, order, b, s);
    hide MultiPass, Kept, StagedFrom, Final, FinalBucket, FlagsAre, FlagsSettle, FlagsFrom;
    FinalFlagsIff(ctx, from, In(from, st)[i], ignored0, ignored, ignoring0, ignoring);
  }

  lemma RightFlagsSettle(ctx: Context, st: Streams, order: seq<Stream>, from: Bucket,
      ignored0: set<Uuid>, ignored: seq<Uuid>, ignoring0: set<Uuid>, ignoring: seq<Uuid>)
    requires NothingDangles(ctx, st) && NoDangling(ctx, order)
    requires multiset(Kept(ctx, order)) == multiset(Kept(ctx, ActiveBeforeLastPass(ctx, st)))
    requires StagedFrom(ignored0, ctx.newIgnored, ctx.newUnignored, ignored, ctx.nodeID)
    requires StagedFrom(ignoring0, ctx.newIgnoring, ctx.newUnignoring, ignoring, ctx.nodeID)
    requires AllFlagsFrom(ctx, st, ignored0, ignored, ignoring0, ignoring)
    requires AllFlagsAre(ctx, MultiPass(ctx, st, order), ignored, ignoring)
    ensures NoDangling(ctx, In(from, st)) && AllSettle(ctx, from, In(from, st), ignored, ignoring)
  {
    InIsLive(ctx, st, from);
    forall i | Stays(ctx, In(from, st), i) ensures FlagsSettle(ctx, from, In(from, st)[i], ignored, ignoring) {
      var x := In(from, st)[i];
      SettledIn(ctx, st, order, from, i);
      FinalFlagsIff(ctx, from, x, ignored0, ignored, ignoring0, ignoring);
      hide MultiPass, Kept, NoDangling, StagedFrom, Final, FlagsAre, FlagsSettle, FlagsFrom;
    }
  }

  /** The passes and the classifier can also agree and both be wrong: an active stream whose node
      was ignored and unignored between two mixes is skipped, and stays flagged and skipped in every
      later mix that stages nothing for its node. */
  lemma IgnoredThenUnignoredStaysSilent(ctx: Context, s: Stream, later: Context)
    requires s == Stream(StreamKey(7, 7, 0), false, false)
    requires ctx == Context(1, 1, [7], [7], [], [], false, [], false, Removals([], []),
                            map[s.key := StreamAudio(true, 1.0, 1.0, false, false, false, 1.0)])
    requires later.localID != 7 && s.key in later.audio && 7 !in later.newUnignored
    ensures var st, t := Streams([s], [], []), s.(ignoredByListener := true);
      && NothingDangles(ctx, st) && NoDangling(ctx, st.All()) && ActiveBeforeLastPass(ctx, st) == [s]
      && StagedFrom({}, ctx.newIgnored, ctx.newUnignored, [], 1)
      && Select(ctx, Skipped, st.All()) == [t] && MultiPass(ctx, st, [s]) == Streams([], [], [t])
      && !FlagsAre(ctx, t, [], [])
      && Classify(later, t) == Skipped && Refresh(later, t).ignoredByListener
  {
    var st := Streams([s], [], []);
    assert st.All() == [s];
    assert !ShouldBeRemoved(ctx.removals, s.key);
    assert Refresh(ctx, s) == s.(ignoredByListener := true);
    SelectOne(ctx, Active, s);
    SelectOne(ctx, Inactive, s);
    SelectOne(ctx, Skipped, s);
  }

  // ---------- the keys of the index ----------

  function Keys(xs: seq<Stream>): seq<StreamKey> {
    seq(|xs|, i requires 0 <= i < |xs| => xs[i].key)
  }

  // How often a key occurs after removal.
  function Remaining(r: Removals, count: nat, key: StreamKey): nat {
    if ShouldBeRemoved(r, key) then 0 else count
  }

  function Occurs(xs: seq<Stream>, key: StreamKey): nat { multiset(Keys(xs))[key] }

  lemma SelectCountStep(ctx: Context, b: Bucket, xs: seq<Stream>, key: StreamKey)
    requires NoDangling(ctx, xs) && xs != []
    ensures var x := xs[|xs| - 1];
      Occurs(Select(ctx, b, xs), key) == Occurs(Select(ctx, b, xs[..|xs| - 1]), key) +
        if x.key == key && !ShouldBeRemoved(ctx.removals, key) && Classify(ctx, x) == b then 1 else 0
  {
    KeysConcat(Select(ctx, b, xs[..|xs| - 1]), [Refresh(ctx, xs[|xs| - 1])]);
  }

  lemma OccursStep(xs: seq<Stream>, key: StreamKey)
    requires xs != []
    ensures Occurs(xs, key) == Occurs(xs[..|xs| - 1], key) + if xs[|xs| - 1].key == key then 1 else 0
  {
    var n := |xs| - 1;
    assert xs == xs[..n] + [xs[n]];
    KeysConcat(xs[..n], [xs[n]]);
  }

  lemma {:induction false} SelectCounts(ctx: Context, xs: seq<Stream>, key: StreamKey)
    requires NoDangling(ctx, xs)
    ensures Occurs(Select(ctx, Active, xs), key) + Occurs(Select(ctx, Inactive, xs), key) +
      Occurs(Select(ctx, Skipped, xs), key)
         == Remaining(ctx.removals, Occurs(xs, key), key)
  {
    if xs != [] {
      SelectCounts(ctx, xs[..|xs| - 1], key);
      SelectCountStep(ctx, Active, xs, key);
      SelectCountStep(ctx, Inactive, xs, key);
      SelectCountStep(ctx, Skipped, xs, key);
      OccursStep(xs, key);
    }
  }

  lemma KeysConcat(xs: seq<Stream>, ys: seq<Stream>)
    ensures Keys(xs + ys) == Keys(xs) + Keys(ys)
    ensures multiset(Keys(xs + ys)) == multiset(Keys(xs)) + multiset(Keys(ys))
  {
  }

  lemma {:induction false} KeptCounts(ctx: Context, xs: seq<Stream>, key: StreamKey)
    ensures Occurs(Kept(ctx, xs), key) == Remaining(ctx.removals, Occurs(xs, key), key)
  {
    if xs != [] {
      var n := |xs| - 1;
      KeptCounts(ctx, xs[..n], key);
      assert xs == xs[..n] + [xs[n]];
      KeysConcat(xs[..n], [xs[n]]);
      KeysConcat(Kept(ctx, xs[..n]), [xs[n]]);
    }
  }
}
