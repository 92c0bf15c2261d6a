/** Who is heard: what a mix decides about every stream, in terms of the listener, the stream and the
    ignore sets alone (AudioMixerWorker.cpp). */
module MixDecisions {
  import opened MixStreams
  import opened AudioMixer

  /** The key is in bucket b, and in no other. */
  ghost predicate OnlyIn(st: Streams, key: StreamKey, b: Bucket) {
    && (exists y :: y in In(b, st) && y.key == key)
    && (forall c, y :: y in In(c, st) && y.key == key ==> c == b)
  }

  /** No staged removal names the stream, its node by local ID, or a stream of the same ID of a node
      with one of its two IDs. */
  predicate IsNotRemoved(ctx: Context, key: StreamKey) {
    && key.localID !in ctx.removals.nodes
    && forall k :: k in ctx.removals.streams ==>
      !(k.streamID == key.streamID && (k.localID == key.localID || k.nodeID == key.nodeID))
  }

  lemma NotRemovedStays(ctx: Context, xs: seq<Stream>, i: nat)
    requires NoDangling(ctx, xs) && i < |xs|
    ensures Stays(ctx, xs, i) <==> IsNotRemoved(ctx, xs[i].key)
    ensures Stays(ctx, xs, i) ==> xs[i].key in ctx.audio
  {
  }

  // ---------- where a stream ends ----------

  lemma EndsOnlyIn(ctx: Context, st: Streams, order: seq<Stream>, from: Bucket, i: nat)
    requires NothingDangles(ctx, st) && NoDangling(ctx, order) && DistinctKeys(st)
    requires multiset(Kept(ctx, order)) == multiset(Kept(ctx, ActiveBeforeLastPass(ctx, st)))
    requires Stays(ctx, In(from, st), i)
    ensures In(from, st)[i].key in ctx.audio
    ensures OnlyIn(MultiPass(ctx, st, order), In(from, st)[i].key, FinalBucket(ctx, from, In(from, st)[i]))
  {
    var x, r := In(from, st)[i], MultiPass(ctx, st, order);
    SettledIn(ctx, st, order, from, i);
    FinalKeepsKey(ctx, from, x);
    forall c, y | y in In(c, r) && y.key == x.key ensures c == FinalBucket(ctx, from, x) {
      var g, j := SettledFrom(ctx, st, order, c, y);
      FinalKeepsKey(ctx, g, In(g, st)[j]);
      assert g == from && j == i;
    }
  }

  lemma EndsClassified(ctx: Context, st: Streams, order: seq<Stream>, from: Bucket, i: nat)
    requires NothingDangles(ctx, st) && NoDangling(ctx, order) && DistinctKeys(st)
    requires multiset(Kept(ctx, order)) == multiset(Kept(ctx, ActiveBeforeLastPass(ctx, st)))
    requires Stays(ctx, In(from, st), i)
    requires IsOwn(ctx, In(from, st)[i]) || !StagedBothWays(ctx, In(from, st)[i].key.nodeID)
    ensures In(from, st)[i].key in ctx.audio
    ensures OnlyIn(MultiPass(ctx, st, order), In(from, st)[i].key, Classify(ctx, In(from, st)[i]))
  {
    EndsOnlyIn(ctx, st, order, from, i);
    AgreesIff(ctx, from, In(from, st)[i]);
  }

  // ---------- what is rendered ----------

  lemma {:induction false} SelectIs(ctx: Context, b: Bucket, xs: seq<Stream>, y: Stream)
    requires NoDangling(ctx, xs)
    ensures y in Select(ctx, b, xs) ==>
      exists i :: Stays(ctx, xs, i) && Classify(ctx, xs[i]) == b && Refresh(ctx, xs[i]) == y
  {
    if xs != [] && y in Select(ctx, b, xs) {
      var n := |xs| - 1;
      if y in Select(ctx, b, xs[..n]) {
        SelectIs(ctx, b, xs[..n], y);
        var i :| Stays(ctx, xs[..n], i) && Classify(ctx, xs[..n][i]) == b && Refresh(ctx, xs[..n][i]) == y;
        assert Stays(ctx, xs, i);
      } else {
        assert Stays(ctx, xs, n);
      }
    }
  }

  // Where a stream that the last pass finds was before.
  lemma FoundFrom(ctx: Context, st: Streams, y: Stream) returns (b: Bucket, j: nat)
    requires NothingDangles(ctx, st) && y in ActiveBeforeLastPass(ctx, st)
    ensures j < |In(b, st)| && In(b, st)[j].key == y.key && (y == In(b, st)[j] || y == Refresh(ctx, In(b, st)[j]))
  {
    FirstPasses(ctx, st);
    if y in st.active {
      b := Active;
      j :| 0 <= j < |st.active| && st.active[j] == y;
    } else {
      b := if y in Select(ctx, Active, st.skipped) then Skipped else Inactive;
      InIsLive(ctx, st, b);
      SelectIs(ctx, Active, In(b, st), y);
      j :| Stays(ctx, In(b, st), j) && Refresh(ctx, In(b, st)[j]) == y;
    }
  }

  // Any stream with this key that the last pass finds is this stream, and is judged like it.
  lemma FoundIsSame(ctx: Context, st: Streams, from: Bucket, i: nat, y: Stream)
    requires NothingDangles(ctx, st) && DistinctKeys(st) && Stays(ctx, In(from, st), i)
    requires IsOwn(ctx, In(from, st)[i]) || !StagedBothWays(ctx, In(from, st)[i].key.nodeID)
    requires y in ActiveBeforeLastPass(ctx, st) && y.key == In(from, st)[i].key
    ensures y.key in ctx.audio && ShouldBeSkipped(ctx, y) == ShouldBeSkipped(ctx, In(from, st)[i])
  {
    InIsLive(ctx, st, from);
    RefreshSettles(ctx, In(from, st)[i]);
    hide NothingDangles, ActiveBeforeLastPass, Refresh, ShouldBeRemoved, StagedBothWays;
    var b, j := FoundFrom(ctx, st, y);
    assert b == from && j == i;
  }

  // A stream that should be active is among those the last pass finds.
  lemma ActiveIsFound(ctx: Context, st: Streams, from: Bucket, i: nat)
    requires NothingDangles(ctx, st) && Stays(ctx, In(from, st), i)
    requires In(from, st)[i].key in ctx.audio && Classify(ctx, In(from, st)[i]) == Active
    ensures exists y :: y in ActiveBeforeLastPass(ctx, st) && y.key == In(from, st)[i].key
  {
    var x := In(from, st)[i];
    InIsLive(ctx, st, from);
    FirstPasses(ctx, st);
    SelectHas(ctx, In(from, st), i);
    var y := if from == Active then x else Refresh(ctx, x);
    assert y in ActiveBeforeLastPass(ctx, st);
  }

  lemma {:induction false} RenderAllIs(ctx: Context, xs: seq<Stream>, key: StreamKey)
    requires NoDangling(ctx, xs)
    ensures Rendering(key, true) in RenderAll(ctx, xs) <==>
      exists i :: Stays(ctx, xs, i) && xs[i].key == key && !ShouldBeSkipped(ctx, xs[i])
  {
    if xs != [] {
      var n := |xs| - 1;
      RenderAllIs(ctx, xs[..n], key);
      forall i | Stays(ctx, xs, i) && i < n ensures Stays(ctx, xs[..n], i) {
      }
      forall i | Stays(ctx, xs[..n], i) ensures Stays(ctx, xs, i) {
      }
    }
  }

  lemma {:induction false} RenderUnskippedIs(ctx: Context, xs: seq<Stream>, key: StreamKey)
    requires AllLive(ctx, xs)
    ensures Rendering(key, true) in RenderUnskipped(ctx, xs) <==>
      exists i :: 0 <= i < |xs| && xs[i].key == key && !ShouldBeSkipped(ctx, xs[i])
  {
    if xs != [] {
      RenderUnskippedIs(ctx, xs[..|xs| - 1], key);
    }
  }

  // What the throttled pass visits is what the last pass finds.
  lemma OrderIsFound(ctx: Context, st: Streams, order: seq<Stream>, y: Stream)
    requires NothingDangles(ctx, st) && NoDangling(ctx, ActiveBeforeLastPass(ctx, st))
    requires AllLive(ctx, order) && y in order
    requires multiset(Kept(ctx, order)) == multiset(Kept(ctx, ActiveBeforeLastPass(ctx, st)))
    ensures y in ActiveBeforeLastPass(ctx, st)
  {
    AllKept(ctx, order);
    KeptIsLive(ctx, ActiveBeforeLastPass(ctx, st));
    assert y in multiset(order);
    assert y in multiset(Kept(ctx, ActiveBeforeLastPass(ctx, st)));
  }

  /** Nothing that should be skipped is audible, throttled or not. */
  lemma AudibleIsUnskipped(ctx: Context, st: Streams, numToRetain: int, after: Streams, rendered: seq<Rendering>,
      order: seq<Stream>, from: Bucket, i: nat)
    requires PassOutcome(ctx, st, numToRetain, after, rendered, order) && numToRetain >= -1
    requires DistinctKeys(st) && Stays(ctx, In(from, st), i)
    requires IsOwn(ctx, In(from, st)[i]) || !StagedBothWays(ctx, In(from, st)[i].key.nodeID)
    ensures In(from, st)[i].key in ctx.audio
    ensures Rendering(In(from, st)[i].key, true) in rendered ==> !ShouldBeSkipped(ctx, In(from, st)[i])
  {
    InIsLive(ctx, st, from);
    var x, active := In(from, st)[i], ActiveBeforeLastPass(ctx, st);
    LastPass(ctx, st, Active);
    if Rendering(x.key, true) in rendered {
      var y: Stream;
      if numToRetain == -1 {
        RenderAllIs(ctx, order, x.key);
        var j :| Stays(ctx, order, j) && order[j].key == x.key && !ShouldBeSkipped(ctx, order[j]);
        y := order[j];
      } else {
        var point := if numToRetain < |order| then numToRetain else |order|;
        RenderUnskippedIs(ctx, order[..point], x.key);
        var j :| 0 <= j < point && order[..point][j].key == x.key && !ShouldBeSkipped(ctx, order[..point][j]);
        y := order[j];
        OrderIsFound(ctx, st, order, y);
      }
      FoundIsSame(ctx, st, from, i, y);
    }
  }

  /** Without throttling every stream that should be active is audible. */
  lemma ActiveIsAudible(ctx: Context, st: Streams, after: Streams, rendered: seq<Rendering>, order: seq<Stream>,
      from: Bucket, i: nat)
    requires PassOutcome(ctx, st, -1, after, rendered, order)
    requires DistinctKeys(st) && Stays(ctx, In(from, st), i)
    requires IsOwn(ctx, In(from, st)[i]) || !StagedBothWays(ctx, In(from, st)[i].key.nodeID)
    requires In(from, st)[i].key in ctx.audio && Classify(ctx, In(from, st)[i]) == Active
    ensures Rendering(In(from, st)[i].key, true) in rendered
  {
    var x := In(from, st)[i];
    ActiveIsFound(ctx, st, from, i);
    var y :| y in ActiveBeforeLastPass(ctx, st) && y.key == x.key;
    var j :| 0 <= j < |order| && order[j] == y;
    FoundIsSame(ctx, st, from, i, y);
    assert Stays(ctx, order, j);
    RenderAllIs(ctx, order, x.key);
  }

  // A stream with this key is before the throttle point.
  predicate IsRetained(order: seq<Stream>, numToRetain: int, key: StreamKey) {
    exists j :: 0 <= j < |order| && j < numToRetain && order[j].key == key
  }

  // ---------- the decisions ----------

  /** The listener's own stream: skipped and inaudible unless it loops back; else active and audible,
      or inactive if it delivered nothing or is silent. */
  lemma OwnStreamEnds(ctx: Context, st: Streams, numToRetain: int, after: Streams, rendered: seq<Rendering>,
      order: seq<Stream>, from: Bucket, i: nat)
    requires PassOutcome(ctx, st, numToRetain, after, rendered, order) && numToRetain >= -1 && DistinctKeys(st)
    requires i < |In(from, st)| && IsNotRemoved(ctx, In(from, st)[i].key)
    requires In(from, st)[i].key.localID == ctx.localID
    ensures In(from, st)[i].key in ctx.audio
    ensures var key := In(from, st)[i].key; var audio := ctx.audio[key];
      && (!audio.shouldLoopback ==> OnlyIn(after, key, Skipped) && Rendering(key, true) !in rendered)
      && (audio.shouldLoopback && audio.lastPopSucceeded && audio.loudness != 0.0 ==>
           OnlyIn(after, key, Active) && (numToRetain == -1 ==> Rendering(key, true) in rendered))
      && (audio.shouldLoopback && (!audio.lastPopSucceeded || audio.loudness == 0.0) ==> OnlyIn(after, key, Inactive))
      && (audio.shouldLoopback && numToRetain >= 0 ==>
           (Rendering(key, true) in rendered <==> IsRetained(order, numToRetain, key)))
  {
    InIsLive(ctx, st, from);
    NotRemovedStays(ctx, In(from, st), i);
    EndsClassified(ctx, st, order, from, i);
    AudibleIsUnskipped(ctx, st, numToRetain, after, rendered, order, from, i);
    if numToRetain == -1 && Classify(ctx, In(from, st)[i]) == Active {
      ActiveIsAudible(ctx, st, after, rendered, order, from, i);
    }
    if numToRetain >= 0 && !ShouldBeSkipped(ctx, In(from, st)[i]) {
      ThrottledAudibleIff(ctx, st, numToRetain, after, rendered, order, from, i);
    }
    hide PassOutcome, OnlyIn, MultiPass, NothingDangles;
  }

  // The flags of a stream of another node when it is judged.
  lemma JudgedByTheSets(ctx: Context, s: Stream, ignored0: set<Uuid>, ignored: seq<Uuid>,
      ignoring0: set<Uuid>, ignoring: seq<Uuid>)
    requires FlagsFrom(ctx, s, ignored0, ignored, ignoring0, ignoring)
    requires StagedFrom(ignored0, ctx.newIgnored, ctx.newUnignored, ignored, ctx.nodeID)
    requires StagedFrom(ignoring0, ctx.newIgnoring, ctx.newUnignoring, ignoring, ctx.nodeID)
    requires s.key.nodeID != 0 && s.key.nodeID != ctx.nodeID && s.key.localID != ctx.localID
    requires !StagedBothWays(ctx, s.key.nodeID)
    ensures Refresh(ctx, s).ignoredByListener == (s.key.nodeID in ignored)
    ensures Refresh(ctx, s).ignoringListener == (s.key.nodeID in ignoring)
  {
  }

  /** A stream of another node, which is not staged both ways. `ignored` are the nodes the listener
      ignores now, `ignoring` those that ignore it. It is skipped and inaudible if the listener ignores
      its node; if its node ignores the listener, who is no admin; if others are soloed; or, without
      soloing, if an ignore box is on and the boxes touch. Otherwise it is inactive if it delivered
      nothing or is silent, and active, and audible if the frame is not throttled, if not. In a throttled
      frame it is audible exactly if it is one of the retained streams. */
  lemma ForeignStreamEnds(ctx: Context, st: Streams, numToRetain: int, after: Streams, rendered: seq<Rendering>,
      order: seq<Stream>, from: Bucket, i: nat,
      ignored0: set<Uuid>, ignored: seq<Uuid>, ignoring0: set<Uuid>, ignoring: seq<Uuid>)
    requires PassOutcome(ctx, st, numToRetain, after, rendered, order) && numToRetain >= -1 && DistinctKeys(st)
    requires StagedFrom(ignored0, ctx.newIgnored, ctx.newUnignored, ignored, ctx.nodeID)
    requires StagedFrom(ignoring0, ctx.newIgnoring, ctx.newUnignoring, ignoring, ctx.nodeID)
    requires i < |In(from, st)| && IsNotRemoved(ctx, In(from, st)[i].key)
    requires FlagsFrom(ctx, In(from, st)[i], ignored0, ignored, ignoring0, ignoring)
    requires var key := In(from, st)[i].key;
      && key.nodeID != 0 && key.nodeID != ctx.nodeID && key.localID != ctx.localID
      && !StagedBothWays(ctx, key.nodeID)
    ensures In(from, st)[i].key in ctx.audio
    ensures var key := In(from, st)[i].key; var n, audio := key.nodeID, ctx.audio[key];
      var isMuted := n in ignored || (n in ignoring && !ctx.isAdmin) ||
        (if ctx.soloed != [] then n !in ctx.soloed
         else (ctx.ignoreBoxEnabled || audio.ignoreBoxEnabled) && audio.touchesListenerBox);
      && (isMuted ==> OnlyIn(after, key, Skipped) && Rendering(key, true) !in rendered)
      && (!isMuted && audio.lastPopSucceeded && audio.loudness != 0.0 ==>
           OnlyIn(after, key, Active) && (numToRetain == -1 ==> Rendering(key, true) in rendered))
      && (!isMuted && (!audio.lastPopSucceeded || audio.loudness == 0.0) ==> OnlyIn(after, key, Inactive))
      && (!isMuted && numToRetain >= 0 ==>
           (Rendering(key, true) in rendered <==> IsRetained(order, numToRetain, key)))
  {
    InIsLive(ctx, st, from);
    NotRemovedStays(ctx, In(from, st), i);
    JudgedByTheSets(ctx, In(from, st)[i], ignored0, ignored, ignoring0, ignoring);
    EndsClassified(ctx, st, order, from, i);
    AudibleIsUnskipped(ctx, st, numToRetain, after, rendered, order, from, i);
    if numToRetain == -1 && Classify(ctx, In(from, st)[i]) == Active {
      ActiveIsAudible(ctx, st, after, rendered, order, from, i);
    }
    if numToRetain >= 0 && !ShouldBeSkipped(ctx, In(from, st)[i]) {
      ThrottledAudibleIff(ctx, st, numToRetain, after, rendered, order, from, i);
    }
    hide PassOutcome, OnlyIn, MultiPass, NothingDangles, StagedFrom, FlagsFrom;
  }

  /** A stream that a staged removal names is in no bucket after the mix, and is not rendered. */
  lemma RemovedStreamIsGone(ctx: Context, st: Streams, numToRetain: int, after: Streams, rendered: seq<Rendering>,
      order: seq<Stream>, key: StreamKey)
    requires PassOutcome(ctx, st, numToRetain, after, rendered, order) && !IsNotRemoved(ctx, key)
    ensures forall b, y :: y in In(b, after) ==> y.key != key
  {
    forall b, y | y in In(b, after) ensures y.key != key {
      var from, i := SettledFrom(ctx, st, order, b, y);
      FinalKeepsKey(ctx, from, In(from, st)[i]);
    }
  }

  // ---------- throttling ----------

  // The louder streams are retained.
  lemma RetainedAreLoudest(ctx: Context, st: Streams, numToRetain: nat, after: Streams, rendered: seq<Rendering>,
      order: seq<Stream>, i: nat, j: nat)
    requires PassOutcome(ctx, st, numToRetain, after, rendered, order)
    requires i < numToRetain <= j < |order|
    ensures order[i].key in ctx.audio && order[j].key in ctx.audio && Volume(ctx, order[i]) >= Volume(ctx, order[j])
  {
  }

  lemma VolumeIs(ctx: Context, s: Stream)
    requires s.key in ctx.audio
    ensures var audio := ctx.audio[s.key];
      Volume(ctx, s) ==
        if s.key != StreamKey(ctx.nodeID, ctx.localID, 0) then audio.trailingLoudness * audio.approximateGain
        else if audio.trailingLoudness == 0.0 then 0.0 else 1.0
  {
  }

  /** In a throttled frame each of the first numToRetain streams of the order is at least as loud, by
      trailing loudness times gain, as each stream behind them. */
  lemma ThrottledAreNoLouder(ctx: Context, st: Streams, numToRetain: nat, after: Streams, rendered: seq<Rendering>,
      order: seq<Stream>, i: nat, j: nat)
    requires PassOutcome(ctx, st, numToRetain, after, rendered, order)
    requires i < numToRetain <= j < |order|
    requires order[i].key.streamID != 0 || order[i].key.nodeID != ctx.nodeID || order[i].key.localID != ctx.localID
    requires order[j].key.streamID != 0 || order[j].key.nodeID != ctx.nodeID || order[j].key.localID != ctx.localID
    ensures order[i].key in ctx.audio && order[j].key in ctx.audio
    ensures var a, b := ctx.audio[order[i].key], ctx.audio[order[j].key];
      a.trailingLoudness * a.approximateGain >= b.trailingLoudness * b.approximateGain
  {
    hide PassOutcome, Volume;
    RetainedAreLoudest(ctx, st, numToRetain, after, rendered, order, i, j);
    VolumeIs(ctx, order[i]);
    VolumeIs(ctx, order[j]);
  }

  /** The listener's own voice counts as 1. */
  lemma OwnVoiceCountsAsOne(ctx: Context, st: Streams, numToRetain: nat, after: Streams, rendered: seq<Rendering>,
      order: seq<Stream>, i: nat, j: nat)
    requires PassOutcome(ctx, st, numToRetain, after, rendered, order)
    requires i < numToRetain <= j < |order|
    requires order[i].key != order[j].key
    ensures order[i].key in ctx.audio && order[j].key in ctx.audio
    ensures var own, a, b := StreamKey(ctx.nodeID, ctx.localID, 0), ctx.audio[order[i].key], ctx.audio[order[j].key];
      && (order[j].key == own && b.trailingLoudness != 0.0 ==> a.trailingLoudness * a.approximateGain >= 1.0)
      && (order[i].key == own && a.trailingLoudness != 0.0 ==> b.trailingLoudness * b.approximateGain <= 1.0)
  {
    hide PassOutcome, Volume;
    RetainedAreLoudest(ctx, st, numToRetain, after, rendered, order, i, j);
    VolumeIs(ctx, order[i]);
    VolumeIs(ctx, order[j]);
  }

  lemma RetainedIsUnskipped(ctx: Context, st: Streams, numToRetain: nat, after: Streams, rendered: seq<Rendering>,
      order: seq<Stream>, from: Bucket, i: nat, j: nat)
    requires PassOutcome(ctx, st, numToRetain, after, rendered, order)
    requires DistinctKeys(st) && Stays(ctx, In(from, st), i)
    requires IsOwn(ctx, In(from, st)[i]) || !StagedBothWays(ctx, In(from, st)[i].key.nodeID)
    requires In(from, st)[i].key in ctx.audio && !ShouldBeSkipped(ctx, In(from, st)[i])
    requires j < |order| && order[j].key == In(from, st)[i].key
    ensures !ShouldBeSkipped(ctx, order[j])
  {
    LastPass(ctx, st, Active);
    hide MultiPass, RenderUnskipped, LoudestFirst, ActiveBeforeLastPass, Kept, ShouldBeSkipped, DistinctKeys;
    OrderIsFound(ctx, st, order, order[j]);
    FoundIsSame(ctx, st, from, i, order[j]);
  }

  /** With throttling the streams that should not be skipped are audible exactly before that point. */
  lemma ThrottledAudibleIff(ctx: Context, st: Streams, numToRetain: nat, after: Streams, rendered: seq<Rendering>,
      order: seq<Stream>, from: Bucket, i: nat)
    requires PassOutcome(ctx, st, numToRetain, after, rendered, order)
    requires DistinctKeys(st) && Stays(ctx, In(from, st), i)
    requires IsOwn(ctx, In(from, st)[i]) || !StagedBothWays(ctx, In(from, st)[i].key.nodeID)
    requires In(from, st)[i].key in ctx.audio && !ShouldBeSkipped(ctx, In(from, st)[i])
    ensures Rendering(In(from, st)[i].key, true) in rendered <==> IsRetained(order, numToRetain, In(from, st)[i].key)
  {
    hide MultiPass, NothingDangles, LoudestFirst, ActiveBeforeLastPass, Kept, ShouldBeSkipped, DistinctKeys;
    hide RenderUnskipped;
    var key := In(from, st)[i].key;
    var point := if numToRetain < |order| then numToRetain else |order|;
    RenderUnskippedIs(ctx, order[..point], key);
    forall j | 0 <= j < point && order[j].key == key ensures !ShouldBeSkipped(ctx, order[..point][j]) {
      RetainedIsUnskipped(ctx, st, numToRetain, after, rendered, order, from, i, j);
    }
  }
}
