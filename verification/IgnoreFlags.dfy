/** The ignore flags of one listener's streams over whole runs: requests stage changes of the ignore
    sets, and every mix applies what was staged since the last one (AudioMixerClientData.cpp,
    AudioMixerWorker.cpp). */
module IgnoreFlags {
  import opened MixStreams
  import opened AudioMixer

  datatype Request =
    | Ignore(nodes: seq<Uuid>)
    | Unignore(nodes: seq<Uuid>)
    | IgnoredBy(node: Uuid)
    | UnignoredBy(node: Uuid)

  datatype Listener = Listener(
    nodeID: Uuid,
    localID: LocalID,
    index: Streams,
    ignored: seq<Uuid>,
    ignoring: seq<Uuid>,
    newIgnored: seq<Uuid>,
    newUnignored: seq<Uuid>,
    newIgnoring: seq<Uuid>,
    newUnignoring: seq<Uuid>)

  // What the request methods of AudioMixerClientData do.
  function Requested(l: Listener, r: Request): Listener {
    match r
    case Ignore(nodes) =>
      l.(ignored := AfterIgnoreRequest(l.ignored, nodes, true, l.nodeID), newIgnored := l.newIgnored + nodes)
    case Unignore(nodes) =>
      l.(ignored := AfterIgnoreRequest(l.ignored, nodes, false, l.nodeID), newUnignored := l.newUnignored + nodes)
    case IgnoredBy(node) =>
      l.(ignoring := WithStream(l.ignoring, node), newIgnoring := l.newIgnoring + [node])
    case UnignoredBy(node) =>
      l.(ignoring := WithoutStreams(l.ignoring, {node}), newUnignoring := l.newUnignoring + [node])
  }

  function AllRequested(l: Listener, requests: seq<Request>): Listener {
    if requests == [] then l else Requested(AllRequested(l, requests[..|requests| - 1]), requests[|requests| - 1])
  }

  /** The lists staged since the sets were ignored0 and ignoring0 account for what they are now. */
  ghost predicate Accounted(l: Listener, ignored0: set<Uuid>, ignoring0: set<Uuid>) {
    && StagedFrom(ignored0, l.newIgnored, l.newUnignored, l.ignored, l.nodeID)
    && StagedFrom(ignoring0, l.newIgnoring, l.newUnignoring, l.ignoring, l.nodeID)
  }

  function AsSet(list: seq<Uuid>): set<Uuid> {
    set n | n in list
  }

  lemma RequestKeepsAccount(l: Listener, r: Request, ignored0: set<Uuid>, ignoring0: set<Uuid>)
    requires Accounted(l, ignored0, ignoring0)
    ensures Accounted(Requested(l, r), ignored0, ignoring0)
  {
    if r.UnignoredBy? {
      WithoutStreamsFacts(l.ignoring, {r.node});
    }
  }

  lemma {:induction false} RequestsKeepAccount(l: Listener, requests: seq<Request>, ignored0: set<Uuid>,
      ignoring0: set<Uuid>)
    requires Accounted(l, ignored0, ignoring0)
    ensures var t := AllRequested(l, requests);
      Accounted(t, ignored0, ignoring0) && t.index == l.index && t.nodeID == l.nodeID && t.localID == l.localID
  {
    if requests != [] {
      RequestsKeepAccount(l, requests[..|requests| - 1], ignored0, ignoring0);
      RequestKeepsAccount(AllRequested(l, requests[..|requests| - 1]), requests[|requests| - 1], ignored0, ignoring0);
    }
  }

  // ---------- from one mix to the next ----------

  /** Everything from one mix of the listener to the next: the requests in their order, whether the
      microphone was removed and with it the index, the streams the mix adds, what else it reads, and
      the order in which its last pass visits the active streams. */
  datatype Frame = Frame(requests: seq<Request>, reset: bool, keys: seq<StreamKey>, ctx: Context, order: seq<Stream>)

  // The listener and its index when the passes start.
  function AtMix(l: Listener, f: Frame): Listener {
    var r := AllRequested(l, f.requests);
    r.(index := AddKeys(if f.reset then Streams([], [], []) else r.index, f.keys, r.ignored, r.ignoring))
  }

  predicate IsContextOf(l: Listener, ctx: Context) {
    && ctx.nodeID == l.nodeID && ctx.localID == l.localID
    && ctx.newIgnored == l.newIgnored && ctx.newUnignored == l.newUnignored
    && ctx.newIgnoring == l.newIgnoring && ctx.newUnignoring == l.newUnignoring
  }

  // What PrepareMix demands and PassOutcome says.
  ghost predicate CanMix(l: Listener, f: Frame) {
    var m := AtMix(l, f);
    && IsContextOf(m, f.ctx) && NothingDangles(f.ctx, m.index) && NoDangling(f.ctx, f.order)
    && multiset(Kept(f.ctx, f.order)) == multiset(Kept(f.ctx, ActiveBeforeLastPass(f.ctx, m.index)))
  }

  function Mixed(l: Listener, f: Frame): Listener
    requires CanMix(l, f)
  {
    var m := AtMix(l, f);
    m.(index := MultiPass(f.ctx, m.index, f.order), newIgnored := [], newUnignored := [], newIgnoring := [],
      newUnignoring := [])
  }

  predicate NothingStaged(l: Listener) {
    l.newIgnored == l.newUnignored == l.newIgnoring == l.newUnignoring == []
  }

  // Any context of the listener tells which of its streams are foreign.
  function View(l: Listener): Context {
    Context(l.nodeID, l.localID, [], [], [], [], false, [], false, Removals([], []), map[])
  }

  /** Every stream of another node is flagged as the ignore sets say. */
  ghost predicate FlagsRight(l: Listener) {
    AllFlagsAre(View(l), l.index, l.ignored, l.ignoring)
  }

  // Every stream of a node that was requested both ways had the wrong flag and is evaluated once, or
  // had the right one and is evaluated twice.
  ghost predicate Settles(l: Listener, f: Frame)
    requires CanMix(l, f)
  {
    PassesSettle(f.ctx, AtMix(l, f).index, AtMix(l, f).ignored, AtMix(l, f).ignoring)
  }

  lemma SameListener(ctx: Context, other: Context, st: Streams, ignored: seq<Uuid>, ignoring: seq<Uuid>)
    requires ctx.nodeID == other.nodeID && ctx.localID == other.localID
    ensures AllFlagsAre(ctx, st, ignored, ignoring) <==> AllFlagsAre(other, st, ignored, ignoring)
  {
    forall s ensures FlagsAre(ctx, s, ignored, ignoring) <==> FlagsAre(other, s, ignored, ignoring) {
    }
    hide FlagsAre, In;
  }

  lemma MixKeepsFlagsIff(l: Listener, f: Frame)
    requires FlagsRight(l) && NothingStaged(l) && CanMix(l, f)
    ensures FlagsRight(Mixed(l, f)) <==> Settles(l, f)
    ensures NothingStaged(Mixed(l, f))
  {
    var m, t := AtMix(l, f), Mixed(l, f);
    RequestsKeepAccount(l, f.requests, AsSet(l.ignored), AsSet(l.ignoring));
    var before := if f.reset then Streams([], [], []) else l.index;
    SameListener(f.ctx, View(l), l.index, l.ignored, l.ignoring);
    SameListener(f.ctx, View(t), t.index, t.ignored, t.ignoring);
    assert AllFlagsAre(f.ctx, before, l.ignored, l.ignoring);
    FlagsStayCurrentIff(f.ctx, before, f.keys, f.order, l.ignored, m.ignored, l.ignoring, m.ignoring);
  }

  // ---------- runs ----------

  ghost predicate IsRun(states: seq<Listener>, frames: seq<Frame>) {
    |states| == |frames| + 1 &&
    forall k :: 0 <= k < |frames| ==> CanMix(states[k], frames[k]) && states[k + 1] == Mixed(states[k], frames[k])
  }

  lemma RunStagesNothing(states: seq<Listener>, frames: seq<Frame>, k: nat)
    requires IsRun(states, frames) && NothingStaged(states[0]) && k < |states|
    ensures NothingStaged(states[k])
  {
    if k > 0 {
      var l, f := states[k - 1], frames[k - 1];
      assert CanMix(l, f) && states[k - 1 + 1] == Mixed(l, f);
      hide CanMix, AtMix;
    }
  }

  /** Over every run of mixes and requests, with whatever order of requests in between: the flags are
      right after every mix exactly if the streams of nodes requested both ways settle in every mix. */
  lemma RunKeepsFlagsIff(states: seq<Listener>, frames: seq<Frame>)
    requires IsRun(states, frames) && FlagsRight(states[0]) && NothingStaged(states[0])
    ensures (forall k :: 0 <= k < |states| ==> FlagsRight(states[k])) <==>
      forall k :: 0 <= k < |frames| ==> Settles(states[k], frames[k])
  {
    if forall k :: 0 <= k < |frames| ==> Settles(states[k], frames[k]) {
      forall k | 0 <= k < |states| ensures FlagsRight(states[k]) {
        SettlingKeepsFlags(states, frames, k);
      }
    }
    if forall k :: 0 <= k < |states| ==> FlagsRight(states[k]) {
      forall k | 0 <= k < |frames| ensures Settles(states[k], frames[k]) {
        RunStagesNothing(states, frames, k);
        MixKeepsFlagsIff(states[k], frames[k]);
        assert FlagsRight(states[k + 1]);
      }
    }
  }

  lemma {:induction false} SettlingKeepsFlags(states: seq<Listener>, frames: seq<Frame>, k: nat)
    requires IsRun(states, frames) && FlagsRight(states[0]) && NothingStaged(states[0]) && k < |states|
    requires forall j :: 0 <= j < |frames| ==> Settles(states[j], frames[j])
    ensures FlagsRight(states[k])
  {
    if k > 0 {
      SettlingKeepsFlags(states, frames, k - 1);
      RunStagesNothing(states, frames, k - 1);
      MixKeepsFlagsIff(states[k - 1], frames[k - 1]);
    }
  }

  /** In particular if no node is requested both ways between two mixes. */
  lemma RunWithoutReversalsKeepsFlags(states: seq<Listener>, frames: seq<Frame>, k: nat)
    requires IsRun(states, frames) && FlagsRight(states[0]) && NothingStaged(states[0]) && k < |states|
    requires forall j, n :: 0 <= j < |frames| ==> !StagedBothWays(frames[j].ctx, n)
    ensures FlagsRight(states[k])
  {
    forall j | 0 <= j < |frames| ensures Settles(states[j], frames[j]) {
      var ctx := frames[j].ctx;
      forall from, s: Stream | s.key in ctx.audio
        ensures FlagsSettle(ctx, from, s, AtMix(states[j], frames[j]).ignored, AtMix(states[j], frames[j]).ignoring)
      {
        assert !StagedBothWays(ctx, s.key.nodeID);
      }
      hide FlagsSettle, NothingDangles, AtMix;
    }
    SettlingKeepsFlags(states, frames, k);
  }
}
