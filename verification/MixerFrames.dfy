/** The audio mixer's frame loop as seen by one listener: packets create and stop streams, queued
    events then stage removals, and the mix brings the listener's index up to date
    (AudioMixer.cpp, with AudioMixerClientData.cpp). */
module MixerFrames {
  import opened MixStreams
  import opened AudioMixer

  datatype NodeState = NodeState(localID: LocalID, streams: seq<Uuid>)

  /** `finished` holds the queued injectorStreamFinished signals: emitted on worker threads, they
      are delivered by the event loop, after the staged removals of the last frame were cleared. */
  datatype World = World(nodes: map<Uuid, NodeState>, added: seq<StreamKey>, finished: seq<StreamKey>,
    removals: Removals)

  /** One listener's index: whether it had its first mix, and how often it holds each key. */
  datatype Index = Index(hasReceivedFirstMix: bool, keys: multiset<StreamKey>)

  datatype System = System(world: World, index: Index)

  datatype Packet =
    | StreamPacket(node: Uuid, stream: Uuid)    // audio for a stream, which it may create
    | StopStream(node: Uuid, stream: Uuid)      // a stop packet, or an injector silent for too long

  datatype Event =
    | NodeKilled(node: Uuid)
    | KillAvatar(node: Uuid)
    | NodeJoined(node: Uuid, localID: LocalID)

  /** `canMix`: the listener is an agent with an active socket in this frame. */
  datatype Frame = Frame(packets: seq<Packet>, events: seq<Event>, canMix: bool)

  function KeyOf(w: World, node: Uuid, stream: Uuid): StreamKey
    requires node in w.nodes
  {
    StreamKey(node, w.nodes[node].localID, stream)
  }

  predicate IsLive(w: World, key: StreamKey) {
    key.nodeID in w.nodes && key.localID == w.nodes[key.nodeID].localID && key.streamID in w.nodes[key.nodeID].streams
  }

  function SetStreams(w: World, node: Uuid, streams: seq<Uuid>): World
    requires node in w.nodes
  {
    w.(nodes := w.nodes[node := w.nodes[node].(streams := streams)])
  }

  function ApplyPacket(w: World, p: Packet): World {
    if p.node !in w.nodes then w else
      var streams := w.nodes[p.node].streams;
      match p
      case StreamPacket(n, s) =>
        if s in streams then w else SetStreams(w, n, WithStream(streams, s)).(added := w.added + [KeyOf(w, n, s)])
      case StopStream(n, s) =>
        if s !in streams then w
        else SetStreams(w, n, WithoutStreams(streams, {s})).(finished := w.finished + [KeyOf(w, n, s)])
  }

  function ApplyPackets(w: World, ps: seq<Packet>): World {
    if ps == [] then w else ApplyPacket(ApplyPackets(w, ps[..|ps| - 1]), ps[|ps| - 1])
  }

  function BeginFrame(w: World): World { w.(added := []) }

  // clear the staged removals, then deliver the queued signals
  function BeginEvents(w: World): World { w.(removals := Removals([], w.finished), finished := []) }

  function ApplyEvent(s: System, e: Event, listener: Uuid): System {
    var w := s.world;
    match e
    case NodeKilled(n) =>
      if n !in w.nodes then s else
        System(w.(nodes := w.nodes - {n}, removals := w.removals.(nodes := w.removals.nodes + [w.nodes[n].localID])),
               if n == listener then Index(false, multiset{}) else s.index)
    case KillAvatar(n) =>
      if n !in w.nodes then s else
        System(SetStreams(w, n, WithoutStreams(w.nodes[n].streams, {0})).(
                 removals := w.removals.(streams := w.removals.streams + [KeyOf(w, n, 0)])),
               if n == listener && 0 in w.nodes[n].streams then Index(false, multiset{}) else s.index)
    case NodeJoined(n, l) =>
      if n in w.nodes then s else s.(world := w.(nodes := w.nodes[n := NodeState(l, [])]))
  }

  function ApplyEvents(s: System, es: seq<Event>, listener: Uuid): System {
    if es == [] then s else ApplyEvent(ApplyEvents(s, es[..|es| - 1], listener), es[|es| - 1], listener)
  }

  // The system when the mix starts.
  function BeforeMix(s: System, f: Frame, listener: Uuid): System {
    ApplyEvents(BeforeEvents(s, f), f.events, listener)
  }

  /** A listener is mixed if it has a microphone stream. */
  predicate IsMixed(s: System, f: Frame, listener: Uuid) {
    f.canMix && listener in s.world.nodes && 0 in s.world.nodes[listener].streams
  }

  /** What PrepareMix does to the index: KeysKept, over the streams of this frame or all live ones. */
  ghost predicate MixIndex(w: World, before: Index, after: Index) {
    after.hasReceivedFirstMix &&
    forall key :: after.keys[key] == Remaining(w.removals,
      before.keys[key] +
        (if before.hasReceivedFirstMix then multiset(w.added)[key] else if IsLive(w, key) then 1 else 0), key)
  }

  ghost predicate FrameStep(s: System, f: Frame, listener: Uuid, t: System) {
    var m := BeforeMix(s, f, listener);
    t.world == m.world &&
    if IsMixed(m, f, listener) then MixIndex(m.world, m.index, t.index) else t.index == m.index
  }

  ghost predicate IsRun(states: seq<System>, frames: seq<Frame>, listener: Uuid) {
    |states| == |frames| + 1 &&
    forall k :: 0 <= k < |frames| ==> FrameStep(states[k], frames[k], listener, states[k + 1])
  }

  /** The listener misses no mix once it has had its first one. */
  predicate MixedContinuously(s: System, f: Frame, listener: Uuid) {
    var m := BeforeMix(s, f, listener);
    IsMixed(m, f, listener) || !m.index.hasReceivedFirstMix
  }

  // ---------- the invariants ----------

  ghost predicate WellFormed(w: World) {
    forall n :: n in w.nodes ==> NoDuplicates(w.nodes[n].streams)
  }

  // A removal for the key is staged, or will be when the queued signals are delivered.
  predicate Staged(w: World, key: StreamKey) {
    ShouldBeRemoved(w.removals, key) || exists k :: k in w.finished && k.Matches(key)
  }

  // How often the index will hold the key once this frame's streams are added.
  function Pending(s: System, key: StreamKey): nat {
    s.index.keys[key] + multiset(s.world.added)[key]
  }

  /** What is pending and not staged for removal exists, and is pending once. */
  ghost predicate Sound(s: System) {
    s.index.hasReceivedFirstMix ==>
      forall key :: Pending(s, key) > 0 && !Staged(s.world, key) ==> IsLive(s.world, key) && Pending(s, key) == 1
  }

  /** What exists is pending. */
  ghost predicate Complete(s: System) {
    s.index.hasReceivedFirstMix ==> forall key :: IsLive(s.world, key) ==> Pending(s, key) > 0
  }

  ghost predicate FrameInv(s: System) {
    WellFormed(s.world) && (!s.index.hasReceivedFirstMix ==> s.index.keys == multiset{})
  }

  /** Between frames: the index holds only streams that exist, each once. */
  ghost predicate IndexSound(s: System) {
    FrameInv(s) && s.world.finished == [] &&
    forall key :: s.index.keys[key] > 0 ==> IsLive(s.world, key) && s.index.keys[key] == 1
  }

  /** Between frames: the index of a listener that had its first mix holds exactly the streams that
      exist, each once. */
  ghost predicate IndexExact(s: System) {
    IndexSound(s) && (s.index.hasReceivedFirstMix ==> forall key :: IsLive(s.world, key) ==> s.index.keys[key] == 1)
  }

  // ---------- what packets and events change ----------

  /** A packet with audio makes its stream exist, a stop packet ends it, and neither touches any other. What it
      creates is added to the indexes, and what it ends is signalled. */
  lemma PacketChanges(w: World, p: Packet, key: StreamKey)
    requires WellFormed(w)
    ensures var t := ApplyPacket(w, p);
      var its := p.node in w.nodes && key == StreamKey(p.node, w.nodes[p.node].localID, p.stream);
      && (IsLive(t, key) <==> if its then p.StreamPacket? else IsLive(w, key))
      && multiset(t.added)[key] == multiset(w.added)[key] + (if IsLive(t, key) && !IsLive(w, key) then 1 else 0)
      && multiset(t.finished)[key] == multiset(w.finished)[key] + (if IsLive(w, key) && !IsLive(t, key) then 1 else 0)
      && t.removals == w.removals
  {
    if p.node in w.nodes {
      WithoutStreamsFacts(w.nodes[p.node].streams, {p.stream});
    }
  }

  predicate StartsOver(w: World, e: Event, listener: Uuid) {
    e.node == listener && listener in w.nodes &&
    (e.NodeKilled? || (e.KillAvatar? && 0 in w.nodes[listener].streams))
  }

  /** A killed node ends all its streams, and a killed avatar its microphone. The index of the listener starts over
      if it is killed itself, or its avatar is and had a microphone, and else is untouched. */
  lemma EventChanges(s: System, e: Event, listener: Uuid, key: StreamKey)
    requires WellFormed(s.world)
    ensures var t := ApplyEvent(s, e, listener).world;
      && (IsLive(t, key) <==> IsLive(s.world, key) && match e
            case NodeKilled(n) => key.nodeID != n
            case KillAvatar(n) => key.nodeID != n || key.streamID != 0
            case NodeJoined(n, l) => true)
      && t.nodes.Keys == match e
            case NodeKilled(n) => s.world.nodes.Keys - {n}
            case KillAvatar(n) => s.world.nodes.Keys
            case NodeJoined(n, l) => s.world.nodes.Keys + {n}
    ensures e.NodeJoined? && e.node !in s.world.nodes ==>
      ApplyEvent(s, e, listener).world.nodes[e.node] == NodeState(e.localID, [])
    ensures ApplyEvent(s, e, listener).index ==
      if StartsOver(s.world, e, listener) then Index(false, multiset{}) else s.index
  {
    if e.node in s.world.nodes {
      WithoutStreamsFacts(s.world.nodes[e.node].streams, {0});
    }
  }

  // ---------- one packet, one event ----------

  lemma PacketKeepsDistinct(w: World, p: Packet)
    requires WellFormed(w)
    ensures WellFormed(ApplyPacket(w, p))
  {
    if p.node in w.nodes {
      WithoutStreamsFacts(w.nodes[p.node].streams, {p.stream});
    }
  }

  lemma PacketStages(w: World, p: Packet, key: StreamKey)
    requires WellFormed(w)
    ensures var t := ApplyPacket(w, p);
      (Staged(w, key) ==> Staged(t, key)) && (IsLive(w, key) && !IsLive(t, key) ==> Staged(t, key))
  {
    var t := ApplyPacket(w, p);
    PacketChanges(w, p, key);
    if IsLive(w, key) && !IsLive(t, key) {
      assert key in t.finished && key.Matches(key);
    }
    assert forall k :: k in w.finished ==> k in t.finished;
  }

  lemma PacketStep(s: System, p: Packet)
    requires FrameInv(s)
    ensures var t := s.(world := ApplyPacket(s.world, p));
      FrameInv(t) && (Sound(s) ==> Sound(t)) && (Complete(s) ==> Complete(t))
  {
    var w := s.world;
    var t := s.(world := ApplyPacket(w, p));
    PacketKeepsDistinct(w, p);
    forall key
      ensures Pending(t, key) == Pending(s, key) + if IsLive(t.world, key) && !IsLive(w, key) then 1 else 0
      ensures Staged(w, key) ==> Staged(t.world, key)
      ensures IsLive(w, key) && !IsLive(t.world, key) ==> Staged(t.world, key)
    {
      PacketChanges(w, p, key);
      PacketStages(w, p, key);
    }
    hide ApplyPacket, IsLive, Staged, Pending, WellFormed;
  }

  lemma {:induction false} PacketsStep(s: System, ps: seq<Packet>)
    requires FrameInv(s)
    ensures var t := s.(world := ApplyPackets(s.world, ps));
      FrameInv(t) && (Sound(s) ==> Sound(t)) && (Complete(s) ==> Complete(t))
  {
    if ps != [] {
      PacketsStep(s, ps[..|ps| - 1]);
      PacketStep(s.(world := ApplyPackets(s.world, ps[..|ps| - 1])), ps[|ps| - 1]);
    }
  }

  lemma EventStep(s: System, e: Event, listener: Uuid)
    requires FrameInv(s)
    ensures var t := ApplyEvent(s, e, listener);
      FrameInv(t) && (Sound(s) ==> Sound(t)) && (Complete(s) ==> Complete(t)) && t.world.finished == s.world.finished
  {
    var w := s.world;
    var t := ApplyEvent(s, e, listener);
    if e.node in w.nodes {
      WithoutStreamsFacts(w.nodes[e.node].streams, {0});
    }
    if t.index == s.index {
      forall key
        ensures Pending(t, key) == Pending(s, key)
        ensures Staged(w, key) ==> Staged(t.world, key)
        ensures IsLive(t.world, key) ==> IsLive(w, key)
        ensures IsLive(w, key) && !IsLive(t.world, key) ==> Staged(t.world, key)
      {
        if e.KillAvatar? && e.node in w.nodes && IsLive(w, key) && !IsLive(t.world, key) {
          assert key == KeyOf(w, e.node, 0) && key in t.world.removals.streams && key.Matches(key);
        }
      }
    }
  }

  lemma {:induction false} EventsStep(s: System, es: seq<Event>, listener: Uuid)
    requires FrameInv(s)
    ensures var t := ApplyEvents(s, es, listener);
      FrameInv(t) && (Sound(s) ==> Sound(t)) && (Complete(s) ==> Complete(t)) && t.world.finished == s.world.finished
  {
    if es != [] {
      EventsStep(s, es[..|es| - 1], listener);
      EventStep(ApplyEvents(s, es[..|es| - 1], listener), es[|es| - 1], listener);
    }
  }

  lemma UpToTheMix(s: System, f: Frame, listener: Uuid)
    requires IndexSound(s)
    ensures var m := BeforeMix(s, f, listener);
      FrameInv(m) && Sound(m) && m.world.finished == [] && (IndexExact(s) ==> Complete(m))
  {
    var begun := s.(world := BeginFrame(s.world));
    assert Sound(begun) && (IndexExact(s) ==> Complete(begun));
    PacketsStep(begun, f.packets);
    // last frame's staged removals go, and only matter for streams that are gone anyway
    SoundWithoutOldRemovals(s, f.packets);
    var packed := s.(world := ApplyPackets(begun.world, f.packets));
    var events := packed.(world := BeginEvents(packed.world));
    assert forall key ::
      IsLive(events.world, key) == IsLive(packed.world, key) && Pending(events, key) == Pending(packed, key);
    EventsStep(events, f.events, listener);
  }

  // The packets of a frame, started without the removals staged in the last one.
  lemma SoundWithoutOldRemovals(s: System, ps: seq<Packet>)
    requires IndexSound(s)
    ensures Sound(s.(world := BeginEvents(ApplyPackets(BeginFrame(s.world), ps))))
  {
    var clean := s.(world := BeginFrame(s.world).(removals := Removals([], [])));
    assert Sound(clean);
    PacketsStep(clean, ps);
    RemovalsDoNotMatter(BeginFrame(s.world), ps);
    var t := s.(world := ApplyPackets(clean.world, ps));
    var events := s.(world := BeginEvents(ApplyPackets(BeginFrame(s.world), ps)));
    forall key ensures Staged(t.world, key) == Staged(events.world, key) && Pending(t, key) == Pending(events, key) {
    }
  }

  lemma {:induction false} RemovalsDoNotMatter(w: World, ps: seq<Packet>)
    ensures ApplyPackets(w.(removals := Removals([], [])), ps) == ApplyPackets(w, ps).(removals := Removals([], []))
  {
    if ps != [] {
      RemovalsDoNotMatter(w, ps[..|ps| - 1]);
    }
  }

  // ---------- main results ----------

  lemma {:induction false} EventsKeepOrResetIndex(s: System, es: seq<Event>, listener: Uuid)
    ensures var t := ApplyEvents(s, es, listener); t.index == s.index || t.index == Index(false, multiset{})
  {
    if es != [] {
      EventsKeepOrResetIndex(s, es[..|es| - 1], listener);
    }
  }

  predicate HasMicrophone(w: World, node: Uuid) {
    node in w.nodes && 0 in w.nodes[node].streams
  }

  lemma EventLeavesMute(s: System, e: Event, listener: Uuid)
    requires WellFormed(s.world)
    ensures var t := ApplyEvent(s, e, listener);
      StartsOver(s.world, e, listener) || (s.index == Index(false, multiset{}) && !HasMicrophone(s.world, listener)) ==>
        t.index == Index(false, multiset{}) && !HasMicrophone(t.world, listener)
  {
    if e.node in s.world.nodes {
      WithoutStreamsFacts(s.world.nodes[e.node].streams, {0});
    }
  }

  lemma {:induction false} EventsLeaveMute(s: System, es: seq<Event>, listener: Uuid, k: nat)
    requires FrameInv(s) && k < |es| && StartsOver(ApplyEvents(s, es[..k], listener).world, es[k], listener)
    ensures var t := ApplyEvents(s, es, listener);
      t.index == Index(false, multiset{}) && !HasMicrophone(t.world, listener)
  {
    var n := |es| - 1;
    if k < n {
      assert es[..n][..k] == es[..k];
      EventsLeaveMute(s, es[..n], listener, k);
    }
    EventsStep(s, es[..n], listener);
    EventLeavesMute(ApplyEvents(s, es[..n], listener), es[n], listener);
  }

  /** A frame in whose events the listener is killed, or loses its microphone, leaves it without an index: its next
      mix enumerates all streams. */
  lemma ListenerStartsOver(s: System, f: Frame, listener: Uuid, t: System, k: nat)
    requires IndexSound(s) && FrameStep(s, f, listener, t) && k < |f.events|
    requires var w := ApplyEvents(BeforeEvents(s, f), f.events[..k], listener).world;
      listener in w.nodes &&
      (f.events[k] == NodeKilled(listener) || (f.events[k] == KillAvatar(listener) && 0 in w.nodes[listener].streams))
    ensures t.index == Index(false, multiset{})
  {
    PacketsStep(s.(world := BeginFrame(s.world)), f.packets);
    EventsLeaveMute(BeforeEvents(s, f), f.events, listener, k);
  }

  // A frame without a mix at most resets the index.
  lemma UnmixedKeepsIndex(s: System, f: Frame, listener: Uuid, t: System)
    requires FrameStep(s, f, listener, t) && !IsMixed(BeforeMix(s, f, listener), f, listener)
    ensures t == BeforeMix(s, f, listener) && (t.index == s.index || t.index == Index(false, multiset{}))
  {
    EventsKeepOrResetIndex(BeforeEvents(s, f), f.events, listener);
  }

  /** After the frame the index holds no stream that is gone, nor one twice: always if the listener is
      mixed or has no index, and else if every stream it holds still exists. */
  predicate KeepsSound(s: System, f: Frame, listener: Uuid) {
    var m := BeforeMix(s, f, listener);
    || IsMixed(m, f, listener)
    || !m.index.hasReceivedFirstMix
    || forall key :: key in s.index.keys ==> IsLive(m.world, key)
  }

  lemma FrameKeepsIndexSoundIff(s: System, f: Frame, listener: Uuid, t: System)
    requires IndexSound(s) && FrameStep(s, f, listener, t)
    ensures IndexSound(t) <==> KeepsSound(s, f, listener)
  {
    UpToTheMix(s, f, listener);
    var m := BeforeMix(s, f, listener);
    forall key ensures Staged(m.world, key) == ShouldBeRemoved(m.world.removals, key) {
    }
    if !IsMixed(m, f, listener) {
      UnmixedKeepsIndex(s, f, listener, t);
      hide ApplyEvents, ApplyPackets, ShouldBeRemoved;
      assert forall key :: key in t.index.keys <==> t.index.keys[key] > 0;
    }
  }

  /** A continuously mixed listener never holds a stream that is gone, nor one twice, whatever the
      packets and events of the frame. */
  lemma FrameKeepsIndexSound(s: System, f: Frame, listener: Uuid, t: System)
    requires IndexSound(s) && FrameStep(s, f, listener, t) && MixedContinuously(s, f, listener)
    ensures IndexSound(t)
    // every stream the mix will look at exists
    ensures var m := BeforeMix(s, f, listener);
      m.index.hasReceivedFirstMix ==>
        forall key :: Pending(m, key) > 0 && !ShouldBeRemoved(m.world.removals, key) ==> IsLive(m.world, key)
  {
    FrameKeepsIndexSoundIff(s, f, listener, t);
    UpToTheMix(s, f, listener);
  }

  /** What keeps the index exact over a frame: if the listener is mixed, that no stream that exists at
      the mix matches a removal staged in the frame; if not, that it has no index or that the same
      streams exist as before. */
  ghost predicate KeepsExact(s: System, f: Frame, listener: Uuid) {
    var m := BeforeMix(s, f, listener);
    if IsMixed(m, f, listener) then forall key :: IsLive(m.world, key) ==> !ShouldBeRemoved(m.world.removals, key)
    else m.index.hasReceivedFirstMix ==> forall key :: IsLive(m.world, key) <==> IsLive(s.world, key)
  }

  lemma MixedFrameIsExactIff(s: System, f: Frame, listener: Uuid, t: System)
    requires IndexExact(s) && FrameStep(s, f, listener, t) && IsMixed(BeforeMix(s, f, listener), f, listener)
    ensures IndexExact(t) <==> forall key :: IsLive(t.world, key) ==> !ShouldBeRemoved(t.world.removals, key)
  {
    UpToTheMix(s, f, listener);
    FrameKeepsIndexSoundIff(s, f, listener, t);
    var m := BeforeMix(s, f, listener);
    forall key ensures Staged(m.world, key) == ShouldBeRemoved(m.world.removals, key) {
    }
    forall key | IsLive(t.world, key)
      ensures t.index.keys[key] == if ShouldBeRemoved(t.world.removals, key) then 0 else 1
    {
      assert m.index.hasReceivedFirstMix ==> Pending(m, key) > 0;
    }
  }

  lemma UnmixedFrameIsExactIff(s: System, f: Frame, listener: Uuid, t: System)
    requires IndexExact(s) && FrameStep(s, f, listener, t) && !IsMixed(BeforeMix(s, f, listener), f, listener)
    ensures IndexExact(t) <==> KeepsExact(s, f, listener)
  {
    UpToTheMix(s, f, listener);
    FrameKeepsIndexSoundIff(s, f, listener, t);
    UnmixedKeepsIndex(s, f, listener, t);
    hide ApplyEvents, ApplyPackets, ShouldBeRemoved, IsLive, MixIndex;
    assert forall key :: key in s.index.keys <==> s.index.keys[key] > 0;
  }

  /** The index stays exact over a frame, mixed or not, exactly under that condition. */
  lemma FrameKeepsIndexExactIff(s: System, f: Frame, listener: Uuid, t: System)
    requires IndexExact(s) && FrameStep(s, f, listener, t)
    ensures IndexExact(t) <==> KeepsExact(s, f, listener)
  {
    if IsMixed(BeforeMix(s, f, listener), f, listener) {
      MixedFrameIsExactIff(s, f, listener, t);
    } else {
      UnmixedFrameIsExactIff(s, f, listener, t);
    }
  }

  /** Nodes are told apart by their local IDs. */
  ghost predicate DistinctNodes(w: World) {
    forall a, b :: a in w.nodes && b in w.nodes && w.nodes[a].localID == w.nodes[b].localID ==> a == b
  }

  // The system when the event loop of the frame starts.
  function BeforeEvents(s: System, f: Frame): System {
    s.(world := BeginEvents(ApplyPackets(BeginFrame(s.world), f.packets)))
  }

  /** ... in every state of the frame. */
  ghost predicate DistinctThroughout(s: System, f: Frame, listener: Uuid) {
    forall k :: 0 <= k <= |f.events| ==> DistinctNodes(ApplyEvents(BeforeEvents(s, f), f.events[..k], listener).world)
  }

  /** No packet of the frame re-creates a stream that an earlier one stopped. */
  predicate NoRestart(ps: seq<Packet>) {
    forall j, k :: 0 <= j < k < |ps| ==> !(ps[j].StopStream? && ps[k] == StreamPacket(ps[j].node, ps[j].stream))
  }

  // No live stream matches a queued signal; every queued signal comes from one of the packets.
  ghost predicate NothingStoppedLives(w: World, ps: seq<Packet>) {
    forall k :: k in w.finished ==>
      && k.nodeID in w.nodes && k.localID == w.nodes[k.nodeID].localID
      && k.streamID !in w.nodes[k.nodeID].streams && StopStream(k.nodeID, k.streamID) in ps
  }

  lemma {:induction false} PacketsWithoutRestart(w: World, ps: seq<Packet>)
    requires w.finished == [] && NoRestart(ps)
    ensures NothingStoppedLives(ApplyPackets(w, ps), ps)
    ensures ApplyPackets(w, ps).nodes.Keys == w.nodes.Keys
    ensures forall n :: n in w.nodes ==> ApplyPackets(w, ps).nodes[n].localID == w.nodes[n].localID
  {
    if ps != [] {
      var n := |ps| - 1;
      var p := ps[n];
      PacketsWithoutRestart(w, ps[..n]);
      var u := ApplyPackets(w, ps[..n]);
      if p.node in u.nodes {
        WithoutStreamsFacts(u.nodes[p.node].streams, {p.stream});
      }
      forall k | k in u.finished
        ensures StopStream(k.nodeID, k.streamID) in ps && p != StreamPacket(k.nodeID, k.streamID)
      {
        assert StopStream(k.nodeID, k.streamID) in ps[..n];
        var j :| 0 <= j < n && ps[j] == StopStream(k.nodeID, k.streamID);
      }
      assert p in ps;
    }
  }

  // While events run, streams that exist match no staged removal.
  ghost predicate NothingStagedLives(w: World) {
    forall key :: IsLive(w, key) ==> !ShouldBeRemoved(w.removals, key)
  }

  lemma EventStagesNothingLive(s: System, e: Event, listener: Uuid)
    requires NothingStagedLives(s.world) && DistinctNodes(s.world)
    ensures NothingStagedLives(ApplyEvent(s, e, listener).world)
  {
    var w, t := s.world, ApplyEvent(s, e, listener).world;
    if e.node in w.nodes {
      WithoutStreamsFacts(w.nodes[e.node].streams, {0});
    }
    forall key | IsLive(t, key) ensures !ShouldBeRemoved(t.removals, key) {
      assert IsLive(w, key) && !ShouldBeRemoved(w.removals, key);
    }
  }

  lemma {:induction false} EventsStageNothingLive(s: System, es: seq<Event>, listener: Uuid)
    requires NothingStagedLives(s.world)
    requires forall k :: 0 <= k <= |es| ==> DistinctNodes(ApplyEvents(s, es[..k], listener).world)
    ensures NothingStagedLives(ApplyEvents(s, es, listener).world)
  {
    if es != [] {
      var n := |es| - 1;
      forall k | 0 <= k <= n ensures DistinctNodes(ApplyEvents(s, es[..n][..k], listener).world) {
        assert es[..n][..k] == es[..k];
      }
      EventsStageNothingLive(s, es[..n], listener);
      EventStagesNothingLive(ApplyEvents(s, es[..n], listener), es[n], listener);
    }
  }

  /** In a frame that stops and re-creates no stream, with distinguishable nodes, the incremental
      index stays equal to the full enumeration. */
  lemma CleanFrameKeepsIndexExact(s: System, f: Frame, listener: Uuid, t: System)
    requires IndexExact(s) && FrameStep(s, f, listener, t) && MixedContinuously(s, f, listener)
    requires NoRestart(f.packets) && DistinctThroughout(s, f, listener)
    ensures IndexExact(t)
  {
    PacketsWithoutRestart(BeginFrame(s.world), f.packets);
    var begun := BeforeEvents(s, f);
    assert DistinctNodes(begun.world) by {
      assert f.events[..0] == [];
    }
    EventsStageNothingLive(begun, f.events, listener);
    FrameKeepsIndexExactIff(s, f, listener, t);
  }

  lemma {:induction false} KeepingExactRuns(states: seq<System>, frames: seq<Frame>, listener: Uuid, k: nat)
    requires IsRun(states, frames, listener) && IndexExact(states[0]) && k < |states|
    requires forall j :: 0 <= j < |frames| ==> KeepsExact(states[j], frames[j], listener)
    ensures IndexExact(states[k])
  {
    if k > 0 {
      KeepingExactRuns(states, frames, listener, k - 1);
      FrameKeepsIndexExactIff(states[k - 1], frames[k - 1], listener, states[k]);
    }
  }

  /** Over every run of frames: the three vectors of a listener that had its first mix together hold
      exactly the keys of all live streams, each once, after every frame, if and only if every frame
      meets its condition. */
  lemma RunKeepsIndexExactIff(states: seq<System>, frames: seq<Frame>, listener: Uuid)
    requires IsRun(states, frames, listener) && IndexExact(states[0])
    ensures (forall k :: 0 <= k < |states| ==> IndexExact(states[k])) <==>
      forall k :: 0 <= k < |frames| ==> KeepsExact(states[k], frames[k], listener)
  {
    if forall k :: 0 <= k < |frames| ==> KeepsExact(states[k], frames[k], listener) {
      forall k | 0 <= k < |states| ensures IndexExact(states[k]) {
        KeepingExactRuns(states, frames, listener, k);
      }
    }
    if forall k :: 0 <= k < |states| ==> IndexExact(states[k]) {
      forall k | 0 <= k < |frames| ensures KeepsExact(states[k], frames[k], listener) {
        FrameKeepsIndexExactIff(states[k], frames[k], listener, states[k + 1]);
      }
    }
  }

  /** In particular for a continuously mixed listener, if no frame stops and re-creates a stream. After a frame in
      which the listener can be mixed and has a microphone, its index holds each live stream once and nothing else. */
  lemma {:induction false} RunKeepsIndexExact(states: seq<System>, frames: seq<Frame>, listener: Uuid, k: nat)
    requires IsRun(states, frames, listener) && IndexExact(states[0]) && k < |states|
    requires forall j :: 0 <= j < |frames| ==>
      MixedContinuously(states[j], frames[j], listener) && NoRestart(frames[j].packets) &&
      DistinctThroughout(states[j], frames[j], listener)
    ensures IndexExact(states[k])
    ensures k > 0 && frames[k - 1].canMix && HasMicrophone(states[k].world, listener) ==>
      forall key :: states[k].index.keys[key] == if IsLive(states[k].world, key) then 1 else 0
  {
    if k > 0 {
      RunKeepsIndexExact(states, frames, listener, k - 1);
      CleanFrameKeepsIndexExact(states[k - 1], frames[k - 1], listener, states[k]);
    }
  }

  lemma {:induction false} KeepingSoundRuns(states: seq<System>, frames: seq<Frame>, listener: Uuid, k: nat)
    requires IsRun(states, frames, listener) && IndexSound(states[0]) && k < |states|
    requires forall j :: 0 <= j < |frames| ==> KeepsSound(states[j], frames[j], listener)
    ensures IndexSound(states[k])
  {
    if k > 0 {
      KeepingSoundRuns(states, frames, listener, k - 1);
      FrameKeepsIndexSoundIff(states[k - 1], frames[k - 1], listener, states[k]);
    }
  }

  /** Over every run of frames: the index holds only live streams, each once, after every frame, if and
      only if no stream that a listener holds is gone after a frame in which it is not mixed. Restarts
      do no harm here. */
  lemma RunKeepsIndexSoundIff(states: seq<System>, frames: seq<Frame>, listener: Uuid)
    requires IsRun(states, frames, listener) && IndexSound(states[0])
    ensures (forall k :: 0 <= k < |states| ==> IndexSound(states[k])) <==>
      forall k :: 0 <= k < |frames| ==> KeepsSound(states[k], frames[k], listener)
  {
    if forall k :: 0 <= k < |frames| ==> KeepsSound(states[k], frames[k], listener) {
      forall k | 0 <= k < |states| ensures IndexSound(states[k]) {
        KeepingSoundRuns(states, frames, listener, k);
      }
    }
    if forall k :: 0 <= k < |states| ==> IndexSound(states[k]) {
      forall k | 0 <= k < |frames| ensures KeepsSound(states[k], frames[k], listener) {
        FrameKeepsIndexSoundIff(states[k], frames[k], listener, states[k + 1]);
      }
    }
  }

  lemma TwoPackets(w: World, p: Packet, q: Packet)
    ensures ApplyPackets(w, [p, q]) == ApplyPacket(ApplyPacket(w, p), q)
  {
    assert [p, q][..1] == [p] && [p][..0] == [];
    assert ApplyPackets(w, [p]) == ApplyPacket(ApplyPackets(w, []), p);
  }

  lemma OnePacket(w: World, p: Packet)
    ensures ApplyPackets(w, [p]) == ApplyPacket(w, p) && ApplyPackets(w, []) == w
  {
    assert [p][..0] == [];
  }

  lemma WithoutOnly(stream: Uuid)
    ensures WithoutStreams([stream], {stream}) == []
  {
  }

  lemma Restarted(w: World, node: Uuid, stream: Uuid)
    requires node in w.nodes && w.nodes[node].streams == [stream]
    ensures var key := KeyOf(w, node, stream);
      ApplyPackets(w, [StopStream(node, stream), StreamPacket(node, stream)]) ==
        w.(added := w.added + [key], finished := w.finished + [key])
  {
    TwoPackets(w, StopStream(node, stream), StreamPacket(node, stream));
    WithoutOnly(stream);
    hide ApplyPackets, WithoutStreams;
    var key := KeyOf(w, node, stream);
    var t := ApplyPacket(w, StopStream(node, stream));
    assert t == SetStreams(w, node, []).(finished := w.finished + [key]);
    assert WithStream([], stream) == [stream];
    var u := ApplyPacket(t, StreamPacket(node, stream));
    assert u == SetStreams(t, node, [stream]).(added := w.added + [key]);
    assert u.nodes == w.nodes;
  }

  lemma RestartedIsLost(s: System, f: Frame, t: System, listener: Uuid, node: Uuid, stream: Uuid)
    requires node in s.world.nodes && s.world.nodes[node].streams == [stream]
    requires f.packets == [StopStream(node, stream), StreamPacket(node, stream)] && f.events == []
    requires FrameStep(s, f, listener, t)
    ensures BeforeEvents(s, f).world.nodes == s.world.nodes
    ensures IsMixed(s, f, listener) <==> IsMixed(BeforeMix(s, f, listener), f, listener)
    ensures var key := KeyOf(s.world, node, stream);
      IsMixed(s, f, listener) ==> IsLive(t.world, key) && t.index.keys[key] == 0
  {
    var key, m := KeyOf(s.world, node, stream), BeforeMix(s, f, listener);
    Restarted(BeginFrame(s.world), node, stream);
    hide ApplyPackets;
    assert m.world.nodes == s.world.nodes && key in m.world.removals.streams && key.Matches(key);
  }

  // The index of the examples below.
  lemma TwoStreamsAreExact(s: System)
    requires s == System(World(map[1 := NodeState(1, [0]), 2 := NodeState(2, [5])], [], [], Removals([], [])),
                         Index(true, multiset{StreamKey(1, 1, 0), StreamKey(2, 2, 5)}))
    ensures IndexExact(s)
  {
    forall key ensures s.index.keys[key] == if IsLive(s.world, key) then 1 else 0 {
    }
  }

  lemma RestartIsOrdinary(s: System, f: Frame)
    requires s.world.nodes == map[1 := NodeState(1, [0]), 2 := NodeState(2, [5])]
    requires f == Frame([StopStream(2, 5), StreamPacket(2, 5)], [], true)
    requires BeforeEvents(s, f).world.nodes == s.world.nodes
    ensures MixedContinuously(s, f, 1) && DistinctThroughout(s, f, 1)
  {
    hide BeforeEvents;
    assert f.events[..0] == [];
  }

  /** The condition is needed: stopping and re-creating one stream in a single frame loses it. */
  lemma RestartLosesStream(s: System, f: Frame, t: System)
    requires s == System(World(map[1 := NodeState(1, [0]), 2 := NodeState(2, [5])], [], [], Removals([], [])),
                         Index(true, multiset{StreamKey(1, 1, 0), StreamKey(2, 2, 5)}))
    requires f == Frame([StopStream(2, 5), StreamPacket(2, 5)], [], true)
    requires FrameStep(s, f, 1, t)
    ensures IndexExact(s) && MixedContinuously(s, f, 1) && DistinctThroughout(s, f, 1)
    ensures IsLive(t.world, StreamKey(2, 2, 5)) && t.index.keys[StreamKey(2, 2, 5)] == 0
  {
    TwoStreamsAreExact(s);
    RestartedIsLost(s, f, t, 1, 2, 5);
    RestartIsOrdinary(s, f);
    hide IndexExact, FrameStep, DistinctThroughout, MixedContinuously;
  }

  /** Missing a mix is what the continuity condition excludes: a stop packet with the null stream ID
      takes the microphone without resetting the index, and streams added meanwhile are never indexed. */
  lemma UnmixedFrameGoesStale(s: System, f: Frame, t: System)
    requires s == System(World(map[1 := NodeState(1, [0]), 2 := NodeState(2, [])], [], [], Removals([], [])),
                         Index(true, multiset{StreamKey(1, 1, 0)}))
    requires f == Frame([StopStream(1, 0), StreamPacket(2, 5)], [], true)
    requires FrameStep(s, f, 1, t)
    ensures IndexExact(s) && NoRestart(f.packets) && DistinctThroughout(s, f, 1) && !IndexSound(t)
    ensures IsLive(t.world, StreamKey(2, 2, 5)) && t.index.keys[StreamKey(2, 2, 5)] == 0
  {
    TwoPackets(s.world, StopStream(1, 0), StreamPacket(2, 5));
    TwoPackets(BeginFrame(s.world), StopStream(1, 0), StreamPacket(2, 5));
    WithoutOnly(0);
    assert !IsLive(t.world, StreamKey(1, 1, 0)) && t.index.keys[StreamKey(1, 1, 0)] == 1;
  }

  // ---------- the frame model and PrepareMix ----------

  /** The nodes the mix enumerates are the nodes of the world, each once. */
  ghost predicate Describes(w: World, nodes: seq<NodeEntry>) {
    && (forall i, j :: 0 <= i < j < |nodes| ==> nodes[i].nodeID != nodes[j].nodeID)
    && (forall i :: 0 <= i < |nodes| ==>
         && nodes[i].nodeID in w.nodes && (nodes[i].hasData || nodes[i].streams == [])
         && w.nodes[nodes[i].nodeID] == NodeState(nodes[i].localID, nodes[i].streams))
    && (forall n :: n in w.nodes ==> exists i :: 0 <= i < |nodes| && nodes[i].nodeID == n)
  }

  lemma KeysOfCounts(w: World, node: NodeEntry, key: StreamKey)
    requires WellFormed(w) && node.nodeID in w.nodes && w.nodes[node.nodeID] == NodeState(node.localID, node.streams)
    ensures multiset(KeysOf(node))[key] == if IsLive(w, key) && key.nodeID == node.nodeID then 1 else 0
  {
    var keys := KeysOf(node);
    assert IsLive(w, key) && key.nodeID == node.nodeID ==> key in keys by {
      if IsLive(w, key) && key.nodeID == node.nodeID {
        var i :| 0 <= i < |node.streams| && node.streams[i] == key.streamID;
        assert keys[i] == key;
      }
    }
    if key in keys {
      var i :| 0 <= i < |keys| && keys[i] == key;
      assert keys == keys[..i] + [key] + keys[i + 1..];
      assert key !in keys[..i] && key !in keys[i + 1..];
    }
  }

  // The node is among the first n entries.
  predicate Listed(nodes: seq<NodeEntry>, n: nat, node: Uuid)
    requires n <= |nodes|
  {
    n > 0 && (nodes[n - 1].nodeID == node || Listed(nodes, n - 1, node))
  }

  lemma {:induction false} ListedIff(nodes: seq<NodeEntry>, n: nat, node: Uuid)
    requires n <= |nodes|
    ensures Listed(nodes, n, node) <==> exists i :: 0 <= i < n && nodes[i].nodeID == node
  {
    if n > 0 {
      ListedIff(nodes, n - 1, node);
    }
  }

  lemma {:induction false} EnumerateCounts(w: World, nodes: seq<NodeEntry>, n: nat, key: StreamKey)
    requires WellFormed(w) && Describes(w, nodes) && n <= |nodes|
    ensures multiset(Enumerate(nodes[..n]))[key] == if IsLive(w, key) && Listed(nodes, n, key.nodeID) then 1 else 0
  {
    if n > 0 {
      EnumerateCounts(w, nodes, n - 1, key);
      KeysOfCounts(w, nodes[n - 1], key);
      EnumerateStep(nodes, n - 1);
      ListedIff(nodes, n - 1, nodes[n - 1].nodeID);
      hide Enumerate, KeysOf, IsLive;
    }
  }

  lemma EnumerateStep(nodes: seq<NodeEntry>, n: nat)
    requires n < |nodes| && (nodes[n].hasData || nodes[n].streams == [])
    ensures multiset(Enumerate(nodes[..n + 1])) == multiset(Enumerate(nodes[..n])) + multiset(KeysOf(nodes[n]))
  {
    assert nodes[..n + 1][..n] == nodes[..n];
    assert Enumerate(nodes[..n + 1]) == Enumerate(nodes[..n]) + KeysOf(nodes[n]);
  }

  // A new listener learns about every live stream, once.
  lemma EnumerateIsLive(w: World, nodes: seq<NodeEntry>, key: StreamKey)
    requires WellFormed(w) && Describes(w, nodes)
    ensures multiset(Enumerate(nodes))[key] == if IsLive(w, key) then 1 else 0
  {
    EnumerateCounts(w, nodes, |nodes|, key);
    ListedIff(nodes, |nodes|, key.nodeID);
    assert nodes[..|nodes|] == nodes;
  }

  // The index of the frame model that stands for a listener's vectors.
  function IndexOf(first: bool, st: Streams): Index { Index(first, multiset(Keys(st.All()))) }

  lemma IndexCounts(first: bool, st: Streams, key: StreamKey)
    ensures IndexOf(first, st).keys[key] == CountIn(st, key)
  {
    KeysConcat(st.active, st.inactive);
    KeysConcat(st.active + st.inactive, st.skipped);
  }

  /** The frame model's mix is what PrepareMix ensures about the keys of the vectors. */
  lemma PrepareMixIsMixIndex(w: World, nodes: seq<NodeEntry>, first: bool, before: Streams, after: Streams)
    requires WellFormed(w) && Describes(w, nodes)
    requires KeysKept(w.removals, before, if first then w.added else Enumerate(nodes), after)
    ensures MixIndex(w, IndexOf(first, before), IndexOf(true, after))
  {
    forall key ensures IndexOf(true, after).keys[key] == Remaining(w.removals,
      IndexOf(first, before).keys[key] +
        (if first then multiset(w.added)[key] else if IsLive(w, key) then 1 else 0), key)
    {
      IndexCounts(first, before, key);
      IndexCounts(true, after, key);
      EnumerateIsLive(w, nodes, key);
      hide IndexOf, CountIn, Enumerate, IsLive, ShouldBeRemoved, Describes, WellFormed;
    }
  }

  /** The precondition of PrepareMix holds in every frame of a continuously mixed listener: whatever
      it dereferences exists. */
  lemma MixNeverDangles(s: System, f: Frame, listener: Uuid, nodes: seq<NodeEntry>, ctx: Context, before: Streams,
      ignored: seq<Uuid>, ignoring: seq<Uuid>)
    requires IndexSound(s)
    requires var m := BeforeMix(s, f, listener);
      && m.index == IndexOf(m.index.hasReceivedFirstMix, before)
      && Describes(m.world, nodes) && ctx.removals == m.world.removals
      && forall key :: IsLive(m.world, key) ==> key in ctx.audio
    ensures var m := BeforeMix(s, f, listener);
      NothingDangles(ctx, AddKeys(before, if m.index.hasReceivedFirstMix then m.world.added else Enumerate(nodes),
        ignored, ignoring))
  {
    var m := BeforeMix(s, f, listener);
    UpToTheMix(s, f, listener);
    hide IndexSound, BeforeMix;
    var keys := if m.index.hasReceivedFirstMix then m.world.added else Enumerate(nodes);
    var st := AddKeys(before, keys, ignored, ignoring);
    forall key | CountIn(st, key) > 0 && !ShouldBeRemoved(ctx.removals, key) ensures key in ctx.audio {
      CountedIsLive(m, nodes, before, ignored, ignoring, key);
    }
    CountedAreThere(ctx, st);
  }

  lemma CountedIsLive(m: System, nodes: seq<NodeEntry>, before: Streams, ignored: seq<Uuid>, ignoring: seq<Uuid>,
      key: StreamKey)
    requires FrameInv(m) && Sound(m) && m.world.finished == [] && Describes(m.world, nodes)
    requires m.index == IndexOf(m.index.hasReceivedFirstMix, before) && !ShouldBeRemoved(m.world.removals, key)
    requires var keys := if m.index.hasReceivedFirstMix then m.world.added else Enumerate(nodes);
      CountIn(AddKeys(before, keys, ignored, ignoring), key) > 0
    ensures IsLive(m.world, key)
  {
    var first := m.index.hasReceivedFirstMix;
    assert !Staged(m.world, key);
    hide AddKeys, CountIn, Enumerate, IndexOf, IsLive, ShouldBeRemoved, Staged;
    AddKeysCounts(before, if first then m.world.added else Enumerate(nodes), ignored, ignoring, key);
    IndexCounts(first, before, key);
    EnumerateIsLive(m.world, nodes, key);
  }

  lemma CountedAreThere(ctx: Context, st: Streams)
    requires forall key :: CountIn(st, key) > 0 && !ShouldBeRemoved(ctx.removals, key) ==> key in ctx.audio
    ensures NothingDangles(ctx, st)
  {
    CountedIsPresent(st.active);
    CountedIsPresent(st.inactive);
    CountedIsPresent(st.skipped);
  }

  // The keys that the mix will look up, and how often.
  function LookedUp(w: World, before: Index): (StreamKey -> nat) {
    key => before.keys[key] +
      if before.hasReceivedFirstMix then multiset(w.added)[key] else if IsLive(w, key) then 1 else 0
  }

  /** The mix follows no dangling pointer exactly if every key it looks up and does not drop exists. */
  lemma NothingDanglesIff(w: World, nodes: seq<NodeEntry>, first: bool, ctx: Context, before: Streams,
      ignored: seq<Uuid>, ignoring: seq<Uuid>)
    requires WellFormed(w) && Describes(w, nodes) && ctx.removals == w.removals
    requires forall key :: IsLive(w, key) <==> key in ctx.audio
    ensures NothingDangles(ctx, AddKeys(before, if first then w.added else Enumerate(nodes), ignored, ignoring)) <==>
      forall key :: LookedUp(w, IndexOf(first, before))(key) > 0 && !ShouldBeRemoved(w.removals, key) ==> IsLive(w, key)
  {
    var keys := if first then w.added else Enumerate(nodes);
    var st := AddKeys(before, keys, ignored, ignoring);
    forall key ensures CountIn(st, key) == LookedUp(w, IndexOf(first, before))(key) {
      AddKeysCounts(before, keys, ignored, ignoring, key);
      IndexCounts(first, before, key);
      EnumerateIsLive(w, nodes, key);
    }
    hide AddKeys, ShouldBeRemoved, Enumerate, IsLive, LookedUp;
    DanglingIsCounted(ctx, st);
  }

  lemma DanglingIsCounted(ctx: Context, st: Streams)
    ensures NothingDangles(ctx, st) <==>
      forall key :: CountIn(st, key) > 0 && !ShouldBeRemoved(ctx.removals, key) ==> key in ctx.audio
  {
    DanglingInOne(ctx, st.active);
    DanglingInOne(ctx, st.inactive);
    DanglingInOne(ctx, st.skipped);
    hide NoDangling, ShouldBeRemoved, Occurs;
  }

  lemma DanglingInOne(ctx: Context, xs: seq<Stream>)
    ensures NoDangling(ctx, xs) <==>
      forall key :: Occurs(xs, key) > 0 && !ShouldBeRemoved(ctx.removals, key) ==> key in ctx.audio
  {
    CountedIsPresent(xs);
    if NoDangling(ctx, xs) {
      forall key | Occurs(xs, key) > 0 && !ShouldBeRemoved(ctx.removals, key) ensures key in ctx.audio {
        assert key in Keys(xs);
        var i :| 0 <= i < |xs| && Keys(xs)[i] == key;
        assert xs[i].key == key;
      }
    }
  }

  /** What a stale index costs: a stream that goes in a frame in which the listener is not mixed makes
      the listener's next mix follow a dangling pointer, unless the stream is back by then, a matching
      removal is staged, or the index was reset. */
  lemma UnmixedStopDangles(s: System, f: Frame, t: System, g: Frame, listener: Uuid, key: StreamKey,
      nodes: seq<NodeEntry>, ctx: Context, before: Streams, ignored: seq<Uuid>, ignoring: seq<Uuid>)
    requires IndexExact(s) && FrameStep(s, f, listener, t) && !IsMixed(BeforeMix(s, f, listener), f, listener)
    requires s.index.hasReceivedFirstMix && IsLive(s.world, key) && !IsLive(t.world, key)
    requires var m := BeforeMix(t, g, listener);
      && m.index.hasReceivedFirstMix && m.index == IndexOf(true, before) && WellFormed(m.world)
      && !IsLive(m.world, key) && !ShouldBeRemoved(m.world.removals, key)
      && Describes(m.world, nodes) && ctx.removals == m.world.removals
      && forall k :: IsLive(m.world, k) <==> k in ctx.audio
    ensures !NothingDangles(ctx, AddKeys(before, BeforeMix(t, g, listener).world.added, ignored, ignoring))
  {
    var m := BeforeMix(t, g, listener);
    UnmixedKeepsIndex(s, f, listener, t);
    EventsKeepOrResetIndex(BeforeEvents(t, g), g.events, listener);
    assert LookedUp(m.world, m.index)(key) > 0;
    NothingDanglesIff(m.world, nodes, true, ctx, before, ignored, ignoring);
  }

  /** An injector that stops while the listener has no active socket is such a stream. */
  lemma StoppedWhileUnmixedDangles(s: System, f: Frame, t: System, g: Frame)
    requires s == System(World(map[1 := NodeState(1, [0]), 2 := NodeState(2, [5])], [], [], Removals([], [])),
                         Index(true, multiset{StreamKey(1, 1, 0), StreamKey(2, 2, 5)}))
    requires f == Frame([StopStream(2, 5)], [], false) && g == Frame([], [], true)
    requires FrameStep(s, f, 1, t)
    ensures IndexExact(s) && NoRestart(f.packets) && !IndexSound(t)
    ensures var m, key := BeforeMix(t, g, 1), StreamKey(2, 2, 5);
      IsMixed(m, g, 1) && LookedUp(m.world, m.index)(key) == 1 && !ShouldBeRemoved(m.world.removals, key) &&
        !IsLive(m.world, key)
  {
    TwoStreamsAreExact(s);
    OnePacket(BeginFrame(s.world), StopStream(2, 5));
    WithoutOnly(5);
    hide ApplyPackets, WithoutStreams;
    var key := StreamKey(2, 2, 5);
    assert !IsLive(t.world, key) && t.index.keys[key] == 1;
  }

  lemma CountedIsPresent(xs: seq<Stream>)
    ensures forall i :: 0 <= i < |xs| ==> Occurs(xs, xs[i].key) > 0
  {
    forall i | 0 <= i < |xs| ensures Occurs(xs, xs[i].key) > 0 {
      assert Keys(xs)[i] == xs[i].key;
    }
  }
}
