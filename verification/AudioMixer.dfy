/** The per-client data of the audio mixer and the worker that prepares a listener's mix, with the
    vectors they update in place (AudioMixerClientData.cpp, AudioMixerWorker.cpp). */
module AudioMixer {
  import opened MixStreams

  // ---------- the streams of one client ----------

  // push_back unless it is there already
  function WithStream(list: seq<Uuid>, id: Uuid): seq<Uuid> {
    if id in list then list else list + [id]
  }

  // erases every stream whose ID is in the set; IDs are unique, so a singleton erases one stream
  function WithoutStreams(list: seq<Uuid>, ids: set<Uuid>): seq<Uuid> {
    if list == [] then [] else
      var rest := WithoutStreams(list[..|list| - 1], ids);
      if list[|list| - 1] in ids then rest else rest + [list[|list| - 1]]
  }

  ghost predicate NoDuplicates<T>(xs: seq<T>) {
    forall i, j :: 0 <= i < j < |xs| ==> xs[i] != xs[j]
  }

  lemma {:induction false} WithoutStreamsFacts(list: seq<Uuid>, ids: set<Uuid>)
    ensures forall x :: x in WithoutStreams(list, ids) <==> x in list && x !in ids
    ensures NoDuplicates(list) ==> NoDuplicates(WithoutStreams(list, ids))
  {
    if list != [] {
      var n := |list| - 1;
      WithoutStreamsFacts(list[..n], ids);
      assert list == list[..n] + [list[n]];
      if NoDuplicates(list) {
        assert list[n] !in list[..n];
      }
    }
  }

  // find_if and erase: the first occurrence goes
  lemma {:induction false} EraseOne(list: seq<Uuid>, i: nat)
    requires i < |list| && NoDuplicates(list)
    ensures WithoutStreams(list, {list[i]}) == list[..i] + list[i + 1..]
  {
    var n := |list| - 1;
    if i == n {
      NoneErased(list[..n], list[n]);
    } else {
      EraseOne(list[..n], i);
      assert list[..n][i + 1..] + [list[n]] == list[i + 1..];
    }
  }

  lemma {:induction false} NoneErased(list: seq<Uuid>, id: Uuid)
    requires id !in list
    ensures WithoutStreams(list, {id}) == list
  {
    if list != [] {
      assert list == list[..|list| - 1] + [list[|list| - 1]];
      NoneErased(list[..|list| - 1], id);
    }
  }

  // The listener's ignore list after a request: null and the listener itself are passed over.
  function AfterIgnoreRequest(list: seq<Uuid>, nodes: seq<Uuid>, addToIgnore: bool, self: Uuid): (r: seq<Uuid>)
    ensures forall n :: n in r <==> if n in nodes && n != 0 && n != self then addToIgnore else n in list
  {
    if nodes == [] then list
    else
      var n, before := nodes[|nodes| - 1], AfterIgnoreRequest(list, nodes[..|nodes| - 1], addToIgnore, self);
      assert nodes == nodes[..|nodes| - 1] + [n];
      WithoutStreamsFacts(before, {n});
      if n == 0 || n == self then before
      else if addToIgnore then WithStream(before, n)
      else WithoutStreams(before, {n})
  }

  class AudioMixerClientData {
    const nodeID: Uuid
    const localID: LocalID
    var audioStreams: seq<Uuid>            // stream IDs; the microphone has the null ID
    // the index of all streams, for this listener
    var active: seq<Stream>
    var inactive: seq<Stream>
    var skipped: seq<Stream>
    var hasReceivedFirstMix: bool
    // who this listener ignores (kept on its Node) and who ignores it, with the staged changes
    var ignoredNodeIDs: seq<Uuid>
    var ignoringNodeIDs: seq<Uuid>
    var newIgnored: seq<Uuid>
    var newUnignored: seq<Uuid>
    var newIgnoring: seq<Uuid>
    var newUnignoring: seq<Uuid>
    var soloed: seq<Uuid>
    var requestsDomainListData: bool

    constructor (nodeID: Uuid, localID: LocalID)
      ensures this.nodeID == nodeID && this.localID == localID
      ensures audioStreams == [] && Index() == Streams([], [], []) && !hasReceivedFirstMix
      ensures ignoredNodeIDs == [] && ignoringNodeIDs == []
      ensures newIgnored == [] && newUnignored == [] && newIgnoring == [] && newUnignoring == []
      ensures soloed == [] && !requestsDomainListData
    {
      this.nodeID, this.localID := nodeID, localID;
      audioStreams, active, inactive, skipped, hasReceivedFirstMix := [], [], [], [], false;
      ignoredNodeIDs, ignoringNodeIDs := [], [];
      newIgnored, newUnignored, newIgnoring, newUnignoring := [], [], [], [];
      soloed, requestsDomainListData := [], false;
    }

    function Index(): Streams
      reads this
    {
      Streams(active, inactive, skipped)
    }

    function ContextFor(canKick: bool, ignoreBoxEnabled: bool, removals: Removals,
        audio: map<StreamKey, StreamAudio>): Context
      reads this
    {
      Context(nodeID, localID, newIgnored, newUnignored, newIgnoring, newUnignoring,
              requestsDomainListData && canKick, soloed, ignoreBoxEnabled, removals, audio)
    }

    // ----- ignoring -----

    /** Node::parseIgnoreRequestMessage and the staging that follows it. Whatever mixture of requests
        arrives between two mixes, the staged lists keep relating the sets then and now. */
    method ParseNodeIgnoreRequest(nodes: seq<Uuid>, addToIgnore: bool, ghost before: set<Uuid>)
      requires StagedFrom(before, newIgnored, newUnignored, ignoredNodeIDs, nodeID)
      modifies this`ignoredNodeIDs, this`newIgnored, this`newUnignored
      ensures ignoredNodeIDs == AfterIgnoreRequest(old(ignoredNodeIDs), nodes, addToIgnore, nodeID)
      ensures newIgnored == old(newIgnored) + if addToIgnore then nodes else []
      ensures newUnignored == old(newUnignored) + if addToIgnore then [] else nodes
      ensures StagedFrom(before, newIgnored, newUnignored, ignoredNodeIDs, nodeID)
    {
      for i := 0 to |nodes|
        invariant ignoredNodeIDs == AfterIgnoreRequest(old(ignoredNodeIDs), nodes[..i], addToIgnore, nodeID)
        invariant newIgnored == old(newIgnored) && newUnignored == old(newUnignored)
      {
        assert nodes[..i + 1][..i] == nodes[..i];
        if nodes[i] != 0 && nodes[i] != nodeID {
          if addToIgnore {
            if nodes[i] !in ignoredNodeIDs {
              ignoredNodeIDs := ignoredNodeIDs + [nodes[i]];
            }
          } else {
            ignoredNodeIDs := WithoutStreams(ignoredNodeIDs, {nodes[i]});
          }
        }
      }
      assert nodes[..|nodes|] == nodes;
      if addToIgnore {
        newIgnored := newIgnored + nodes;
      } else {
        newUnignored := newUnignored + nodes;
      }
    }

    method IgnoredByNode(node: Uuid, ghost before: set<Uuid>)
      requires StagedFrom(before, newIgnoring, newUnignoring, ignoringNodeIDs, nodeID)
      modifies this`ignoringNodeIDs, this`newIgnoring
      ensures newIgnoring == old(newIgnoring) + [node]
      ensures ignoringNodeIDs == WithStream(old(ignoringNodeIDs), node)
      ensures StagedFrom(before, newIgnoring, newUnignoring, ignoringNodeIDs, nodeID)
    {
      newIgnoring := newIgnoring + [node];
      if node !in ignoringNodeIDs {
        ignoringNodeIDs := ignoringNodeIDs + [node];
      }
    }

    method UnignoredByNode(node: Uuid, ghost before: set<Uuid>)
      requires StagedFrom(before, newIgnoring, newUnignoring, ignoringNodeIDs, nodeID)
      modifies this`ignoringNodeIDs, this`newUnignoring
      ensures newUnignoring == old(newUnignoring) + [node]
      ensures ignoringNodeIDs == WithoutStreams(old(ignoringNodeIDs), {node})
      ensures StagedFrom(before, newIgnoring, newUnignoring, ignoringNodeIDs, nodeID)
    {
      newUnignoring := newUnignoring + [node];
      var kept, i := [], 0;
      while i < |ignoringNodeIDs|
        invariant 0 <= i <= |ignoringNodeIDs|
        invariant kept == WithoutStreams(ignoringNodeIDs[..i], {node})
        invariant ignoringNodeIDs == old(ignoringNodeIDs)
      {
        assert ignoringNodeIDs[..i + 1][..i] == ignoringNodeIDs[..i];
        if ignoringNodeIDs[i] != node {
          kept := kept + [ignoringNodeIDs[i]];
        }
        i := i + 1;
      }
      assert ignoringNodeIDs[..i] == ignoringNodeIDs;
      WithoutStreamsFacts(ignoringNodeIDs, {node});
      ignoringNodeIDs := kept;
    }

    method ClearStagedIgnoreChanges()
      modifies this`newIgnored, this`newUnignored, this`newIgnoring, this`newUnignoring
      ensures newIgnored == newUnignored == newIgnoring == newUnignoring == []
    {
      newIgnored, newUnignored, newIgnoring, newUnignoring := [], [], [], [];
    }

    // ----- stream creation and removal -----

    /** A stream packet creates its stream if it is new, and then reports it as added. */
    method ProcessStreamPacket(streamID: Uuid) returns (newStream: bool)
      requires NoDuplicates(audioStreams)
      modifies this`audioStreams
      ensures audioStreams == WithStream(old(audioStreams), streamID)
      ensures newStream <==> streamID !in old(audioStreams)
      ensures NoDuplicates(audioStreams)
    {
      var i := Find(streamID);
      newStream := i == |audioStreams|;
      if newStream {
        audioStreams := audioStreams + [streamID];
      }
    }

    method Find(streamID: Uuid) returns (i: nat)
      ensures i <= |audioStreams| && streamID !in audioStreams[..i]
      ensures i < |audioStreams| ==> audioStreams[i] == streamID
    {
      i := 0;
      while i < |audioStreams| && audioStreams[i] != streamID
        invariant i <= |audioStreams| && streamID !in audioStreams[..i]
      {
        i := i + 1;
      }
    }

    method ParseStopInjectorPacket(streamID: Uuid) returns (finished: bool)
      requires NoDuplicates(audioStreams)
      modifies this`audioStreams
      ensures audioStreams == WithoutStreams(old(audioStreams), {streamID})
      ensures finished <==> streamID in old(audioStreams)
      ensures NoDuplicates(audioStreams)
    {
      var i := Find(streamID);
      finished := i < |audioStreams|;
      WithoutStreamsFacts(audioStreams, {streamID});
      if finished {
        EraseOne(audioStreams, i);
        audioStreams := audioStreams[..i] + audioStreams[i + 1..];
      } else {
        assert audioStreams[..i] == audioStreams;
        NoneErased(audioStreams, streamID);
      }
    }

    /** Erases the injectors that have been silent for too long, and reports each as finished. */
    method CheckBuffersBeforeFrameSend(expired: set<Uuid>) returns (finished: seq<Uuid>)
      requires NoDuplicates(audioStreams)
      modifies this`audioStreams
      ensures audioStreams == WithoutStreams(old(audioStreams), expired) && NoDuplicates(audioStreams)
      ensures forall x :: x in finished <==> x in old(audioStreams) && x in expired
    {
      finished := [];
      var kept, i := [], 0;
      while i < |audioStreams|
        invariant 0 <= i <= |audioStreams| && audioStreams == old(audioStreams)
        invariant kept == WithoutStreams(audioStreams[..i], expired)
        invariant forall x :: x in finished <==> x in audioStreams[..i] && x in expired
      {
        assert audioStreams[..i + 1][..i] == audioStreams[..i];
        if audioStreams[i] in expired {
          finished := finished + [audioStreams[i]];
        } else {
          kept := kept + [audioStreams[i]];
        }
        i := i + 1;
      }
      assert audioStreams[..i] == audioStreams;
      WithoutStreamsFacts(audioStreams, expired);
      audioStreams := kept;
    }

    /** A killed avatar loses its microphone, and with it the whole index, so that the index is
        built anew if the microphone comes back. */
    method RemoveAgentAvatarAudioStream()
      requires NoDuplicates(audioStreams)
      modifies this`audioStreams, this`active, this`inactive, this`skipped, this`hasReceivedFirstMix
      ensures audioStreams == WithoutStreams(old(audioStreams), {0}) && NoDuplicates(audioStreams)
      ensures 0 in old(audioStreams) ==> Index() == Streams([], [], []) && !hasReceivedFirstMix
      ensures 0 !in old(audioStreams) ==> Index() == old(Index()) && hasReceivedFirstMix == old(hasReceivedFirstMix)
    {
      WithoutStreamsFacts(audioStreams, {0});
      var kept := WithoutStreams(audioStreams, {0});
      if 0 in audioStreams {
        active, inactive, skipped, hasReceivedFirstMix := [], [], [], false;
      } else {
        NoneErased(audioStreams, 0);
      }
      audioStreams := kept;
    }
  }

  // ---------- new streams ----------

  /** A node as the mix enumerates it: nodes without linked data have no streams to offer. */
  datatype NodeEntry = NodeEntry(nodeID: Uuid, localID: LocalID, hasData: bool, streams: seq<Uuid>)

  function KeysOf(node: NodeEntry): seq<StreamKey> {
    seq(|node.streams|, i requires 0 <= i < |node.streams| => StreamKey(node.nodeID, node.localID, node.streams[i]))
  }

  function Enumerate(nodes: seq<NodeEntry>): seq<StreamKey> {
    if nodes == [] then [] else
      var last := nodes[|nodes| - 1];
      Enumerate(nodes[..|nodes| - 1]) + if last.hasData then KeysOf(last) else []
  }

  function NewStream(key: StreamKey, ignored: seq<Uuid>, ignoring: seq<Uuid>): Stream {
    Stream(key, key.nodeID in ignored, key.nodeID in ignoring)
  }

  // The index after the streams with these keys were added: ignored ones go to the skipped streams.
  function AddKeys(st: Streams, keys: seq<StreamKey>, ignored: seq<Uuid>, ignoring: seq<Uuid>): (r: Streams) {
    if keys == [] then st else
      var before := AddKeys(st, keys[..|keys| - 1], ignored, ignoring);
      var s := NewStream(keys[|keys| - 1], ignored, ignoring);
      if s.ignoredByListener || s.ignoringListener then before.(skipped := before.skipped + [s])
      else before.(active := before.active + [s])
  }

  lemma {:induction false} AddKeysConcat(st: Streams, a: seq<StreamKey>, b: seq<StreamKey>, ignored: seq<Uuid>,
      ignoring: seq<Uuid>)
    ensures AddKeys(st, a + b, ignored, ignoring) == AddKeys(AddKeys(st, a, ignored, ignoring), b, ignored, ignoring)
  {
    if b == [] {
      assert a + b == a;
    } else {
      assert (a + b)[..|a + b| - 1] == a + b[..|b| - 1];
      AddKeysConcat(st, a, b[..|b| - 1], ignored, ignoring);
    }
  }

  function CountIn(st: Streams, key: StreamKey): nat {
    Occurs(st.active, key) + Occurs(st.inactive, key) + Occurs(st.skipped, key)
  }

  lemma OccursAppend(xs: seq<Stream>, s: Stream, key: StreamKey)
    ensures Occurs(xs + [s], key) == Occurs(xs, key) + if s.key == key then 1 else 0
  {
    assert (xs + [s])[..|xs|] == xs;
    OccursStep(xs + [s], key);
  }

  lemma {:induction false} AddKeysCounts(st: Streams, keys: seq<StreamKey>, ignored: seq<Uuid>, ignoring: seq<Uuid>,
      key: StreamKey)
    ensures CountIn(AddKeys(st, keys, ignored, ignoring), key) == CountIn(st, key) + multiset(keys)[key]
  {
    if keys != [] {
      var n := |keys| - 1;
      AddKeysCounts(st, keys[..n], ignored, ignoring, key);
      assert keys == keys[..n] + [keys[n]];
      var before := AddKeys(st, keys[..n], ignored, ignoring);
      var s := NewStream(keys[n], ignored, ignoring);
      OccursAppend(before.active, s, key);
      OccursAppend(before.skipped, s, key);
    }
  }

  /** New streams enter as active ones, or as skipped ones if their node is on either side of an ignore. */
  lemma {:induction false} AddKeysPlaces(st: Streams, keys: seq<StreamKey>, ignored: seq<Uuid>, ignoring: seq<Uuid>,
      key: StreamKey)
    ensures AddKeys(st, keys, ignored, ignoring).inactive == st.inactive
    ensures Occurs(AddKeys(st, keys, ignored, ignoring).active, key) == Occurs(st.active, key) +
      if key.nodeID in ignored || key.nodeID in ignoring then 0 else multiset(keys)[key]
  {
    if keys != [] {
      var n := |keys| - 1;
      AddKeysPlaces(st, keys[..n], ignored, ignoring, key);
      assert keys == keys[..n] + [keys[n]];
      OccursAppend(AddKeys(st, keys[..n], ignored, ignoring).active, NewStream(keys[n], ignored, ignoring), key);
      hide Occurs;
    }
  }

  /** New streams enter with the flags of the current ignore sets. */
  lemma {:induction false} AddKeysFlags(ctx: Context, st: Streams, keys: seq<StreamKey>,
      ignored0: set<Uuid>, ignored: seq<Uuid>, ignoring0: set<Uuid>, ignoring: seq<Uuid>)
    requires AllFlagsFrom(ctx, st, ignored0, ignored, ignoring0, ignoring)
    ensures AllFlagsFrom(ctx, AddKeys(st, keys, ignored, ignoring), ignored0, ignored, ignoring0, ignoring)
  {
    if keys != [] {
      var before := AddKeys(st, keys[..|keys| - 1], ignored, ignoring);
      AddKeysFlags(ctx, st, keys[..|keys| - 1], ignored0, ignored, ignoring0, ignoring);
      var after := AddKeys(st, keys, ignored, ignoring);
      forall b, i | 0 <= i < |In(b, after)|
        ensures FlagsFrom(ctx, In(b, after)[i], ignored0, ignored, ignoring0, ignoring)
      {
        if i < |In(b, before)| {
          assert In(b, after)[i] == In(b, before)[i];
        } else {
          assert In(b, after)[i] == NewStream(keys[|keys| - 1], ignored, ignoring);
        }
      }
    }
  }

  /** The flag invariant from one mix to the next: if at the last mix every flag said what the ignore
      sets said then, every flag says what the sets say now exactly if the streams of nodes staged
      both ways settle. */
  lemma FlagsStayCurrentIff(ctx: Context, before: Streams, keys: seq<StreamKey>, order: seq<Stream>,
      ignored0: seq<Uuid>, ignored: seq<Uuid>, ignoring0: seq<Uuid>, ignoring: seq<Uuid>)
    requires AllFlagsAre(ctx, before, ignored0, ignoring0)
    requires StagedFrom((set n | n in ignored0), ctx.newIgnored, ctx.newUnignored, ignored, ctx.nodeID)
    requires StagedFrom((set n | n in ignoring0), ctx.newIgnoring, ctx.newUnignoring, ignoring, ctx.nodeID)
    requires var st := AddKeys(before, keys, ignored, ignoring);
      && NothingDangles(ctx, st) && NoDangling(ctx, order)
      && multiset(Kept(ctx, order)) == multiset(Kept(ctx, ActiveBeforeLastPass(ctx, st)))
    ensures var st := AddKeys(before, keys, ignored, ignoring);
      AllFlagsAre(ctx, MultiPass(ctx, st, order), ignored, ignoring) <==> PassesSettle(ctx, st, ignored, ignoring)
  {
    var was, wasIgnoring := set n | n in ignored0, set n | n in ignoring0;
    forall b, i | 0 <= i < |In(b, before)|
      ensures FlagsFrom(ctx, In(b, before)[i], was, ignored, wasIgnoring, ignoring)
    {
      assert FlagsAre(ctx, In(b, before)[i], ignored0, ignoring0);
    }
    AddKeysFlags(ctx, before, keys, was, ignored, wasIgnoring, ignoring);
    MixSettlesFlagsIff(ctx, AddKeys(before, keys, ignored, ignoring), order, was, ignored, wasIgnoring, ignoring);
  }

  /** The three passes drop exactly the occurrences of removed keys. */
  lemma MultiPassCounts(ctx: Context, st: Streams, order: seq<Stream>, key: StreamKey)
    requires NothingDangles(ctx, st) && NoDangling(ctx, order)
    requires multiset(Kept(ctx, order)) == multiset(Kept(ctx, ActiveBeforeLastPass(ctx, st)))
    ensures CountIn(MultiPass(ctx, st, order), key) == Remaining(ctx.removals, CountIn(st, key), key)
  {
    var first := SkippedPass(ctx, st);
    var mid := InactivePass(ctx, first);
    KeysConcat(st.active, Select(ctx, Active, st.skipped));
    KeysConcat(st.inactive, Select(ctx, Inactive, st.skipped));
    SelectCounts(ctx, st.skipped, key);
    KeysConcat(first.active, Select(ctx, Active, first.inactive));
    KeysConcat(first.skipped, Select(ctx, Skipped, first.inactive));
    SelectCounts(ctx, first.inactive, key);
    KeysConcat(mid.inactive, Select(ctx, Inactive, order));
    KeysConcat(mid.skipped, Select(ctx, Skipped, order));
    SelectCounts(ctx, order, key);
    KeptCounts(ctx, order, key);
    KeptCounts(ctx, mid.active, key);
    SameOccurs(Kept(ctx, order), Kept(ctx, mid.active), key);
    SelectLeavesNoRemoved(ctx, Inactive, first.inactive, key);
    SelectLeavesNoRemoved(ctx, Skipped, st.skipped, key);
    SelectLeavesNoRemoved(ctx, Skipped, first.inactive, key);
  }

  /** The keys of the index after a mix: what it held and what was added, minus what was removed. */
  lemma MixCounts(ctx: Context, before: Streams, keys: seq<StreamKey>, ignored: seq<Uuid>, ignoring: seq<Uuid>,
      st: Streams, order: seq<Stream>)
    requires st == AddKeys(before, keys, ignored, ignoring)
    requires NothingDangles(ctx, st) && NoDangling(ctx, order)
    requires multiset(Kept(ctx, order)) == multiset(Kept(ctx, ActiveBeforeLastPass(ctx, st)))
    ensures KeysKept(ctx.removals, before, keys, MultiPass(ctx, st, order))
  {
    forall key ensures CountIn(MultiPass(ctx, st, order), key) ==
      Remaining(ctx.removals, CountIn(before, key) + multiset(keys)[key], key)
    {
      MultiPassCounts(ctx, st, order, key);
      AddKeysCounts(before, keys, ignored, ignoring, key);
    }
  }

  lemma {:induction false} SameOccurs(xs: seq<Stream>, ys: seq<Stream>, key: StreamKey)
    requires multiset(xs) == multiset(ys)
    ensures Occurs(xs, key) == Occurs(ys, key)
  {
    if xs == [] {
      assert |ys| == |multiset(ys)| == 0;
    } else {
      var j := TakeOut(xs, ys);
      SameOccurs(xs[..|xs| - 1], ys[..j] + ys[j + 1..], key);
      OccursStep(xs, key);
      KeysConcat(ys[..j], ys[j + 1..]);
      KeysConcat(ys[..j], [ys[j]]);
      KeysConcat(ys[..j] + [ys[j]], ys[j + 1..]);
      assert ys == ys[..j] + [ys[j]] + ys[j + 1..];
    }
  }

  lemma SelectLeavesNoRemoved(ctx: Context, b: Bucket, xs: seq<Stream>, key: StreamKey)
    requires NoDangling(ctx, xs)
    ensures ShouldBeRemoved(ctx.removals, key) ==> Occurs(Select(ctx, b, xs), key) == 0
  {
    SelectCounts(ctx, xs, key);
  }

  // ---------- the erase helpers ----------

  function Filter<T>(xs: seq<T>, drop: T -> bool): seq<T> {
    if xs == [] then [] else
      var rest := Filter(xs[..|xs| - 1], drop);
      if drop(xs[|xs| - 1]) then rest else rest + [xs[|xs| - 1]]
  }

  lemma FilterStep<T>(xs: seq<T>, pred: T -> bool, from: nat, i: nat)
    requires from <= i < |xs|
    ensures Filter(xs[from..i + 1], pred) == Filter(xs[from..i], pred) + if pred(xs[i]) then [] else [xs[i]]
  {
    assert xs[from..i + 1][..i - from] == xs[from..i];
  }

  /** Erases from one vector in several segments with different predicates, moving the survivors
      to the front in place. */
  class SegmentedEraseIf<T> {
    const cont: array<T>
    var first: nat    // where the next survivor goes
    var it: nat       // the next element to look at
    ghost const original: seq<T>
    ghost var survivors: seq<T>

    ghost predicate Valid()
      reads this, cont
    {
      && first <= it <= cont.Length == |original|
      && |survivors| == first && (forall k :: 0 <= k < first ==> cont[k] == survivors[k])
      && forall k :: it <= k < cont.Length ==> cont[k] == original[k]
    }

    constructor (cont: array<T>)
      ensures Valid() && this.cont == cont && it == 0 && survivors == [] && original == cont[..]
    {
      this.cont, first, it := cont, 0, 0;
      original, survivors := cont[..], [];
    }

    method IterateTo(last: nat, pred: T -> bool)
      requires Valid() && it <= last <= cont.Length
      modifies this, cont
      ensures Valid() && it == last
      ensures survivors == old(survivors) + Filter(original[old(it)..last], pred)
    {
      ghost var from := it;
      assert original[from..from] == [];
      while it != last
        invariant Valid() && from <= it <= last
        invariant survivors == old(survivors) + Filter(original[from..it], pred)
        decreases last - it
      {
        FilterStep(original, pred, from, it);
        hide Filter;
        MoveOne(cont[it], pred(cont[it]));
      }
    }

    // The body of the loop, with the predicate's answer and the element as the predicate left it.
    method MoveOne(element: T, erased: bool)
      requires Valid() && it < cont.Length
      modifies this, cont
      ensures Valid() && it == old(it) + 1
      ensures survivors == old(survivors) + if erased then [] else [element]
    {
      cont[it] := element;
      if !erased {
        survivors := survivors + [element];
        if first != it {
          cont[first] := cont[it];
        }
        first := first + 1;
      }
      it := it + 1;
    }

    /** The destructor: what is left of the vector. */
    method Finish() returns (rest: seq<T>)
      requires Valid() && it == cont.Length
      ensures rest == survivors
    {
      rest := cont[..first];
    }
  }

  /** Two segments leave exactly the order-preserving concatenation of the two filtered segments. */
  method EraseTwoSegments<T>(cont: array<T>, point: nat, pred1: T -> bool, pred2: T -> bool) returns (rest: seq<T>)
    requires point <= cont.Length
    modifies cont
    ensures rest == Filter(old(cont[..point]), pred1) + Filter(old(cont[point..]), pred2)
  {
    hide Filter;
    var erase := new SegmentedEraseIf(cont);
    erase.IterateTo(point, pred1);
    erase.IterateTo(cont.Length, pred2);
    rest := erase.Finish();
    assert erase.original[0..point] == old(cont[..point]);
    assert erase.original[point..cont.Length] == old(cont[point..]);
  }

  // ---------- the worker ----------

  /** One call of addStream: what was rendered, and whether with its gain or (on its way to the
      skipped streams) with none. */
  datatype Rendering = Rendering(key: StreamKey, audible: bool)

  function Shown(ctx: Context, x: Stream): seq<Rendering>
    requires ShouldBeRemoved(ctx.removals, x.key) || x.key in ctx.audio
  {
    if ShouldBeRemoved(ctx.removals, x.key) then [] else [Rendering(x.key, !ShouldBeSkipped(ctx, x))]
  }

  // An unthrottled frame renders every active stream that is not removed.
  function RenderAll(ctx: Context, xs: seq<Stream>): seq<Rendering>
    requires NoDangling(ctx, xs)
  {
    if xs == [] then [] else RenderAll(ctx, xs[..|xs| - 1]) + Shown(ctx, xs[|xs| - 1])
  }

  lemma RenderAllStep(ctx: Context, xs: seq<Stream>, i: nat)
    requires NoDangling(ctx, xs) && i < |xs|
    ensures RenderAll(ctx, xs[..i + 1]) == RenderAll(ctx, xs[..i]) + Shown(ctx, xs[i])
  {
    assert xs[..i + 1][..i] == xs[..i];
  }

  // A throttled frame renders the streams before the throttle point that are not skipped.
  function RenderUnskipped(ctx: Context, xs: seq<Stream>): (r: seq<Rendering>)
    requires AllLive(ctx, xs)
    ensures |r| <= |xs|
  {
    if xs == [] then [] else
      var x := xs[|xs| - 1];
      RenderUnskipped(ctx, xs[..|xs| - 1]) + if ShouldBeSkipped(ctx, x) then [] else [Rendering(x.key, true)]
  }

  lemma RenderStep(ctx: Context, xs: seq<Stream>, i: nat)
    requires AllLive(ctx, xs) && i < |xs|
    ensures RenderUnskipped(ctx, xs[..i + 1]) ==
      RenderUnskipped(ctx, xs[..i]) + if ShouldBeSkipped(ctx, xs[i]) then [] else [Rendering(xs[i].key, true)]
  {
    assert xs[..i + 1][..i] == xs[..i];
  }

  ghost predicate AllLive(ctx: Context, xs: seq<Stream>) {
    forall i :: 0 <= i < |xs| ==> xs[i].key in ctx.audio && !ShouldBeRemoved(ctx.removals, xs[i].key)
  }

  lemma {:induction false} AllKept(ctx: Context, xs: seq<Stream>)
    requires AllLive(ctx, xs)
    ensures Kept(ctx, xs) == xs
  {
    if xs != [] {
      assert xs == xs[..|xs| - 1] + [xs[|xs| - 1]];
      AllKept(ctx, xs[..|xs| - 1]);
    }
  }

  ghost predicate Descending(xs: seq<Stream>, volume: Stream -> real) {
    forall i, j :: 0 <= i < j < |xs| ==> volume(xs[i]) >= volume(xs[j])
  }

  function InsertAt(ys: seq<Stream>, x: Stream, at: nat): (zs: seq<Stream>)
    requires at <= |ys|
    ensures |zs| == |ys| + 1 && multiset(zs) == multiset(ys) + multiset{x}
    ensures forall k :: 0 <= k < |zs| ==> zs[k] == if k < at then ys[k] else if k == at then x else ys[k - 1]
  {
    assert ys == ys[..at] + ys[at..];
    ys[..at] + [x] + ys[at..]
  }

  lemma InsertKeepsOrder(ys: seq<Stream>, x: Stream, at: nat, volume: Stream -> real)
    requires at <= |ys| && Descending(ys, volume)
    requires forall j :: 0 <= j < at ==> volume(ys[j]) >= volume(x)
    requires at < |ys| ==> volume(x) >= volume(ys[at])
    ensures Descending(InsertAt(ys, x, at), volume)
  {
  }

  // Every stream before the point is at least as loud as every one from it on.
  ghost predicate LoudestFirst(ctx: Context, xs: seq<Stream>, point: nat)
    requires AllLive(ctx, xs)
  {
    forall i, j :: 0 <= i < point <= j < |xs| ==> Volume(ctx, xs[i]) >= Volume(ctx, xs[j])
  }

  /** What the passes leave of the index st: the passes' own result, in an order that is the
      streams' own unless the frame is throttled. A throttled frame renders, of the numToRetain
      loudest streams, those that are not skipped. */
  ghost predicate PassOutcome(ctx: Context, st: Streams, numToRetain: int, after: Streams,
      rendered: seq<Rendering>, order: seq<Stream>)
  {
    && NothingDangles(ctx, st) && NoDangling(ctx, order)
    && after == MultiPass(ctx, st, order)
    && multiset(Kept(ctx, order)) == multiset(Kept(ctx, ActiveBeforeLastPass(ctx, st)))
    && (numToRetain == -1 ==> order == ActiveBeforeLastPass(ctx, st) && rendered == RenderAll(ctx, order))
    && (numToRetain >= 0 ==>
          && AllLive(ctx, order)
          && var point := if numToRetain < |order| then numToRetain else |order|;
            LoudestFirst(ctx, order, point) && rendered == RenderUnskipped(ctx, order[..point]))
  }

  /** A throttled frame renders no more streams than it is to retain. */
  lemma RetainsAtMost(ctx: Context, st: Streams, numToRetain: int, after: Streams, rendered: seq<Rendering>,
      order: seq<Stream>)
    requires PassOutcome(ctx, st, numToRetain, after, rendered, order)
    ensures numToRetain >= 0 ==> |rendered| <= numToRetain
    ensures NothingDangles(ctx, st) && NoDangling(ctx, order) && after == MultiPass(ctx, st, order)
    ensures multiset(Kept(ctx, order)) == multiset(Kept(ctx, ActiveBeforeLastPass(ctx, st)))
  {
  }

  /** The index holds what it held and what was added, minus what was removed. */
  ghost predicate KeysKept(r: Removals, before: Streams, keys: seq<StreamKey>, after: Streams) {
    forall key :: CountIn(after, key) == Remaining(r, CountIn(before, key) + multiset(keys)[key], key)
  }

  lemma ActivePassInSegments(ctx: Context, st: Streams, xs: seq<Stream>, ys: seq<Stream>)
    requires NoDangling(ctx, xs) && NoDangling(ctx, ys)
    ensures NoDangling(ctx, xs + ys)
    ensures ActivePass(ctx, st, xs + ys) == Streams(
      Select(ctx, Active, xs) + Select(ctx, Active, ys),
      st.inactive + Select(ctx, Inactive, xs) + Select(ctx, Inactive, ys),
      st.skipped + Select(ctx, Skipped, xs) + Select(ctx, Skipped, ys))
  {
    SelectConcat(ctx, Active, xs, ys);
    SelectConcat(ctx, Inactive, xs, ys);
    SelectConcat(ctx, Skipped, xs, ys);
    Associative(st.inactive, Select(ctx, Inactive, xs), Select(ctx, Inactive, ys));
    Associative(st.skipped, Select(ctx, Skipped, xs), Select(ctx, Skipped, ys));
    hide Select, NoDangling;
  }

  lemma Associative<T>(a: seq<T>, b: seq<T>, c: seq<T>)
    ensures a + b + c == a + (b + c)
  {
  }

  // What the passes over the new index mean for the old one.
  lemma PassesKeep(ctx: Context, before: Streams, keys: seq<StreamKey>, ignored: seq<Uuid>, ignoring: seq<Uuid>,
      numToRetain: int, after: Streams, rendered: seq<Rendering>, order: seq<Stream>)
    requires PassOutcome(ctx, AddKeys(before, keys, ignored, ignoring), numToRetain, after, rendered, order)
    ensures numToRetain >= 0 ==> |rendered| <= numToRetain
    ensures KeysKept(ctx.removals, before, keys, after)
  {
    var st := AddKeys(before, keys, ignored, ignoring);
    RetainsAtMost(ctx, st, numToRetain, after, rendered, order);
    MixCounts(ctx, before, keys, ignored, ignoring, st, order);
  }

  class AudioMixerWorker {

    /** addStreams: everything that exists for a new listener, otherwise what this frame added. */
    method AddStreams(data: AudioMixerClientData, nodes: seq<NodeEntry>, added: seq<StreamKey>)
      modifies data`active, data`skipped, data`hasReceivedFirstMix
      ensures data.hasReceivedFirstMix
      ensures data.Index() == AddKeys(old(data.Index()),
        if old(data.hasReceivedFirstMix) then added else Enumerate(nodes), data.ignoredNodeIDs, data.ignoringNodeIDs)
    {
      if !data.hasReceivedFirstMix {
        for i := 0 to |nodes|
          invariant data.inactive == old(data.inactive)
          invariant data.Index() == AddKeys(old(data.Index()), Enumerate(nodes[..i]), data.ignoredNodeIDs,
            data.ignoringNodeIDs)
        {
          assert nodes[..i + 1][..i] == nodes[..i];
          if nodes[i].hasData {
            AddKeysConcat(old(data.Index()), Enumerate(nodes[..i]), KeysOf(nodes[i]), data.ignoredNodeIDs,
              data.ignoringNodeIDs);
            AddAll(data, KeysOf(nodes[i]));
          } else {
            assert Enumerate(nodes[..i + 1]) == Enumerate(nodes[..i]);
          }
        }
        assert nodes[..|nodes|] == nodes;
        data.hasReceivedFirstMix := true;
      } else {
        AddAll(data, added);
      }
    }

    method AddAll(data: AudioMixerClientData, keys: seq<StreamKey>)
      modifies data`active, data`skipped
      ensures data.Index() == AddKeys(old(data.Index()), keys, data.ignoredNodeIDs, data.ignoringNodeIDs)
    {
      for i := 0 to |keys|
        invariant data.Index() == AddKeys(old(data.Index()), keys[..i], data.ignoredNodeIDs, data.ignoringNodeIDs)
      {
        assert keys[..i + 1][..i] == keys[..i];
        var ignoredByListener := keys[i].nodeID in data.ignoredNodeIDs;
        var ignoringListener := keys[i].nodeID in data.ignoringNodeIDs;
        if ignoredByListener || ignoringListener {
          data.skipped := data.skipped + [Stream(keys[i], ignoredByListener, ignoringListener)];
        } else {
          data.active := data.active + [Stream(keys[i], false, false)];
        }
      }
      assert keys[..|keys|] == keys;
    }

    method ProcessSkipped(data: AudioMixerClientData, ctx: Context)
      requires NothingDangles(ctx, data.Index())
      modifies data`active, data`inactive, data`skipped
      ensures data.Index() == SkippedPass(ctx, old(data.Index()))
    {
      var kept := [];
      for i := 0 to |data.skipped|
        invariant data.skipped == old(data.skipped)
        invariant data.active == old(data.active) + Select(ctx, Active, data.skipped[..i])
        invariant data.inactive == old(data.inactive) + Select(ctx, Inactive, data.skipped[..i])
        invariant kept == Select(ctx, Skipped, data.skipped[..i])
      {
        SelectStepOn(ctx, Active, old(data.active), data.skipped, i);
        SelectStepOn(ctx, Inactive, old(data.inactive), data.skipped, i);
        SelectStep(ctx, Skipped, data.skipped, i);
        hide Select, Chosen, ShouldBeRemoved;
        var left := EvaluateSkipped(data, ctx, data.skipped[i]);
        kept := kept + left;
      }
      assert data.skipped[..|data.skipped|] == data.skipped;
      data.skipped := kept;
    }

    // The predicate of the pass over the skipped streams on one stream, and what it leaves of it.
    method EvaluateSkipped(data: AudioMixerClientData, ctx: Context, x: Stream) returns (left: seq<Stream>)
      requires ShouldBeRemoved(ctx.removals, x.key) || x.key in ctx.audio
      modifies data`active, data`inactive
      ensures data.active == old(data.active) + Chosen(ctx, Active, x)
      ensures data.inactive == old(data.inactive) + Chosen(ctx, Inactive, x)
      ensures left == Chosen(ctx, Skipped, x)
    {
      if ShouldBeRemoved(ctx.removals, x.key) {
        return [];
      }
      var skip := ShouldBeSkipped(ctx, x);
      var stream := Refresh(ctx, x);
      if skip {
        return [stream];
      }
      if ShouldBeInactive(ctx, stream) {
        data.inactive := data.inactive + [stream];
      } else {
        data.active := data.active + [stream];
      }
      left := [];
    }

    method ProcessInactive(data: AudioMixerClientData, ctx: Context)
      requires NothingDangles(ctx, data.Index())
      modifies data`active, data`inactive, data`skipped
      ensures data.Index() == InactivePass(ctx, old(data.Index()))
    {
      var kept := [];
      for i := 0 to |data.inactive|
        invariant data.inactive == old(data.inactive)
        invariant data.active == old(data.active) + Select(ctx, Active, data.inactive[..i])
        invariant data.skipped == old(data.skipped) + Select(ctx, Skipped, data.inactive[..i])
        invariant kept == Select(ctx, Inactive, data.inactive[..i])
      {
        SelectStepOn(ctx, Active, old(data.active), data.inactive, i);
        SelectStep(ctx, Inactive, data.inactive, i);
        SelectStepOn(ctx, Skipped, old(data.skipped), data.inactive, i);
        hide Select, Chosen, ShouldBeRemoved;
        var left := EvaluateInactive(data, ctx, data.inactive[i]);
        kept := kept + left;
      }
      assert data.inactive[..|data.inactive|] == data.inactive;
      data.inactive := kept;
    }

    method EvaluateInactive(data: AudioMixerClientData, ctx: Context, x: Stream) returns (left: seq<Stream>)
      requires ShouldBeRemoved(ctx.removals, x.key) || x.key in ctx.audio
      modifies data`active, data`skipped
      ensures data.active == old(data.active) + Chosen(ctx, Active, x)
      ensures data.skipped == old(data.skipped) + Chosen(ctx, Skipped, x)
      ensures left == Chosen(ctx, Inactive, x)
    {
      if ShouldBeRemoved(ctx.removals, x.key) {
        return [];
      }
      var skip := ShouldBeSkipped(ctx, x);
      var stream := Refresh(ctx, x);
      left := [];
      if skip {
        data.skipped := data.skipped + [stream];
      } else if !ShouldBeInactive(ctx, stream) {
        data.active := data.active + [stream];
      } else {
        left := [stream];
      }
    }

    method ProcessActive(data: AudioMixerClientData, ctx: Context) returns (rendered: seq<Rendering>)
      requires NoDangling(ctx, data.active)
      modifies data`active, data`inactive, data`skipped
      ensures data.Index() == ActivePass(ctx, old(data.Index()), old(data.active))
      ensures rendered == RenderAll(ctx, old(data.active))
    {
      rendered := [];
      var kept := [];
      for i := 0 to |data.active|
        invariant data.active == old(data.active)
        invariant data.inactive == old(data.inactive) + Select(ctx, Inactive, data.active[..i])
        invariant data.skipped == old(data.skipped) + Select(ctx, Skipped, data.active[..i])
        invariant kept == Select(ctx, Active, data.active[..i])
        invariant rendered == RenderAll(ctx, data.active[..i])
      {
        SelectStep(ctx, Active, data.active, i);
        SelectStepOn(ctx, Inactive, old(data.inactive), data.active, i);
        SelectStepOn(ctx, Skipped, old(data.skipped), data.active, i);
        RenderAllStep(ctx, data.active, i);
        hide Select, Chosen, ShouldBeRemoved, RenderAll, Shown;
        var left, shown := EvaluateUnthrottled(data, ctx, data.active[i]);
        kept := kept + left;
        rendered := rendered + shown;
      }
      assert data.active[..|data.active|] == data.active;
      data.active := kept;
    }

    method EvaluateUnthrottled(data: AudioMixerClientData, ctx: Context, x: Stream)
      returns (left: seq<Stream>, shown: seq<Rendering>)
      requires ShouldBeRemoved(ctx.removals, x.key) || x.key in ctx.audio
      modifies data`inactive, data`skipped
      ensures data.inactive == old(data.inactive) + Chosen(ctx, Inactive, x)
      ensures data.skipped == old(data.skipped) + Chosen(ctx, Skipped, x)
      ensures left == Chosen(ctx, Active, x) && shown == Shown(ctx, x)
    {
      if ShouldBeRemoved(ctx.removals, x.key) {
        return [], [];
      }
      var skip := ShouldBeSkipped(ctx, x);
      var stream := Refresh(ctx, x);
      left, shown := [], [Rendering(stream.key, !skip)];
      if skip {
        data.skipped := data.skipped + [stream];
      } else if ShouldBeInactive(ctx, stream) {
        data.inactive := data.inactive + [stream];
      } else {
        left := [stream];
      }
    }

    /** The throttled last pass: drop removed streams, bring the loudest numToRetain to the front,
        and then sort both segments into the buckets, rendering only the first. */
    method ThrottleActive(data: AudioMixerClientData, ctx: Context, numToRetain: nat)
      returns (rendered: seq<Rendering>, ghost order: seq<Stream>)
      requires NoDangling(ctx, data.active)
      modifies data`active, data`inactive, data`skipped
      ensures multiset(order) == multiset(Kept(ctx, old(data.active)))
      ensures AllLive(ctx, order) && data.Index() == ActivePass(ctx, old(data.Index()), order)
      ensures var point := if numToRetain < |order| then numToRetain else |order|;
        LoudestFirst(ctx, order, point) && rendered == RenderUnskipped(ctx, order[..point])
    {
      var kept := [];
      for i := 0 to |data.active|
        invariant kept == Kept(ctx, data.active[..i])
      {
        assert data.active[..i + 1][..i] == data.active[..i];
        if !ShouldBeRemoved(ctx.removals, data.active[i].key) {
          kept := kept + [data.active[i]];
        }
      }
      assert data.active[..|data.active|] == data.active;
      KeptIsLive(ctx, data.active);
      var point := if numToRetain < |kept| then numToRetain else |kept|;
      var volume := (s: Stream) => if s.key in ctx.audio then Volume(ctx, s) else 0.0;
      var xs := NthElement(kept, volume, point);
      SamePopulation(kept, xs);
      assert LoudestFirst(ctx, xs, point) by {
        assert forall i :: 0 <= i < |xs| ==> volume(xs[i]) == Volume(ctx, xs[i]);
      }
      rendered := ProcessSegments(data, ctx, xs, point);
      order := xs;
    }

    /** The two segments of SegmentedEraseIf over the reordered active streams. */
    method ProcessSegments(data: AudioMixerClientData, ctx: Context, xs: seq<Stream>, point: nat)
      returns (rendered: seq<Rendering>)
      requires AllLive(ctx, xs) && point <= |xs|
      modifies data`active, data`inactive, data`skipped
      ensures data.Index() == ActivePass(ctx, old(data.Index()), xs)
      ensures rendered == RenderUnskipped(ctx, xs[..point])
    {
      var front, back := xs[..point], xs[point..];
      assert xs == front + back;
      ActivePassInSegments(ctx, data.Index(), front, back);
      var erase := VectorOf(xs);
      hide RenderUnskipped, Select, AllLive, NoDangling;
      rendered := BothSegments(data, ctx, erase, front, back);
      var left := erase.Finish();
      data.active := left;
    }

    method BothSegments(data: AudioMixerClientData, ctx: Context, erase: SegmentedEraseIf<Stream>,
        front: seq<Stream>, back: seq<Stream>)
      returns (rendered: seq<Rendering>)
      requires AllLive(ctx, front) && AllLive(ctx, back)
      requires erase.Valid() && erase.it == 0 && erase.survivors == [] && |erase.original| == |front| + |back|
      requires forall k :: 0 <= k < |front| ==> erase.original[k] == front[k]
      requires forall k :: 0 <= k < |back| ==> erase.original[|front| + k] == back[k]
      modifies data`inactive, data`skipped, erase, erase.cont
      ensures erase.Valid() && erase.it == erase.cont.Length
      ensures data.inactive == old(data.inactive) + Select(ctx, Inactive, front) + Select(ctx, Inactive, back)
      ensures data.skipped == old(data.skipped) + Select(ctx, Skipped, front) + Select(ctx, Skipped, back)
      ensures erase.survivors == Select(ctx, Active, front) + Select(ctx, Active, back)
      ensures rendered == RenderUnskipped(ctx, front)
    {
      hide RenderUnskipped, Select;
      rendered := ProcessSegment(data, ctx, erase, front, true);
      assert erase.survivors == Select(ctx, Active, front);
      hide AllLive, NoDangling;
      var none := ProcessSegment(data, ctx, erase, back, false);
    }

    method VectorOf(xs: seq<Stream>) returns (erase: SegmentedEraseIf<Stream>)
      ensures fresh(erase) && fresh(erase.cont) && erase.Valid()
      ensures erase.original == xs && erase.it == 0 && erase.survivors == []
    {
      var cont := new Stream[|xs|](i requires 0 <= i < |xs| => xs[i]);
      assert cont[..] == xs;
      erase := new SegmentedEraseIf(cont);
    }

    /** One segment: its predicate flags the stream in place, moves it to another bucket or lets it
        survive, and renders it before the throttle point. */
    method ProcessSegment(data: AudioMixerClientData, ctx: Context, erase: SegmentedEraseIf<Stream>, xs: seq<Stream>,
        render: bool)
      returns (rendered: seq<Rendering>)
      requires AllLive(ctx, xs) && erase.Valid()
      requires erase.it + |xs| <= |erase.original|
      requires forall k :: 0 <= k < |xs| ==> erase.original[erase.it + k] == xs[k]
      modifies data`inactive, data`skipped, erase, erase.cont
      ensures erase.Valid() && erase.it == old(erase.it) + |xs|
      ensures data.inactive == old(data.inactive) + Select(ctx, Inactive, xs)
      ensures data.skipped == old(data.skipped) + Select(ctx, Skipped, xs)
      ensures erase.survivors == old(erase.survivors) + Select(ctx, Active, xs)
      ensures rendered == if render then RenderUnskipped(ctx, xs) else []
    {
      rendered := [];
      ghost var from := erase.it;
      for i := 0 to |xs|
        invariant erase.Valid() && erase.it == from + i
        invariant data.inactive == old(data.inactive) + Select(ctx, Inactive, xs[..i])
        invariant data.skipped == old(data.skipped) + Select(ctx, Skipped, xs[..i])
        invariant erase.survivors == old(erase.survivors) + Select(ctx, Active, xs[..i])
        invariant rendered == if render then RenderUnskipped(ctx, xs[..i]) else []
      {
        SelectStepOn(ctx, Active, old(erase.survivors), xs, i);
        SelectStepOn(ctx, Inactive, old(data.inactive), xs, i);
        SelectStepOn(ctx, Skipped, old(data.skipped), xs, i);
        RenderStep(ctx, xs, i);
        assert erase.original[from + i] == xs[i];
        hide Select, RenderUnskipped, ShouldBeRemoved, Chosen, ShouldBeSkipped;
        var shown := ProcessOne(data, ctx, erase, xs[i], render);
        rendered := rendered + shown;
      }
      assert xs[..|xs|] == xs;
    }

    method ProcessOne(data: AudioMixerClientData, ctx: Context, erase: SegmentedEraseIf<Stream>, ghost x: Stream,
        render: bool)
      returns (shown: seq<Rendering>)
      requires erase.Valid() && erase.it < |erase.original| && erase.original[erase.it] == x
      requires x.key in ctx.audio && !ShouldBeRemoved(ctx.removals, x.key)
      modifies data`inactive, data`skipped, erase, erase.cont
      ensures erase.Valid() && erase.it == old(erase.it) + 1
      ensures data.inactive == old(data.inactive) + Chosen(ctx, Inactive, x)
      ensures data.skipped == old(data.skipped) + Chosen(ctx, Skipped, x)
      ensures erase.survivors == old(erase.survivors) + Chosen(ctx, Active, x)
      ensures shown == if render && !ShouldBeSkipped(ctx, x) then [Rendering(x.key, true)] else []
    {
      hide Chosen, ShouldBeSkipped;
      var stream, erased;
      stream, erased, shown := EvaluateActive(data, ctx, erase.cont[erase.it], render);
      erase.MoveOne(stream, erased);
    }

    // The predicate of a segment on one stream.
    method EvaluateActive(data: AudioMixerClientData, ctx: Context, x: Stream, render: bool)
      returns (stream: Stream, erased: bool, shown: seq<Rendering>)
      requires x.key in ctx.audio && !ShouldBeRemoved(ctx.removals, x.key)
      modifies data`inactive, data`skipped
      ensures (if erased then [] else [stream]) == Chosen(ctx, Active, x)
      ensures data.inactive == old(data.inactive) + Chosen(ctx, Inactive, x)
      ensures data.skipped == old(data.skipped) + Chosen(ctx, Skipped, x)
      ensures shown == if render && !ShouldBeSkipped(ctx, x) then [Rendering(x.key, true)] else []
    {
      shown := [];
      var skip := ShouldBeSkipped(ctx, x);
      stream := Refresh(ctx, x);
      if skip {
        data.skipped := data.skipped + [stream];
        return stream, true, shown;
      }
      if render {
        shown := [Rendering(stream.key, true)];
      }
      erased := ShouldBeInactive(ctx, stream);
      if erased {
        data.inactive := data.inactive + [stream];
      }
    }

    /** std::nth_element by descending volume. Only its contract matters to the caller. */
    method NthElement(xs: seq<Stream>, volume: Stream -> real, point: nat) returns (ys: seq<Stream>)
      requires point <= |xs|
      ensures multiset(ys) == multiset(xs) && |ys| == |xs|
      ensures forall i, j :: 0 <= i < point <= j < |ys| ==> volume(ys[i]) >= volume(ys[j])
    {
      ys := [];
      for i := 0 to |xs|
        invariant |ys| == i && multiset(ys) == multiset(xs[..i]) && Descending(ys, volume)
      {
        assert xs[..i + 1] == xs[..i] + [xs[i]];
        ys := Insert(ys, xs[i], volume);
      }
      assert xs[..|xs|] == xs;
    }

    method Insert(ys: seq<Stream>, x: Stream, volume: Stream -> real) returns (zs: seq<Stream>)
      requires Descending(ys, volume)
      ensures multiset(zs) == multiset(ys) + multiset{x} && |zs| == |ys| + 1
      ensures Descending(zs, volume)
    {
      var at := 0;
      while at < |ys| && volume(ys[at]) >= volume(x)
        invariant at <= |ys|
        invariant forall j :: 0 <= j < at ==> volume(ys[j]) >= volume(x)
      {
        at := at + 1;
      }
      zs := InsertAt(ys, x, at);
      InsertKeepsOrder(ys, x, at, volume);
    }

    lemma SamePopulation(xs: seq<Stream>, ys: seq<Stream>)
      requires multiset(xs) == multiset(ys)
      ensures forall y :: y in ys ==> y in xs
    {
      forall y | y in ys ensures y in xs {
        assert y in multiset(ys);
      }
    }

    /** The passes of prepareMix over the index. */
    method MakePasses(data: AudioMixerClientData, ctx: Context, numToRetain: int)
      returns (rendered: seq<Rendering>, ghost order: seq<Stream>)
      requires numToRetain >= -1 && NothingDangles(ctx, data.Index())
      modifies data`active, data`inactive, data`skipped
      ensures PassOutcome(ctx, old(data.Index()), numToRetain, data.Index(), rendered, order)
    {
      ProcessSkipped(data, ctx);
      ProcessInactive(data, ctx);
      order := data.active;
      if numToRetain == -1 {
        rendered := ProcessActive(data, ctx);
      } else {
        rendered, order := ThrottleActive(data, ctx, numToRetain);
        AllKept(ctx, order);
      }
    }

    /** prepareMix. `numToRetain` is -1 in a frame that is not throttled. The caller must not have
        left a stream in the index whose audio is gone without staging its removal; the frame
        invariant says when that is so. */
    method PrepareMix(data: AudioMixerClientData, nodes: seq<NodeEntry>, added: seq<StreamKey>, removals: Removals,
        audio: map<StreamKey, StreamAudio>, canKick: bool, ignoreBoxEnabled: bool, numToRetain: int)
      returns (rendered: seq<Rendering>, ghost ctx: Context, ghost st: Streams, ghost order: seq<Stream>)
      requires numToRetain >= -1
      requires NothingDangles(data.ContextFor(canKick, ignoreBoxEnabled, removals, audio),
        WithNewStreams(data, nodes, added))
      modifies data`active, data`inactive, data`skipped, data`hasReceivedFirstMix,
        data`newIgnored, data`newUnignored, data`newIgnoring, data`newUnignoring
      ensures ctx == old(data.ContextFor(canKick, ignoreBoxEnabled, removals, audio))
      ensures ctx.nodeID == data.nodeID && ctx.localID == data.localID
      ensures ctx.isAdmin <==> data.requestsDomainListData && canKick
      ensures ctx.newIgnored == old(data.newIgnored) && ctx.newUnignored == old(data.newUnignored)
      ensures ctx.newIgnoring == old(data.newIgnoring) && ctx.newUnignoring == old(data.newUnignoring)
      ensures ctx.soloed == data.soloed && ctx.ignoreBoxEnabled == ignoreBoxEnabled
      ensures ctx.removals == removals && ctx.audio == audio
      ensures st == old(WithNewStreams(data, nodes, added))
      ensures PassOutcome(ctx, st, numToRetain, data.Index(), rendered, order)
      ensures numToRetain >= 0 ==> |rendered| <= numToRetain
      ensures KeysKept(removals, old(data.Index()),
        if old(data.hasReceivedFirstMix) then added else Enumerate(nodes), data.Index())
      ensures data.hasReceivedFirstMix
      ensures data.newIgnored == data.newUnignored == data.newIgnoring == data.newUnignoring == []
    {
      hide AddKeys, PassOutcome, KeysKept, NothingDangles, Enumerate;
      var context := data.ContextFor(canKick, ignoreBoxEnabled, removals, audio);
      ghost var before, keys := data.Index(), NewKeys(data, nodes, added);
      ctx, st := context, WithNewStreams(data, nodes, added);
      AddStreams(data, nodes, added);
      assert data.Index() == st;
      rendered, order := MakePasses(data, context, numToRetain);
      PassesKeep(ctx, before, keys, data.ignoredNodeIDs, data.ignoringNodeIDs, numToRetain, data.Index(), rendered,
        order);
      data.ClearStagedIgnoreChanges();
    }

    // The streams a listener learns about: everything, if it is new, or what this frame added.
    function NewKeys(data: AudioMixerClientData, nodes: seq<NodeEntry>, added: seq<StreamKey>): seq<StreamKey>
      reads data
    {
      if data.hasReceivedFirstMix then added else Enumerate(nodes)
    }

    function WithNewStreams(data: AudioMixerClientData, nodes: seq<NodeEntry>, added: seq<StreamKey>): Streams
      reads data
    {
      AddKeys(data.Index(), NewKeys(data, nodes, added), data.ignoredNodeIDs, data.ignoringNodeIDs)
    }
  }
}
