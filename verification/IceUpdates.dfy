/** The ice-server of the domain server: heartbeats with failover to another candidate, and the
    coalesced updates that tell the directory services which ice-server is in use (DomainServer.cpp). */
module IceUpdates {
  import opened Collections

  type Addr = nat

  const FAILOVER_NO_REPLY_ICE_HEARTBEATS := 6

  datatype State = State(
    socket: Option<Addr>,             // _iceServerSocket
    addresses: seq<Addr>,             // _iceServerAddresses
    failed: set<Addr>,                // _failedIceServerAddresses
    noReply: nat,                     // _noReplyICEHeartbeats
    connected: bool,                  // _connectedToICEServer
    inProgress: bool,                 // _sendICEServerAddressToMetaverseAPIInProgress
    redo: bool,                       // _sendICEServerAddressToMetaverseAPIRedo
    outstanding: seq<Option<Addr>>,   // requests without a reply; None stands for "0.0.0.0"
    timers: nat,                      // retry timers that have not fired
    stored: Option<Option<Addr>>)     // what the directory services have, if anything

  const INITIAL := State(None, [], {}, 0, false, false, false, [], 0, None)

  // The address that an update sent now would carry.
  function Current(s: State): Option<Addr> {
    if s.connected then s.socket else None
  }

  // ---------- the steps ----------

  // sendICEServerAddressToMetaverseAPI
  function Sent(s: State): State {
    if s.inProgress then s.(redo := true)
    else s.(inProgress := true, outstanding := s.outstanding + [Current(s)])
  }

  predicate AllFailed(s: State) {
    forall a :: a in s.addresses ==> a in s.failed
  }

  // randomizeICEServerAddress may pick an address that has not failed, or any if all have.
  predicate CanPick(s: State, pick: Addr) {
    pick in s.addresses && (AllFailed(s) || pick !in s.failed)
  }

  // A heartbeat that does not fail over.
  function Beat(s: State, hasKey: bool): State {
    if s.socket.None? || !hasKey then s else s.(noReply := s.noReply + 1)
  }

  function Picked(s: State, pick: Addr, hasKey: bool): State {
    Sent(Beat(s.(failed := if AllFailed(s) then {} else s.failed, socket := Some(pick)), hasKey))
  }

  predicate FailsOver(s: State, hasKey: bool) {
    s.socket.Some? && hasKey && s.noReply >= FAILOVER_NO_REPLY_ICE_HEARTBEATS
  }

  function GivenUp(s: State): State
    requires s.socket.Some?
  {
    Sent(s.(failed := s.failed + {s.socket.value}, socket := None, noReply := 0, connected := false))
  }

  // sendHeartbeatToIceServer: the heartbeat that a failover sends to the new candidate never fails over.
  function HeartbeatSent(s: State, hasKey: bool, pick: Addr): State {
    if FailsOver(s, hasKey) then Picked(GivenUp(s), pick, hasKey) else Beat(s, hasKey)
  }

  function Acknowledged(s: State): State {
    var t := s.(noReply := 0);
    if s.connected then t else Sent(t.(connected := true))
  }

  function HostInfo(s: State, addresses: seq<Addr>, hasKey: bool, pick: Addr): State {
    if addresses == [] then s
    else
      var t := s.(addresses := addresses);
      if s.socket.None? then Picked(t, pick, hasKey) else t
  }

  // The reply to the i-th outstanding update, which the directory services have stored.
  function Succeeded(s: State, i: nat): State
    requires i < |s.outstanding|
  {
    var t := s.(inProgress := false, redo := false, stored := Some(s.outstanding[i]),
                outstanding := s.outstanding[..i] + s.outstanding[i + 1..]);
    if s.redo then Sent(t) else t
  }

  // The update failed for the server; the directory services may have stored it all the same.
  function Failed(s: State, i: nat, stored: bool): State
    requires i < |s.outstanding|
  {
    var t := s.(inProgress := false, redo := false, stored := if stored then Some(s.outstanding[i]) else s.stored,
                outstanding := s.outstanding[..i] + s.outstanding[i + 1..]);
    if s.redo then Sent(t) else t.(timers := t.timers + 1)
  }

  function TimerFired(s: State): State
    requires s.timers > 0
  {
    Sent(s.(timers := s.timers - 1))
  }

  datatype Event =
    | Heartbeat(hasKey: bool, pick: Addr)
    | Ack
    | Denial
    | Lookup(addresses: seq<Addr>, hasKey: bool, pick: Addr)
    | Success(i: nat)
    | Failure(i: nat, stored: bool)
    | Timer

  predicate Enabled(s: State, e: Event) {
    match e
    case Heartbeat(hasKey, pick) => FailsOver(s, hasKey) ==> CanPick(GivenUp(s), pick)
    case Lookup(addresses, hasKey, pick) =>
      addresses != [] && s.socket.None? ==> CanPick(s.(addresses := addresses), pick)
    case Success(i) => i < |s.outstanding|
    case Failure(i, stored) => i < |s.outstanding|
    case Timer => s.timers > 0
    case _ => true
  }

  function Step(s: State, e: Event): State
    requires Enabled(s, e)
  {
    match e
    case Heartbeat(hasKey, pick) => HeartbeatSent(s, hasKey, pick)
    case Ack => Acknowledged(s)
    case Denial => s.(noReply := 0)
    case Lookup(addresses, hasKey, pick) => HostInfo(s, addresses, hasKey, pick)
    case Success(i) => Succeeded(s, i)
    case Failure(i, stored) => Failed(s, i, stored)
    case Timer => TimerFired(s)
  }

  // ---------- updates ----------

  /** At most one update is outstanding, and the redo flag implies one. If it is not set the outstanding
      update carries the current address. */
  predicate Coalesced(s: State) {
    && |s.outstanding| == (if s.inProgress then 1 else 0)
    && (s.redo ==> s.inProgress)
    && (s.inProgress && !s.redo ==> s.outstanding[0] == Current(s))
  }

  predicate Quiet(s: State) {
    s.outstanding == [] && s.timers == 0
  }

  /** With nothing outstanding and no retry timer pending the directory services have the current
      address; what they have never been told of is "0.0.0.0". */
  predicate UpToDate(s: State) {
    Quiet(s) ==> s.stored == Some(Current(s)) || (s.stored == None && Current(s) == None)
  }

  /** A candidate comes from a list that is not empty, and heartbeats are counted up to the failover. */
  predicate Counted(s: State) {
    && s.noReply <= FAILOVER_NO_REPLY_ICE_HEARTBEATS
    && (if s.socket.None? then s.noReply == 0 else s.addresses != [])
  }

  predicate Valid(s: State) {
    Coalesced(s) && UpToDate(s) && Counted(s)
  }

  // Whatever was changed, an update follows at once or after the outstanding one.
  lemma SentIsValid(s: State)
    requires |s.outstanding| == (if s.inProgress then 1 else 0) && (s.redo ==> s.inProgress)
    ensures Coalesced(Sent(s)) && UpToDate(Sent(s)) && Sent(s).inProgress
    ensures Current(Sent(s)) == Current(s)
  {
  }

  lemma PickedIsValid(s: State, pick: Addr, hasKey: bool)
    requires |s.outstanding| == (if s.inProgress then 1 else 0) && (s.redo ==> s.inProgress)
    requires s.noReply == 0 && s.addresses != []
    ensures Valid(Picked(s, pick, hasKey))
  {
  }

  lemma StepKeepsValid(s: State, e: Event)
    requires Valid(s) && Enabled(s, e)
    ensures Valid(Step(s, e))
  {
    match e
    case Heartbeat(hasKey, pick) =>
      if FailsOver(s, hasKey) {
        SentIsValid(s.(failed := s.failed + {s.socket.value}, socket := None, noReply := 0, connected := false));
        PickedIsValid(GivenUp(s), pick, hasKey);
      }
    case Lookup(addresses, hasKey, pick) =>
      if addresses != [] && s.socket.None? {
        PickedIsValid(s.(addresses := addresses), pick, hasKey);
      }
    case _ =>
  }

  /** Every failover and every lookup finds a candidate: the list it picks from is never empty. */
  lemma SomeCandidate(s: State) returns (pick: Addr)
    requires s.addresses != []
    ensures CanPick(s, pick)
  {
    if AllFailed(s) {
      pick := s.addresses[0];
    } else {
      pick :| pick in s.addresses && pick !in s.failed;
    }
  }

  ghost predicate IsRun(states: seq<State>, events: seq<Event>) {
    |states| == |events| + 1 &&
    forall i :: 0 <= i < |events| ==> Enabled(states[i], events[i]) && states[i + 1] == Step(states[i], events[i])
  }

  /** Under every mix of heartbeats, acknowledgements, lookups, successes, failures and timers: at most one
      update is outstanding, and whenever there is none and no retry is pending, the directory services
      have the address in use. */
  lemma {:induction false} RunKeepsValid(states: seq<State>, events: seq<Event>, i: nat)
    requires IsRun(states, events) && states[0] == INITIAL && i < |states|
    ensures Valid(states[i])
  {
    if i > 0 {
      RunKeepsValid(states, events, i - 1);
      StepKeepsValid(states[i - 1], events[i - 1]);
    }
  }

  /** Coalescing loses nothing and repeats at most once: however many changes happened while an update
      was outstanding, its success and that of at most one more leave the directory up to date. */
  lemma TwoSuccessesSettle(s: State)
    requires Valid(s) && s.inProgress
    ensures var t := Succeeded(s, 0);
      && Current(t) == Current(s)
      && (t.inProgress <==> s.redo)
      && (if s.redo then t.outstanding == [Current(s)] && !t.redo && Succeeded(t, 0).outstanding == []
            && Succeeded(t, 0).stored == Some(Current(s))
          else t.outstanding == [] && t.stored == Some(Current(s)))
  {
  }

  /** So whenever no update is outstanding and no retry is pending, the directory services have the server
      that the domain server is connected to, and no address while it is connected to none. */
  lemma QuietMeansTold(states: seq<State>, events: seq<Event>, i: nat)
    requires IsRun(states, events) && states[0] == INITIAL && i < |states|
    requires states[i].outstanding == [] && states[i].timers == 0
    ensures states[i].connected && states[i].socket.Some? ==> states[i].stored == Some(Some(states[i].socket.value))
    ensures !states[i].connected || states[i].socket.None? ==> states[i].stored in {None, Some(None)}
  {
    RunKeepsValid(states, events, i);
  }

  // ---------- what one run of replies does ----------

  function Failures(events: seq<Event>): nat {
    if events == [] then 0
    else Failures(events[..|events| - 1]) + if events[|events| - 1].Failure? then 1 else 0
  }

  function Work(s: State): nat {
    2 * s.timers + (if s.inProgress then 1 else 0) + (if s.redo then 1 else 0)
  }

  lemma ReplyWorks(s: State, e: Event)
    requires Valid(s) && Enabled(s, e) && (e.Timer? || e.Success? || e.Failure?)
    ensures var t := Step(s, e);
      t.socket == s.socket && t.connected == s.connected && Work(t) + 1 <= Work(s) + if e.Failure? then 2 else 0
  {
  }

  lemma RunPrefix(states: seq<State>, events: seq<Event>)
    requires IsRun(states, events) && events != []
    ensures IsRun(states[..|events|], events[..|events| - 1])
    ensures states[..|events|][|events| - 1] == states[|events| - 1]
  {
  }

  /** Updates come to an end: while the server in use does not change, there are at most two replies or timers
      for each retry timer, two for the update that is outstanding, and two for each that fails. With none left the
      directory services have been told of it. */
  lemma {:induction false} UpdatesSettle(states: seq<State>, events: seq<Event>)
    requires IsRun(states, events) && Valid(states[0])
    requires forall e :: e in events ==> e.Timer? || e.Success? || e.Failure?
    ensures var s, t := states[0], states[|events|];
      && t.socket == s.socket && t.connected == s.connected && Valid(t)
      && |events| + Work(t) <= Work(s) + 2 * Failures(events)
      && (t.outstanding == [] && t.timers == 0 ==>
        if s.connected && s.socket.Some? then t.stored == Some(Some(s.socket.value))
        else t.stored in {None, Some(None)})
  {
    if events != [] {
      RunPrefix(states, events);
      UpdatesSettle(states[..|events|], events[..|events| - 1]);
      var before, e := states[|events| - 1], events[|events| - 1];
      ReplyWorks(before, e);
      StepKeepsValid(before, e);
    }
  }

  // ---------- how long a server is kept ----------

  function Heartbeats(events: seq<Event>): nat {
    if events == [] then 0
    else
      var e := events[|events| - 1];
      Heartbeats(events[..|events| - 1]) + if e.Heartbeat? && e.hasKey then 1 else 0
  }

  lemma StepKeepsServer(s: State, e: Event)
    requires Valid(s) && Enabled(s, e) && s.socket.Some? && s.noReply + Heartbeats([e]) <= 6
    ensures var t := Step(s, e);
      && t.socket == s.socket && Valid(t) && (t.connected <==> s.connected || e.Ack?)
      && t.noReply == if e.Ack? || e.Denial? then 0 else s.noReply + Heartbeats([e])
  {
    StepKeepsValid(s, e);
  }

  lemma SixUnanswered(s: State)
    requires Valid(s) && s.socket.Some? && s.noReply == 6
    ensures forall pick: Addr :: Enabled(s, Heartbeat(true, pick)) ==>
      var t := Step(s, Heartbeat(true, pick)); t.socket == Some(pick) && pick in s.addresses && !t.connected
  {
  }

  /** A server is kept while it has left no more than six heartbeats unanswered, and is connected once it has
      acknowledged one. Without an answer the next heartbeat gives it up: another candidate is picked, to which the
      domain server is not connected. */
  lemma {:induction false} ServerIsKept(states: seq<State>, events: seq<Event>)
    requires IsRun(states, events) && Valid(states[0]) && states[0].socket.Some?
    requires states[0].noReply + Heartbeats(events) <= 6
    ensures var s, t := states[0], states[|events|];
      && t.socket == s.socket && Valid(t)
      && (t.connected <==> s.connected || Ack in events)
      && (if Ack in events || Denial in events then t.noReply <= Heartbeats(events)
          else t.noReply == s.noReply + Heartbeats(events))
    ensures var t := states[|events|];
      t.noReply == 6 ==> forall pick: Addr :: Enabled(t, Heartbeat(true, pick)) ==>
        var u := Step(t, Heartbeat(true, pick)); u.socket == Some(pick) && pick in t.addresses && !u.connected
  {
    hide Valid, Step, Enabled;
    if events != [] {
      var n := |events| - 1;
      RunPrefix(states, events);
      ServerIsKept(states[..|events|], events[..n]);
      assert events == events[..n] + [events[n]];
      assert Heartbeats([events[n]]) == Heartbeats(events) - Heartbeats(events[..n]);
      StepKeepsServer(states[n], events[n]);
    }
    if states[|events|].noReply == 6 {
      SixUnanswered(states[|events|]);
    }
  }

  // ---------- where a server comes from ----------

  function LastLookup(events: seq<Event>): seq<Addr> {
    if events == [] then []
    else
      var e := events[|events| - 1];
      if e.Lookup? && e.addresses != [] then e.addresses else LastLookup(events[..|events| - 1])
  }

  // Some lookup found this address.
  predicate Found(events: seq<Event>, a: Addr) {
    exists i :: 0 <= i < |events| && events[i].Lookup? && a in events[i].addresses
  }

  lemma FoundLater(events: seq<Event>, e: Event, a: Addr)
    requires Found(events, a) || (e.Lookup? && a in e.addresses)
    ensures Found(events + [e], a)
  {
    var later := events + [e];
    if Found(events, a) {
      var i :| 0 <= i < |events| && events[i].Lookup? && a in events[i].addresses;
      assert later[i] == events[i];
    } else {
      assert later[|events|] == e;
    }
  }

  lemma {:induction false} LastLookupFound(events: seq<Event>, a: Addr)
    requires a in LastLookup(events)
    ensures Found(events, a)
  {
    var n := |events| - 1;
    assert events == events[..n] + [events[n]];
    if !(events[n].Lookup? && events[n].addresses != []) {
      LastLookupFound(events[..n], a);
    }
    FoundLater(events[..n], events[n], a);
  }

  lemma StepPicks(s: State, e: Event)
    requires Enabled(s, e)
    ensures var t := Step(s, e);
      && t.addresses == (if e.Lookup? && e.addresses != [] then e.addresses else s.addresses)
      && (t.socket.Some? ==> t.socket == s.socket || t.socket.value in t.addresses)
  {
  }

  /** The candidates are those of the last lookup that found any, and a server was found by some lookup. */
  lemma {:induction false} CandidatesAreLookedUp(states: seq<State>, events: seq<Event>)
    requires IsRun(states, events) && states[0] == INITIAL
    ensures states[|events|].addresses == LastLookup(events)
    ensures states[|events|].socket.Some? ==> Found(events, states[|events|].socket.value)
  {
    hide Step, Enabled, Found;
    if events != [] {
      RunPrefix(states, events);
      var n := |events| - 1;
      CandidatesAreLookedUp(states[..|events|], events[..n]);
      StepPicks(states[n], events[n]);
      var t := states[n + 1];
      assert events == events[..n] + [events[n]];
      if t.socket.Some? {
        if t.socket == states[n].socket {
          FoundLater(events[..n], events[n], t.socket.value);
        } else {
          LastLookupFound(events, t.socket.value);
        }
      }
    }
  }

  // ---------- failover ----------

  /** A failover replaces the server that stopped replying by an address that has not failed since the
      failures were last cleared. They are cleared only when no such address is left. */
  lemma FailoverPicksUntried(s: State, pick: Addr)
    requires Valid(s) && FailsOver(s, true) && CanPick(GivenUp(s), pick)
    ensures var t := HeartbeatSent(s, true, pick);
      && t.socket == Some(pick) && !t.connected && t.noReply == 1 && t.inProgress
      && if forall a :: a in s.addresses ==> a in s.failed + {s.socket.value} then t.failed == {}
         else pick != s.socket.value && pick !in s.failed && t.failed == s.failed + {s.socket.value}
  {
  }

  // A failover with the list of addresses unchanged.
  ghost predicate FailedOver(s: State, t: State) {
    exists pick :: Valid(s) && FailsOver(s, true) && CanPick(GivenUp(s), pick) &&
      t.socket == HeartbeatSent(s, true, pick).socket &&
      t.failed == HeartbeatSent(s, true, pick).failed &&
      t.addresses == s.addresses
  }

  // Between one failover and the next nothing but the counter, the connection and the updates change.
  ghost predicate Failovers(states: seq<State>) {
    forall i :: 0 < i < |states| ==> FailedOver(states[i - 1], states[i])
  }

  function Tried(states: seq<State>, n: nat): set<Addr>
    requires n <= |states| && forall i :: 0 <= i < n ==> states[i].socket.Some?
  {
    if n == 0 then {} else Tried(states, n - 1) + {states[n - 1].socket.value}
  }

  function Distinct(addresses: seq<Addr>): set<Addr> {
    set a | a in addresses
  }

  // If some address has not been tried yet, the next candidate has not.
  lemma NextUntried(s: State, t: State, tried: set<Addr>)
    requires FailedOver(s, t) && s.failed + {s.socket.value} == tried && |tried| < |Distinct(s.addresses)|
    ensures t.socket.Some? && t.socket.value in s.addresses && t.socket.value !in tried
    ensures t.failed == tried && t.addresses == s.addresses
  {
    var pick :| FailsOver(s, true) && CanPick(GivenUp(s), pick) && t.socket == HeartbeatSent(s, true, pick).socket &&
      t.failed == HeartbeatSent(s, true, pick).failed && t.addresses == s.addresses;
    if Distinct(s.addresses) <= tried {
      SubsetSize(Distinct(s.addresses), tried);
    }
    FailoverPicksUntried(s, pick);
  }

  lemma {:induction false} TriesUntried(states: seq<State>, n: nat)
    requires Failovers(states) && 0 < n <= |states| && n <= |Distinct(states[0].addresses)|
    requires states[0].failed == {} && states[0].socket.Some? && states[0].socket.value in states[0].addresses
    ensures forall i :: 0 <= i < n ==> states[i].socket.Some?
    ensures Tried(states, n) <= Distinct(states[0].addresses) && |Tried(states, n)| == n
    ensures states[n - 1].failed == Tried(states, n - 1) && states[n - 1].addresses == states[0].addresses
  {
    hide FailedOver;
    if n == 1 {
      assert Tried(states, 1) == {} + {states[0].socket.value};
    } else {
      TriesUntried(states, n - 1);
      NextUntried(states[n - 2], states[n - 1], Tried(states, n - 1));
    }
  }

  /** Of n addresses, each is tried once before any is tried again: n candidates in a row, starting with
      no failures, are all the addresses there are. */
  lemma FailoversTryEveryAddress(states: seq<State>)
    requires Failovers(states) && |states| > 0 && |states| == |Distinct(states[0].addresses)|
    requires states[0].failed == {} && states[0].socket.Some? && states[0].socket.value in states[0].addresses
    ensures forall i :: 0 <= i < |states| ==> states[i].socket.Some?
    ensures Tried(states, |states|) == Distinct(states[0].addresses)
  {
    TriesUntried(states, |states|);
    SubsetSize(Tried(states, |states|), Distinct(states[0].addresses));
  }

  // ---------- the domain server ----------

  function NotFailed(addresses: seq<Addr>, failed: set<Addr>): (candidates: seq<Addr>)
    ensures forall a :: a in candidates <==> a in addresses && a !in failed
  {
    if addresses == [] then []
    else
      var rest := NotFailed(addresses[..|addresses| - 1], failed);
      if addresses[|addresses| - 1] in failed then rest else rest + [addresses[|addresses| - 1]]
  }

  class DomainServer {
    var iceServerSocket: Option<Addr>
    var iceServerAddresses: seq<Addr>
    var failedIceServerAddresses: set<Addr>
    var noReplyICEHeartbeats: nat
    var connectedToICEServer: bool
    var inProgress: bool
    var redo: bool
    ghost var outstanding: seq<Option<Addr>>
    ghost var timers: nat
    ghost var stored: Option<Option<Addr>>

    ghost function Now(): State
      reads this
    {
      State(iceServerSocket, iceServerAddresses, failedIceServerAddresses, noReplyICEHeartbeats, connectedToICEServer,
            inProgress, redo, outstanding, timers, stored)
    }

    constructor ()
      ensures Now() == INITIAL && Valid(Now())
    {
      iceServerSocket, iceServerAddresses, failedIceServerAddresses := None, [], {};
      noReplyICEHeartbeats, connectedToICEServer, inProgress, redo := 0, false, false, false;
      outstanding, timers, stored := [], 0, None;
    }

    method SendICEServerAddressToMetaverseAPI()
      modifies this`inProgress, this`redo, this`outstanding
      ensures Now() == Sent(old(Now()))
      ensures inProgress && (redo <==> old(redo) || old(inProgress))
      ensures outstanding == if old(inProgress) then old(outstanding) else
        old(outstanding) + [if connectedToICEServer then iceServerSocket else None]
    {
      if inProgress {
        redo := true;
        return;
      }
      inProgress := true;
      var address := if !connectedToICEServer || iceServerSocket.None? then None else iceServerSocket;
      outstanding := outstanding + [address];
    }

    method HandleSuccessfulICEServerAddressUpdate(ghost i: nat)
      requires Valid(Now()) && i < |outstanding|
      modifies this
      ensures Now() == Succeeded(old(Now()), i) && Valid(Now())
      ensures stored == Some(old(outstanding)[i]) && (inProgress <==> old(redo)) && !redo && timers == old(timers)
    {
      StepKeepsValid(Now(), Success(i));
      stored := Some(outstanding[i]);
      outstanding := outstanding[..i] + outstanding[i + 1..];
      inProgress := false;
      if redo {
        redo := false;
        SendICEServerAddressToMetaverseAPI();
      }
    }

    method HandleFailedICEServerAddressUpdate(ghost i: nat, ghost storedAnyway: bool)
      requires Valid(Now()) && i < |outstanding|
      modifies this
      ensures Now() == Failed(old(Now()), i, storedAnyway) && Valid(Now())
      ensures (inProgress <==> old(redo)) && !redo && timers == old(timers) + if old(redo) then 0 else 1
    {
      StepKeepsValid(Now(), Failure(i, storedAnyway));
      if storedAnyway {
        stored := Some(outstanding[i]);
      }
      outstanding := outstanding[..i] + outstanding[i + 1..];
      inProgress := false;
      if redo {
        redo := false;
        SendICEServerAddressToMetaverseAPI();
      } else {
        timers := timers + 1;
      }
    }

    method SendHeartbeatToIceServer(hasPrivateKey: bool) returns (ghost pick: Addr)
      requires Counted(Now())
      modifies this
      ensures Now() == HeartbeatSent(old(Now()), hasPrivateKey, pick)
      ensures FailsOver(old(Now()), hasPrivateKey) ==> CanPick(GivenUp(old(Now())), pick)
      decreases noReplyICEHeartbeats, 0
    {
      pick := 0;
      if iceServerSocket.Some? {
        if !hasPrivateKey {
          return;
        }
        noReplyICEHeartbeats := noReplyICEHeartbeats + 1;
        if noReplyICEHeartbeats > FAILOVER_NO_REPLY_ICE_HEARTBEATS {
          failedIceServerAddresses := failedIceServerAddresses + {iceServerSocket.value};
          iceServerSocket := None;
          noReplyICEHeartbeats := 0;
          connectedToICEServer := false;
          SendICEServerAddressToMetaverseAPI();
          assert Now() == GivenUp(old(Now()));
          pick := RandomizeICEServerAddress(hasPrivateKey);
        }
      }
    }

    // The host lookup it triggers is answered later.
    method RandomizeICEServerAddress(hasPrivateKey: bool) returns (ghost pick: Addr)
      requires iceServerSocket.None? && noReplyICEHeartbeats == 0 && iceServerAddresses != []
      modifies this
      ensures CanPick(old(Now()), pick)
      ensures Now() == Picked(old(Now()), pick, hasPrivateKey)
      decreases noReplyICEHeartbeats, 1
    {
      var candidates := [];
      for i := 0 to |iceServerAddresses|
        invariant Now() == old(Now())
        invariant candidates == NotFailed(iceServerAddresses[..i], failedIceServerAddresses)
      {
        assert iceServerAddresses[..i + 1][..i] == iceServerAddresses[..i];
        if iceServerAddresses[i] !in failedIceServerAddresses {
          candidates := candidates + [iceServerAddresses[i]];
        }
      }
      assert iceServerAddresses[..|iceServerAddresses|] == iceServerAddresses;
      assert AllFailed(Now()) <==> candidates == [] by {
        assert candidates == [] <==> forall a :: a in iceServerAddresses ==> a in failedIceServerAddresses by {
          assert candidates != [] ==> candidates[0] in candidates;
        }
      }
      if candidates == [] {
        failedIceServerAddresses := {};
        candidates := iceServerAddresses;
      }
      var indexToTry :| 0 <= indexToTry < |candidates|;
      assert candidates[indexToTry] in candidates;
      iceServerSocket := Some(candidates[indexToTry]);
      pick := candidates[indexToTry];
      ghost var p := SendHeartbeatToIceServer(hasPrivateKey);
      SendICEServerAddressToMetaverseAPI();
    }

    method ProcessICEServerHeartbeatACK()
      requires Valid(Now())
      modifies this
      ensures Now() == Acknowledged(old(Now())) && Valid(Now())
      ensures connectedToICEServer && noReplyICEHeartbeats == 0 && iceServerSocket == old(iceServerSocket)
      ensures !old(connectedToICEServer) ==> inProgress
    {
      StepKeepsValid(Now(), Ack);
      noReplyICEHeartbeats := 0;
      if !connectedToICEServer {
        connectedToICEServer := true;
        SendICEServerAddressToMetaverseAPI();
      }
    }

    method HandleICEHostInfo(addresses: seq<Addr>, hasPrivateKey: bool) returns (ghost pick: Addr)
      requires Valid(Now())
      modifies this
      ensures Now() == HostInfo(old(Now()), addresses, hasPrivateKey, pick) && Valid(Now())
    {
      pick := 0;
      ghost var before := Now();
      if addresses != [] {
        iceServerAddresses := addresses;
        if iceServerSocket.None? {
          pick := RandomizeICEServerAddress(hasPrivateKey);
        }
      }
      StepKeepsValid(before, Lookup(addresses, hasPrivateKey, pick));
    }
  }
}
