/** How the domain server hands out its static assignments: the queue of unfulfilled ones, the
    deployments that wait for their node to connect, and the nodes that hold one
    (DomainServer.cpp, DomainGatekeeper.cpp). */
module Assignments {
  import opened Collections

  type Uuid = nat   // 0 is the null UUID

  datatype Type =
    | AudioMixerType | AvatarMixerType | AgentType | AssetServerType | MessagesMixerType
    | EntityScriptServerType | EntityServerType | AllTypes

  /** `id` is the identity of the shared object. Its UUID, which changes, is kept in a map. */
  datatype Assignment = Assignment(id: nat, kind: Type, pool: string)

  datatype Request = Request(kind: Type, pool: string)

  predicate Eligible(a: Assignment, r: Request) {
    (r.kind == AllTypes || a.kind == r.kind) && ((a.pool == "" && r.pool == "") || a.pool == r.pool)
  }

  // ---------- the queue ----------

  function FirstEligible(q: seq<Assignment>, r: Request): (i: nat)
    ensures i <= |q|
    ensures i < |q| ==> Eligible(q[i], r)
    ensures forall j :: 0 <= j < i ==> !Eligible(q[j], r)
  {
    if q == [] || Eligible(q[0], r) then 0 else 1 + FirstEligible(q[1..], r)
  }

  function Without(q: seq<Assignment>, i: nat): seq<Assignment>
    requires i < |q|
  {
    q[..i] + q[i + 1..]
  }

  // A request takes the first eligible assignment and puts it back at the end.
  function AfterRequest(q: seq<Assignment>, r: Request): seq<Assignment> {
    var i := FirstEligible(q, r);
    if i == |q| then q else Without(q, i) + [q[i]]
  }

  function AfterRequests(q: seq<Assignment>, r: Request, n: nat): seq<Assignment> {
    if n == 0 then q else AfterRequest(AfterRequests(q, r, n - 1), r)
  }

  // The assignments of the queue that are eligible for r (or those that are not), in queue order.
  function Among(q: seq<Assignment>, r: Request, eligible: bool): seq<Assignment> {
    if q == [] then [] else (if Eligible(q[0], r) == eligible then [q[0]] else []) + Among(q[1..], r, eligible)
  }

  lemma {:induction false} AmongConcat(q: seq<Assignment>, s: seq<Assignment>, r: Request, eligible: bool)
    ensures Among(q + s, r, eligible) == Among(q, r, eligible) + Among(s, r, eligible)
  {
    if q == [] {
      assert q + s == s;
    } else {
      assert (q + s)[1..] == q[1..] + s;
      AmongConcat(q[1..], s, r, eligible);
    }
  }

  lemma {:induction false} AmongAll(q: seq<Assignment>, r: Request, eligible: bool)
    requires forall a :: a in q ==> Eligible(a, r) == eligible
    ensures Among(q, r, eligible) == q && Among(q, r, !eligible) == []
  {
    if q != [] {
      assert Eligible(q[0], r) == eligible;
      AmongAll(q[1..], r, eligible);
    }
  }

  lemma {:induction false} AmongNone(q: seq<Assignment>, r: Request, eligible: bool)
    requires Among(q, r, eligible) == []
    ensures forall a :: a in q ==> Eligible(a, r) == !eligible
  {
    if q != [] {
      AmongNone(q[1..], r, eligible);
      assert q == [q[0]] + q[1..];
    }
  }

  lemma AmongTakes(x: Assignment, q: seq<Assignment>, r: Request, eligible: bool)
    requires Eligible(x, r) == eligible
    ensures Among([x] + q, r, eligible) == [x] + Among(q, r, eligible)
  {
    assert ([x] + q)[1..] == q;
  }

  lemma AmongPasses(x: Assignment, q: seq<Assignment>, r: Request, eligible: bool)
    requires Eligible(x, r) != eligible
    ensures Among([x] + q, r, eligible) == Among(q, r, eligible)
  {
    assert ([x] + q)[1..] == q;
  }

  lemma WithoutLater(q: seq<Assignment>, i: nat)
    requires 0 < i < |q|
    ensures Without(q, i) == [q[0]] + Without(q[1..], i - 1) && q[i] == q[1..][i - 1]
  {
  }

  // The first eligible assignment is the head of the eligible ones; without it the rest remains.
  lemma {:induction false} TakeFirst(q: seq<Assignment>, r: Request)
    requires FirstEligible(q, r) < |q|
    ensures Among(q, r, true) == [q[FirstEligible(q, r)]] + Among(Without(q, FirstEligible(q, r)), r, true)
    ensures Among(q, r, false) == Among(Without(q, FirstEligible(q, r)), r, false)
  {
    var i, rest := FirstEligible(q, r), q[1..];
    assert q == [q[0]] + rest;
    if i == 0 {
      assert Without(q, 0) == rest;
      AmongTakes(q[0], rest, r, true);
      AmongPasses(q[0], rest, r, false);
    } else {
      TakeFirst(rest, r);
      WithoutLater(q, i);
      AmongPasses(q[0], rest, r, true);
      AmongPasses(q[0], Without(rest, i - 1), r, true);
      AmongTakes(q[0], rest, r, false);
      AmongTakes(q[0], Without(rest, i - 1), r, false);
    }
    hide Among, Without;
  }

  lemma SomeEligible(q: seq<Assignment>, r: Request)
    ensures Among(q, r, true) == [] <==> FirstEligible(q, r) == |q|
  {
  }

  /** One request rotates the eligible assignments by one and leaves the order of the others alone. */
  lemma RequestRotates(q: seq<Assignment>, r: Request)
    requires Among(q, r, true) != []
    ensures FirstEligible(q, r) < |q| && q[FirstEligible(q, r)] == Among(q, r, true)[0]
    ensures Among(AfterRequest(q, r), r, true) == Among(q, r, true)[1..] + [Among(q, r, true)[0]]
    ensures Among(AfterRequest(q, r), r, false) == Among(q, r, false)
  {
    SomeEligible(q, r);
    TakeFirst(q, r);
    var i := FirstEligible(q, r);
    AmongConcat(Without(q, i), [q[i]], r, true);
    AmongConcat(Without(q, i), [q[i]], r, false);
  }

  lemma RequestKeepsAll(q: seq<Assignment>, r: Request)
    ensures multiset(AfterRequest(q, r)) == multiset(q)
  {
    var i := FirstEligible(q, r);
    if i < |q| {
      assert q == q[..i] + [q[i]] + q[i + 1..];
    }
  }

  function Rotated(s: seq<Assignment>, n: nat): seq<Assignment>
    requires n <= |s|
  {
    s[n..] + s[..n]
  }

  lemma RotateOnce(s: seq<Assignment>, m: nat)
    requires m < |s|
    ensures Rotated(s, m)[1..] + [Rotated(s, m)[0]] == Rotated(s, m + 1)
  {
    assert Rotated(s, m)[1..] == s[m + 1..] + s[..m];
    assert s[..m + 1] == s[..m] + [s[m]];
  }

  lemma RotateAll(s: seq<Assignment>)
    ensures Rotated(s, |s|) == s == Rotated(s, 0)
  {
  }

  lemma {:induction false} MulStep(a: int, b: int, k: nat)
    ensures a < b ==> a * k + k <= b * k
    decreases b - a
  {
    if a < b {
      assert (b - 1) * k + k == b * k;
      MulStep(a, b - 1, k);
    }
  }

  lemma ModuloIs(x: int, d: int, k: nat, m: int)
    requires x == d * k + m && 0 <= m < k
    ensures x % k == m
  {
    MulStep(d, x / k, k);
    MulStep(x / k, d, k);
  }

  // n modulo k, counted up.
  function Turn(n: nat, k: nat): (m: nat)
    requires k > 0
    ensures m < k
  {
    if n == 0 then 0
    else
      var m := Turn(n - 1, k);
      if m == k - 1 then 0 else m + 1
  }

  lemma {:induction false} TurnIsModulo(n: nat, k: nat)
    requires k > 0
    ensures Turn(n, k) == n % k
  {
    if n == 0 {
      ModuloIs(0, 0, k, 0);
    } else {
      TurnIsModulo(n - 1, k);
      var d, m := (n - 1) / k, (n - 1) % k;
      if m == k - 1 {
        assert (d + 1) * k == d * k + k;
        ModuloIs(n, d + 1, k, 0);
      } else {
        ModuloIs(n, d, k, m + 1);
      }
    }
  }

  lemma RotatesOnce(q: seq<Assignment>, r: Request, e: seq<Assignment>, m: nat)
    requires m < |e| && Among(q, r, true) == Rotated(e, m)
    ensures Among(AfterRequest(q, r), r, true) == Rotated(e, if m == |e| - 1 then 0 else m + 1)
    ensures Among(AfterRequest(q, r), r, false) == Among(q, r, false)
  {
    RequestRotates(q, r);
    RotateOnce(e, m);
    RotateAll(e);
    hide Among, AfterRequest, Rotated;
  }

  lemma {:induction false} Rotates(q: seq<Assignment>, r: Request, n: nat)
    requires Among(q, r, true) != []
    ensures Among(AfterRequests(q, r, n), r, true) == Rotated(Among(q, r, true), Turn(n, |Among(q, r, true)|))
    ensures Among(AfterRequests(q, r, n), r, false) == Among(q, r, false)
  {
    var e := Among(q, r, true);
    RotateAll(e);
    hide Among, AfterRequest, Rotated;
    if n > 0 {
      Rotates(q, r, n - 1);
      RotatesOnce(AfterRequests(q, r, n - 1), r, e, Turn(n - 1, |e|));
    }
  }

  /** Requests lose and duplicate nothing. */
  lemma {:induction false} RequestsKeepAll(q: seq<Assignment>, r: Request, n: nat)
    ensures multiset(AfterRequests(q, r, n)) == multiset(q)
  {
    if n > 0 {
      RequestsKeepAll(q, r, n - 1);
      RequestKeepsAll(AfterRequests(q, r, n - 1), r);
    }
  }

  /** Round robin: of k eligible assignments, the n-th of consecutive identical requests (counting
      from 0, with no connects in between) deploys number n modulo k in queue order. The others keep
      their order. */
  lemma RoundRobin(q: seq<Assignment>, r: Request, n: nat)
    requires Among(q, r, true) != []
    ensures var now := AfterRequests(q, r, n);
      && FirstEligible(now, r) < |now|
      && now[FirstEligible(now, r)] == Among(q, r, true)[n % |Among(q, r, true)|]
      && Among(now, r, false) == Among(q, r, false)
  {
    Rotates(q, r, n);
    TurnIsModulo(n, |Among(q, r, true)|);
    RequestRotates(AfterRequests(q, r, n), r);
  }

  function Rest(q: seq<Assignment>, r: Request): seq<Assignment> {
    var i := FirstEligible(q, r);
    if i == |q| then q else Without(q, i)
  }

  // The first requests move the first eligible assignments to the end, one by one. What they have
  // not moved yet is still at the head.
  function Head(q: seq<Assignment>, r: Request, n: nat): seq<Assignment> {
    if n == 0 then q else Rest(Head(q, r, n - 1), r)
  }

  lemma {:induction false} FirstInHead(head: seq<Assignment>, tail: seq<Assignment>, r: Request)
    requires FirstEligible(head, r) < |head|
    ensures FirstEligible(head + tail, r) == FirstEligible(head, r)
  {
    if !Eligible(head[0], r) {
      assert (head + tail)[1..] == head[1..] + tail;
      FirstInHead(head[1..], tail, r);
    } else {
      assert (head + tail)[0] == head[0];
    }
  }

  lemma TakeFromHead(head: seq<Assignment>, tail: seq<Assignment>, r: Request)
    requires FirstEligible(head, r) < |head|
    ensures AfterRequest(head + tail, r) == Rest(head, r) + (tail + [head[FirstEligible(head, r)]])
  {
    var i := FirstEligible(head, r);
    FirstInHead(head, tail, r);
    WithoutInHead(head, tail, i);
  }

  lemma WithoutInHead(head: seq<Assignment>, tail: seq<Assignment>, i: nat)
    requires i < |head|
    ensures Without(head + tail, i) + [(head + tail)[i]] == Without(head, i) + (tail + [head[i]])
  {
    assert (head + tail)[..i] == head[..i];
    assert (head + tail)[i + 1..] == head[i + 1..] + tail;
  }

  lemma {:induction false} LeftInHead(q: seq<Assignment>, r: Request, n: nat)
    requires n <= |Among(q, r, true)|
    ensures Among(Head(q, r, n), r, true) == Among(q, r, true)[n..]
    ensures Among(Head(q, r, n), r, false) == Among(q, r, false)
  {
    if n > 0 {
      LeftInHead(q, r, n - 1);
      var h := Head(q, r, n - 1);
      assert Among(h, r, true) != [];
      SomeEligible(h, r);
      TakeFirst(h, r);
      assert Among(h, r, true)[1..] == Among(q, r, true)[n..];
    }
  }

  // `e` are the eligible assignments; the first m are behind the head already.
  lemma MovesOne(head: seq<Assignment>, r: Request, e: seq<Assignment>, m: nat)
    requires m < |e| && Among(head, r, true) == e[m..]
    ensures AfterRequest(head + e[..m], r) == Rest(head, r) + e[..m + 1]
  {
    RequestRotates(head, r);
    TakeFromHead(head, e[..m], r);
    TakeNext(e, m);
    hide Among, AfterRequest, Rest, FirstEligible;
  }

  lemma TakeNext(e: seq<Assignment>, m: nat)
    requires m < |e|
    ensures e[m..][0] == e[m] && e[..m + 1] == e[..m] + [e[m]]
  {
  }

  lemma {:induction false} MovedToTheEnd(q: seq<Assignment>, r: Request, n: nat)
    requires n <= |Among(q, r, true)|
    ensures AfterRequests(q, r, n) == Head(q, r, n) + Among(q, r, true)[..n]
  {
    hide AfterRequest, Rest, Among;
    if n > 0 {
      LeftInHead(q, r, n - 1);
      MovedToTheEnd(q, r, n - 1);
      MovesOne(Head(q, r, n - 1), r, Among(q, r, true), n - 1);
    }
  }

  /** After as many requests as there are eligible assignments, all of them have been deployed once
      and the queue holds the ineligible ones followed by the eligible ones, each in their order. */
  lemma FullRound(q: seq<Assignment>, r: Request)
    ensures AfterRequests(q, r, |Among(q, r, true)|) == Among(q, r, false) + Among(q, r, true)
  {
    var k := |Among(q, r, true)|;
    MovedToTheEnd(q, r, k);
    LeftInHead(q, r, k);
    AmongNone(Head(q, r, k), r, true);
    AmongAll(Head(q, r, k), r, false);
  }

  // ---------- the state and its invariant ----------

  datatype State = State(
    uuids: map<Assignment, Uuid>,   // the UUID that each static assignment has now
    all: map<Uuid, Assignment>,     // _allAssignments
    queue: seq<Assignment>,         // _unfulfilledAssignments
    pending: map<Uuid, Uuid>,       // per deployed UUID, the UUID its assignment had then
    nodes: map<Uuid, Uuid>,         // per live node, the UUID of the assignment it holds, or null
    last: Uuid)                     // every UUID in use is at most this

  predicate Held(s: State, u: Uuid) {
    exists n :: n in s.nodes && s.nodes[n] == u
  }

  // A static assignment has this UUID now.
  predicate Current(s: State, u: Uuid) {
    u in s.all && s.all[u] in s.uuids && s.uuids[s.all[u]] == u
  }

  // The hash finds every assignment under its current UUID. It may also keep stale keys.
  predicate Named(s: State) {
    && (forall a :: a in s.uuids ==> 0 < s.uuids[a] <= s.last && s.uuids[a] in s.all && s.all[s.uuids[a]] == a)
    && (forall u :: u in s.all ==> u <= s.last && s.all[u] in s.uuids)
  }

  predicate Once(q: seq<Assignment>) {
    forall i, j :: 0 <= i < j < |q| ==> q[i] != q[j]
  }

  predicate NodesKnown(s: State) {
    && (forall n :: n in s.nodes ==> n <= s.last)
    && (forall n :: n in s.nodes && s.nodes[n] != 0 ==> Current(s, s.nodes[n]))
    && (forall n, m :: n in s.nodes && m in s.nodes && s.nodes[n] == s.nodes[m] && s.nodes[n] != 0 ==> n == m)
  }

  predicate PendingKnown(s: State) {
    forall p :: p in s.pending ==> p <= s.last && s.pending[p] <= s.last
  }

  // In the queue, or in transit to a node that is not registered yet, or held by a node: one of them.
  predicate Placed(s: State, transit: set<Assignment>) {
    && Once(s.queue)
    && (forall a :: a in s.queue ==> a in s.uuids && a !in transit)
    && (forall a :: a in transit ==> a in s.uuids)
    && (forall a :: a in s.uuids ==> (Held(s, s.uuids[a]) <==> a !in s.queue && a !in transit))
  }

  /** Every static assignment is in exactly one place: once in the queue, or held by exactly one live
      node under its current UUID. Those in `transit` have left the queue for a node that is not
      registered yet. */
  predicate InvExcept(s: State, transit: set<Assignment>) {
    Named(s) && NodesKnown(s) && PendingKnown(s) && Placed(s, transit)
  }

  predicate Inv(s: State) {
    InvExcept(s, {})
  }

  // ---------- the steps ----------

  // refreshStaticAssignmentAndAddToQueue
  function Refreshed(s: State, a: Assignment): State {
    var u := s.last + 1;
    s.(last := u, uuids := s.uuids[a := u], all := s.all[u := a], queue := s.queue + [a])
  }

  function QueueAll(s: State, order: seq<Assignment>): State {
    if order == [] then s else Refreshed(QueueAll(s, order[..|order| - 1]), order[|order| - 1])
  }

  // nodeKilled: the node is no longer listed, and what it held goes back to the queue.
  function Killed(s: State, node: Uuid): State {
    if node !in s.nodes then s
    else
      var u := s.nodes[node];
      var gone := s.(nodes := s.nodes - {node});
      if u != 0 && u in s.all then Refreshed(gone.(all := s.all - {u}), s.all[u]) else gone
  }

  function KillAll(s: State, replaced: seq<Uuid>): State
    decreases replaced
  {
    if replaced == [] then s else KillAll(Killed(s, replaced[0]), replaced[1..])
  }

  // A new node is registered after the nodes that it replaces were killed.
  function Registered(s: State, u: Uuid, replaced: seq<Uuid>): State {
    var t := KillAll(s.(last := s.last + 1), replaced);
    t.(nodes := t.nodes[s.last + 1 := u])
  }

  function Deployed(s: State, r: Request): State
    requires forall a :: a in s.queue ==> a in s.uuids
  {
    var i := FirstEligible(s.queue, r);
    if i == |s.queue| then s
    else s.(queue := AfterRequest(s.queue, r), last := s.last + 1,
            pending := s.pending[s.last + 1 := s.uuids[s.queue[i]]])
  }

  predicate Matches(s: State, a: Assignment, u: Uuid, kind: Type) {
    a in s.uuids && s.uuids[a] == u && a.kind == kind
  }

  function FirstMatch(s: State, q: seq<Assignment>, u: Uuid, kind: Type): (i: nat)
    ensures i <= |q|
    ensures i < |q| ==> Matches(s, q[i], u, kind)
    ensures forall j :: 0 <= j < i ==> !Matches(s, q[j], u, kind)
  {
    if q == [] || Matches(s, q[0], u, kind) then 0 else 1 + FirstMatch(s, q[1..], u, kind)
  }

  // A node connects for a deployment: it gets the assignment if that is still queued under the UUID
  // it had when it was deployed. In every other case nothing changes.
  function Connected(s: State, connect: Uuid, kind: Type, replaced: seq<Uuid>): State
    requires connect in s.pending
  {
    var u := s.pending[connect];
    var i := FirstMatch(s, s.queue, u, kind);
    if i == |s.queue| then s
    else
      var t := Registered(s.(queue := Without(s.queue, i)), u, replaced);
      t.(pending := t.pending - {connect})
  }

  datatype Event =
    | Ask(r: Request)
    | Connect(connect: Uuid, kind: Type, allowed: bool, replaced: seq<Uuid>)
    | Kill(node: Uuid)

  function Step(s: State, e: Event): State
    requires Inv(s)
  {
    match e
    case Ask(r) => Deployed(s, r)
    case Connect(connect, kind, allowed, replaced) =>
      if connect in s.pending then Connected(s, connect, kind, replaced)
      else if kind == AgentType && allowed then Registered(s, 0, replaced)
      else s
    case Kill(node) => Killed(s, node)
  }

  // ---------- every step keeps the invariant ----------

  lemma HeldOnce(s: State, transit: set<Assignment>, node: Uuid)
    requires InvExcept(s, transit) && node in s.nodes && s.nodes[node] != 0
    ensures var gone := s.(nodes := s.nodes - {node});
      forall u :: u != 0 ==> (Held(gone, u) <==> Held(s, u) && u != s.nodes[node])
  {
    var gone := s.(nodes := s.nodes - {node});
    forall u | u != 0 && Held(s, u) && u != s.nodes[node] ensures Held(gone, u) {
      var n :| n in s.nodes && s.nodes[n] == u;
      assert n in gone.nodes;
    }
  }

  lemma FreeNodeHoldsNothing(s: State, node: Uuid)
    requires node in s.nodes && s.nodes[node] == 0
    ensures forall u :: u != 0 ==> (Held(s.(nodes := s.nodes - {node}), u) <==> Held(s, u))
  {
    var gone := s.(nodes := s.nodes - {node});
    forall u | u != 0 && Held(s, u) ensures Held(gone, u) {
      var n :| n in s.nodes && s.nodes[n] == u;
      assert n in gone.nodes;
    }
  }

  lemma KilledKeepsNodes(s: State, node: Uuid)
    requires Named(s) && NodesKnown(s) && node in s.nodes
    ensures NodesKnown(Killed(s, node))
  {
  }

  lemma KilledKeepsNames(s: State, node: Uuid)
    requires Named(s) && NodesKnown(s) && PendingKnown(s) && node in s.nodes
    ensures Named(Killed(s, node)) && PendingKnown(Killed(s, node))
  {
  }

  // The queue regains what the node held.
  lemma KilledKeepsPlaces(s: State, transit: set<Assignment>, node: Uuid)
    requires InvExcept(s, transit) && node in s.nodes && s.nodes[node] != 0
    ensures Placed(Killed(s, node), transit)
  {
    var u := s.nodes[node];
    var t, gone := Killed(s, node), s.(nodes := s.nodes - {node});
    assert Held(s, u);
    HeldOnce(s, transit, node);
    assert forall v: Uuid :: Held(t, v) <==> Held(gone, v);
    assert t.queue[|s.queue|] == s.all[u];
    assert forall b :: b in t.queue <==> b in s.queue || b == s.all[u];
    assert !Held(s, s.last + 1);
  }

  lemma KilledKeepsInv(s: State, transit: set<Assignment>, node: Uuid)
    requires InvExcept(s, transit)
    ensures InvExcept(Killed(s, node), transit)
    ensures forall a :: a in transit ==> Killed(s, node).uuids[a] == s.uuids[a]
  {
    if node in s.nodes {
      KilledKeepsNames(s, node);
      KilledKeepsNodes(s, node);
      if s.nodes[node] == 0 {
        FreeNodeHoldsNothing(s, node);
      } else {
        assert Held(s, s.nodes[node]);
        KilledKeepsPlaces(s, transit, node);
      }
    }
  }

  lemma {:induction false} KillAllKeepsInv(s: State, transit: set<Assignment>, replaced: seq<Uuid>)
    requires InvExcept(s, transit)
    ensures InvExcept(KillAll(s, replaced), transit)
    ensures forall a :: a in transit ==> KillAll(s, replaced).uuids[a] == s.uuids[a]
    ensures KillAll(s, replaced).nodes.Keys <= s.nodes.Keys && KillAll(s, replaced).last >= s.last
    decreases replaced
  {
    if replaced != [] {
      KilledKeepsInv(s, transit, replaced[0]);
      KillAllKeepsInv(Killed(s, replaced[0]), transit, replaced[1..]);
    }
  }

  lemma HeldAfterAdding(t: State, node: Uuid, u: Uuid)
    requires node !in t.nodes
    ensures forall v: Uuid :: Held(t.(nodes := t.nodes[node := u]), v) <==> Held(t, v) || v == u
  {
    var done := t.(nodes := t.nodes[node := u]);
    assert done.nodes[node] == u;
    forall v: Uuid | Held(t, v) ensures Held(done, v) {
      var n :| n in t.nodes && t.nodes[n] == v;
      assert n in done.nodes && done.nodes[n] == v;
    }
  }

  lemma AddedNodeIsKnown(t: State, transit: set<Assignment>, node: Uuid, u: Uuid)
    requires InvExcept(t, transit) && node !in t.nodes && node <= t.last
    requires u != 0 ==> Current(t, u) && t.all[u] in transit
    ensures NodesKnown(t.(nodes := t.nodes[node := u]))
  {
  }

  lemma AddedKeepsInv(t: State, transit: set<Assignment>, node: Uuid, u: Uuid)
    requires InvExcept(t, transit) && node !in t.nodes && node <= t.last
    requires if u == 0 then transit == {} else Current(t, u) && transit == {t.all[u]}
    ensures Inv(t.(nodes := t.nodes[node := u]))
  {
    AddedNodeIsKnown(t, transit, node, u);
    HeldAfterAdding(t, node, u);
    forall a | a in t.uuids ensures t.uuids[a] == u <==> a in transit {
      assert t.all[t.uuids[a]] == a;
    }
  }

  lemma LaterKeepsInv(s: State, transit: set<Assignment>)
    requires InvExcept(s, transit)
    ensures InvExcept(s.(last := s.last + 1), transit)
    ensures s.last + 1 !in s.nodes
  {
    assert forall v: Uuid :: Held(s.(last := s.last + 1), v) <==> Held(s, v);
  }

  // The node holds the assignment in transit, if there is one.
  lemma RegisteredKeepsInv(s: State, transit: set<Assignment>, u: Uuid, replaced: seq<Uuid>)
    requires InvExcept(s, transit)
    requires if u == 0 then transit == {} else Current(s, u) && transit == {s.all[u]}
    ensures Inv(Registered(s, u, replaced))
  {
    var before := s.(last := s.last + 1);
    LaterKeepsInv(s, transit);
    KillAllKeepsInv(before, transit, replaced);
    assert before.all == s.all && s.last + 1 !in before.nodes;
    hide Named, Placed, PendingKnown, NodesKnown;
    AddedKeepsInv(KillAll(before, replaced), transit, s.last + 1, u);
  }

  lemma WithoutOnce(q: seq<Assignment>, i: nat)
    requires i < |q| && Once(q)
    ensures Once(Without(q, i)) && forall b :: b in Without(q, i) <==> b in q && b != q[i]
  {
  }

  lemma TakenIsInTransit(s: State, i: nat)
    requires Inv(s) && i < |s.queue|
    ensures InvExcept(s.(queue := Without(s.queue, i)), {s.queue[i]})
  {
    WithoutOnce(s.queue, i);
    assert forall v: Uuid :: Held(s.(queue := Without(s.queue, i)), v) <==> Held(s, v);
  }

  lemma ForgettingKeepsInv(t: State, connect: Uuid)
    requires Inv(t)
    ensures Inv(t.(pending := t.pending - {connect}))
  {
    assert forall v: Uuid :: Held(t.(pending := t.pending - {connect}), v) <==> Held(t, v);
  }

  lemma ConnectedKeepsInv(s: State, connect: Uuid, kind: Type, replaced: seq<Uuid>)
    requires Inv(s) && connect in s.pending
    ensures Inv(Connected(s, connect, kind, replaced))
  {
    var u := s.pending[connect];
    var i := FirstMatch(s, s.queue, u, kind);
    if i < |s.queue| {
      TakenIsInTransit(s, i);
      RegisteredKeepsInv(s.(queue := Without(s.queue, i)), {s.queue[i]}, u, replaced);
      ForgettingKeepsInv(Registered(s.(queue := Without(s.queue, i)), u, replaced), connect);
    }
  }

  lemma RequestKeepsOnce(q: seq<Assignment>, r: Request)
    requires Once(q)
    ensures Once(AfterRequest(q, r)) && forall a :: a in AfterRequest(q, r) <==> a in q
  {
    var i := FirstEligible(q, r);
    if i < |q| {
      WithoutOnce(q, i);
      hide Without;
      var rest := Without(q, i);
      assert forall j :: 0 <= j < |rest| ==> rest[j] in rest;
    }
  }

  lemma DeployedKeepsInv(s: State, r: Request)
    requires Inv(s)
    ensures Inv(Deployed(s, r))
  {
    RequestKeepsOnce(s.queue, r);
    assert forall v :: Held(Deployed(s, r), v) <==> Held(s, v);
  }

  /** Whatever happens next, every static assignment stays in exactly one place. */
  lemma StepKeepsInv(s: State, e: Event)
    requires Inv(s)
    ensures Inv(Step(s, e))
  {
    match e
    case Ask(r) => DeployedKeepsInv(s, r);
    case Connect(connect, kind, allowed, replaced) =>
      if connect in s.pending {
        ConnectedKeepsInv(s, connect, kind, replaced);
      } else {
        RegisteredKeepsInv(s, {}, 0, replaced);
      }
    case Kill(node) => KilledKeepsInv(s, {}, node);
  }

  // ---------- what can never happen again ----------

  // Some queued assignment has this UUID.
  predicate Queued(s: State, u: Uuid) {
    exists a :: a in s.queue && a in s.uuids && s.uuids[a] == u
  }

  // From s to t no UUID of s came (back) into the queue and no deployment of s was altered.
  ghost predicate Continues(s: State, t: State) {
    && t.uuids.Keys == s.uuids.Keys && s.last <= t.last
    && (forall u: Uuid :: u <= s.last && Queued(t, u) ==> Queued(s, u))
    && (forall p :: p <= s.last && p in t.pending ==> p in s.pending && t.pending[p] == s.pending[p])
  }

  lemma RefreshedContinues(s: State, a: Assignment)
    requires a in s.uuids
    ensures Continues(s, Refreshed(s, a))
  {
  }

  lemma KilledContinues(s: State, node: Uuid)
    requires Named(s)
    ensures Named(Killed(s, node)) && Continues(s, Killed(s, node))
  {
    if node in s.nodes {
      var u := s.nodes[node];
      var gone := s.(nodes := s.nodes - {node});
      if u != 0 && u in s.all {
        var freed := gone.(all := s.all - {u});
        RefreshedContinues(freed, s.all[u]);
        assert forall v: Uuid :: Queued(freed, v) <==> Queued(s, v);
      } else {
        assert forall v: Uuid :: Queued(gone, v) <==> Queued(s, v);
      }
    }
  }

  lemma {:induction false} KillAllContinues(s: State, replaced: seq<Uuid>)
    requires Named(s)
    ensures Continues(s, KillAll(s, replaced))
    decreases replaced
  {
    if replaced != [] {
      KilledContinues(s, replaced[0]);
      KillAllContinues(Killed(s, replaced[0]), replaced[1..]);
    }
  }

  lemma RegisteredContinues(s: State, u: Uuid, replaced: seq<Uuid>)
    requires Named(s)
    ensures Continues(s, Registered(s, u, replaced))
  {
    var before := s.(last := s.last + 1);
    KillAllContinues(before, replaced);
    var t := KillAll(before, replaced);
    var done := t.(nodes := t.nodes[s.last + 1 := u]);
    assert forall v: Uuid :: Queued(done, v) ==> Queued(t, v);
    assert forall v: Uuid :: Queued(before, v) ==> Queued(s, v);
  }

  lemma ConnectedContinues(s: State, connect: Uuid, kind: Type, replaced: seq<Uuid>)
    requires Named(s) && connect in s.pending
    ensures Continues(s, Connected(s, connect, kind, replaced))
  {
    var u := s.pending[connect];
    var i := FirstMatch(s, s.queue, u, kind);
    if i < |s.queue| {
      var taken := s.(queue := Without(s.queue, i));
      assert forall v: Uuid :: Queued(taken, v) ==> Queued(s, v);
      RegisteredContinues(taken, u, replaced);
      var t := Registered(taken, u, replaced);
      assert forall v: Uuid :: Queued(t.(pending := t.pending - {connect}), v) ==> Queued(t, v);
    }
  }

  lemma StepContinues(s: State, e: Event)
    requires Inv(s)
    ensures Continues(s, Step(s, e))
  {
    match e
    case Ask(r) =>
      RequestKeepsOnce(s.queue, r);
      assert forall u: Uuid :: Queued(Deployed(s, r), u) ==> Queued(s, u);
    case Connect(connect, kind, allowed, replaced) =>
      if connect in s.pending {
        ConnectedContinues(s, connect, kind, replaced);
      } else {
        RegisteredContinues(s, 0, replaced);
      }
    case Kill(node) => KilledContinues(s, node);
  }

  // ---------- runs ----------

  function Run(s: State, events: seq<Event>): (t: State)
    requires Inv(s)
    ensures Inv(t)
    decreases events
  {
    if events == [] then s
    else
      StepKeepsInv(s, events[0]);
      Run(Step(s, events[0]), events[1..])
  }

  lemma {:induction false} RunContinues(s: State, events: seq<Event>)
    requires Inv(s)
    ensures Continues(s, Run(s, events))
    decreases events
  {
    if events != [] {
      StepKeepsInv(s, events[0]);
      StepContinues(s, events[0]);
      RunContinues(Step(s, events[0]), events[1..]);
    }
  }

  predicate ConfigurationOnly(s: State) {
    s.queue == [] && s.nodes == map[] && s.pending == map[] && Named(s)
  }

  lemma RefreshedShape(s: State, a: Assignment)
    requires Named(s) && a in s.uuids && Once(s.queue) && a !in s.queue
    ensures var t := Refreshed(s, a); Named(t) && t.uuids.Keys == s.uuids.Keys && Once(t.queue)
  {
  }

  lemma {:induction false} QueueAllShape(s: State, order: seq<Assignment>)
    requires ConfigurationOnly(s) && Once(order) && forall a :: a in order ==> a in s.uuids
    ensures var t := QueueAll(s, order);
      && t.queue == order && t.nodes == map[] && t.pending == map[]
      && Named(t) && t.uuids.Keys == s.uuids.Keys
  {
    if order != [] {
      var rest, last := order[..|order| - 1], order[|order| - 1];
      QueueAllShape(s, rest);
      var t := QueueAll(s, rest);
      assert order == rest + [last] && last !in rest;
      assert last in t.uuids.Keys by {
        assert last in s.uuids.Keys;
      }
      RefreshedShape(t, last);
      hide Named, Once;
    }
  }

  lemma {:induction false} CountOnce(q: seq<Assignment>, a: Assignment)
    requires Once(q)
    ensures multiset(q)[a] == if a in q then 1 else 0
  {
    if q != [] {
      CountOnce(q[1..], a);
      assert q == [q[0]] + q[1..];
    }
  }

  function Holders(t: State, u: Uuid): set<Uuid> {
    set n | n in t.nodes && t.nodes[n] == u
  }

  lemma InOnePlace(t: State, a: Assignment)
    requires Inv(t) && a in t.uuids
    ensures multiset(t.queue)[a] + |Holders(t, t.uuids[a])| == 1
  {
    CountOnce(t.queue, a);
    if a in t.queue {
      assert !Held(t, t.uuids[a]);
      assert Holders(t, t.uuids[a]) == {};
    } else {
      assert Held(t, t.uuids[a]);
      var n :| n in t.nodes && t.nodes[n] == t.uuids[a];
      assert Holders(t, t.uuids[a]) == {n};
    }
  }

  lemma AllQueued(t: State)
    requires Named(t) && t.nodes == map[] && t.pending == map[]
    requires Once(t.queue) && forall a :: a in t.queue <==> a in t.uuids
    ensures Inv(t)
  {
  }

  lemma StartUp(s: State, order: seq<Assignment>)
    requires ConfigurationOnly(s) && Once(order) && forall b :: b in order <==> b in s.uuids
    ensures Inv(QueueAll(s, order)) && QueueAll(s, order).queue == order
    ensures QueueAll(s, order).uuids.Keys == s.uuids.Keys
  {
    QueueAllShape(s, order);
    var t := QueueAll(s, order);
    assert forall a :: a in t.uuids <==> a in t.uuids.Keys;
    AllQueued(t);
  }

  /** Start-up queues every static assignment once, in whatever order the sort produced, and over
      every run from there each is in exactly one place: once in the queue and held by no node, or not
      in the queue and held, under its current UUID, by exactly one live node. */
  lemma EveryAssignmentIsInOnePlace(s: State, order: seq<Assignment>, events: seq<Event>, a: Assignment)
    requires ConfigurationOnly(s) && Once(order) && forall b :: b in order <==> b in s.uuids
    requires a in s.uuids
    ensures Inv(QueueAll(s, order)) && QueueAll(s, order).queue == order
    ensures a in Run(QueueAll(s, order), events).uuids
    ensures var t := Run(QueueAll(s, order), events); multiset(t.queue)[a] + |Holders(t, t.uuids[a])| == 1
  {
    StartUp(s, order);
    RunContinues(QueueAll(s, order), events);
    InOnePlace(Run(QueueAll(s, order), events), a);
  }

  lemma {:induction false} NoMatch(s: State, q: seq<Assignment>, u: Uuid, kind: Type)
    requires forall a :: a in q ==> !Matches(s, a, u, kind)
    ensures FirstMatch(s, q, u, kind) == |q|
  {
  }

  /** A deployment whose UUID no queued assignment has any more is refused in every later state. */
  lemma StaleDeploymentNeverConnects(s: State, connect: Uuid, events: seq<Event>, e: Event)
    requires Inv(s) && connect in s.pending && !Queued(s, s.pending[connect])
    requires e.Connect? && e.connect == connect
    ensures connect in Run(s, events).pending ==> Step(Run(s, events), e) == Run(s, events)
  {
    var t := Run(s, events);
    RunContinues(s, events);
    if connect in t.pending {
      assert !Queued(t, t.pending[connect]);
      NoMatch(t, t.queue, t.pending[connect], e.kind);
    }
  }

  /** That is the case for all other deployments of an assignment once a node has connected for it... */
  lemma ConnectingUsesUpTheUuid(s: State, connect: Uuid, kind: Type, replaced: seq<Uuid>)
    requires Inv(s) && connect in s.pending && Connected(s, connect, kind, replaced) != s
    ensures !Queued(Connected(s, connect, kind, replaced), s.pending[connect])
  {
    var u := s.pending[connect];
    var i := FirstMatch(s, s.queue, u, kind);
    var taken := s.(queue := Without(s.queue, i));
    WithoutOnce(s.queue, i);
    assert !Queued(taken, u);
    RegisteredContinues(taken, u, replaced);
    var t := Registered(taken, u, replaced);
    assert !Queued(t, u);
    assert forall v: Uuid :: Queued(t.(pending := t.pending - {connect}), v) ==> Queued(t, v);
  }

  /** ...and for all deployments of the assignment that a killed node held, although it is queued
      again: it then has a new UUID. */
  lemma KillingResetsTheUuid(s: State, node: Uuid)
    requires Inv(s) && node in s.nodes && s.nodes[node] != 0
    ensures var t := Killed(s, node);
      && !Queued(t, s.nodes[node]) && t.nodes == s.nodes - {node}
      && t.queue == s.queue + [s.all[s.nodes[node]]]
      && t.uuids[s.all[s.nodes[node]]] > s.last
  {
  }

  // ---------- what is deployed can connect ----------

  /** A request is served with the first queued assignment of its type (or any type) and of its pool: that
      moves to the end of the queue, and the fresh UUID it is deployed under is recorded with the UUID that
      this assignment has. Nothing is deployed only if none fits. */
  lemma RequestServesFirstFit(s: State, r: Request, k: nat)
    requires Inv(s)
    requires k <= |s.queue|
    requires forall j :: 0 <= j < k ==>
      (r.kind != AllTypes && r.kind != s.queue[j].kind) || r.pool != s.queue[j].pool
    requires k < |s.queue| ==> (r.kind == AllTypes || r.kind == s.queue[k].kind) && r.pool == s.queue[k].pool
    ensures k == |s.queue| ==> Deployed(s, r) == s
    ensures k < |s.queue| ==>
      Deployed(s, r) == s.(last := s.last + 1, queue := s.queue[..k] + s.queue[k + 1..] + [s.queue[k]],
                           pending := s.pending[s.last + 1 := s.uuids[s.queue[k]]])
  {
    FirstIs(s.queue, r, k);
  }

  lemma {:induction false} KillAllNodes(s: State, replaced: seq<Uuid>)
    ensures KillAll(s, replaced).nodes == s.nodes - set n | n in replaced
    ensures KillAll(s, replaced).pending == s.pending
    decreases replaced
  {
    if replaced != [] {
      KillAllNodes(Killed(s, replaced[0]), replaced[1..]);
      assert (set n | n in replaced) == {replaced[0]} + set n | n in replaced[1..];
    }
  }

  /** A connect adds one node, which holds what it was registered with, and removes the replaced ones. */
  lemma RegisteredNodes(s: State, u: Uuid, replaced: seq<Uuid>)
    ensures Registered(s, u, replaced).nodes == (s.nodes - set n | n in replaced)[s.last + 1 := u]
    ensures Registered(s, u, replaced).pending == s.pending
  {
    KillAllNodes(s.(last := s.last + 1), replaced);
  }

  lemma ConnectKeepsOthers(s: State, connect: Uuid, kind: Type, replaced: seq<Uuid>)
    requires connect in s.pending && Connected(s, connect, kind, replaced) != s
    ensures Connected(s, connect, kind, replaced).pending == s.pending - {connect}
  {
    var i := FirstMatch(s, s.queue, s.pending[connect], kind);
    RegisteredNodes(s.(queue := Without(s.queue, i)), s.pending[connect], replaced);
  }

  // A deployment stays recorded until the UUID it was made under is queued no more.
  lemma StepKeepsDeployment(s: State, e: Event, u: Uuid)
    requires Inv(s) && u in s.pending
    ensures var t := Step(s, e);
      Queued(t, s.pending[u]) ==> u in t.pending && t.pending[u] == s.pending[u]
  {
    assert PendingKnown(s);
    hide Inv, Queued, Named, NodesKnown, Placed, Connected, Registered;
    match e
    case Connect(connect, kind, allowed, replaced) =>
      if connect !in s.pending {
        RegisteredNodes(s, 0, replaced);
      } else if Connected(s, connect, kind, replaced) != s {
        ConnectKeepsOthers(s, connect, kind, replaced);
        ConnectingUsesUpTheUuid(s, connect, kind, replaced);
      }
    case _ =>
  }

  lemma {:induction false} RunKeepsDeployment(s: State, events: seq<Event>, u: Uuid)
    requires Inv(s) && u in s.pending && Queued(Run(s, events), s.pending[u])
    ensures u in Run(s, events).pending && Run(s, events).pending[u] == s.pending[u]
    decreases events
  {
    if events != [] {
      var t := Step(s, events[0]);
      StepKeepsInv(s, events[0]);
      StepContinues(s, events[0]);
      StepKeepsDeployment(s, events[0], u);
      RunContinues(t, events[1..]);
      hide Named, NodesKnown, Placed, Queued;
      assert PendingKnown(s);
      RunKeepsDeployment(t, events[1..], u);
    }
  }

  // The queued assignment that a deployment names is the one that a connect of its type takes.
  lemma MatchIs(s: State, a: Assignment)
    requires Inv(s) && a in s.queue
    ensures var i := FirstMatch(s, s.queue, s.uuids[a], a.kind); i < |s.queue| && s.queue[i] == a
  {
    var i := FirstMatch(s, s.queue, s.uuids[a], a.kind);
    var j :| 0 <= j < |s.queue| && s.queue[j] == a;
    assert Matches(s, s.queue[j], s.uuids[a], a.kind);
    assert s.all[s.uuids[s.queue[i]]] == s.queue[i];
  }

  lemma InTransitIsCurrent(s: State, a: Assignment)
    requires InvExcept(s, {a}) && a in s.uuids
    ensures s.uuids[a] != 0 && Current(s, s.uuids[a]) && s.all[s.uuids[a]] == a
  {
  }

  lemma TransitIsNamed(s: State, a: Assignment)
    requires InvExcept(s, {a})
    ensures a in s.uuids
  {
  }

  lemma InTransitKeepsUuid(s: State, a: Assignment, replaced: seq<Uuid>)
    requires InvExcept(s, {a}) && a in s.uuids
    ensures var t := Registered(s, s.uuids[a], replaced);
      a in t.uuids && t.uuids[a] == s.uuids[a] && s.last + 1 in t.nodes && t.nodes[s.last + 1] == s.uuids[a]
  {
    hide KillAll, InvExcept;
    LaterKeepsInv(s, {a});
    KillAllKeepsInv(s.(last := s.last + 1), {a}, replaced);
    TransitIsNamed(KillAll(s.(last := s.last + 1), replaced), a);
  }

  lemma HeldIsNotQueued(t: State, a: Assignment, node: Uuid)
    requires Inv(t) && a in t.uuids && node in t.nodes && t.nodes[node] == t.uuids[a]
    ensures a !in t.queue
  {
    assert Held(t, t.uuids[a]);
  }

  // A node that is registered for an assignment in transit holds it afterwards.
  lemma RegisteredHolds(s: State, a: Assignment, replaced: seq<Uuid>)
    requires InvExcept(s, {a}) && a in s.uuids
    ensures var t := Registered(s, s.uuids[a], replaced);
      a in t.uuids && t.uuids[a] == s.uuids[a] && a !in t.queue
  {
    hide *;
    InTransitIsCurrent(s, a);
    InTransitKeepsUuid(s, a, replaced);
    RegisteredKeepsInv(s, {a}, s.uuids[a], replaced);
    HeldIsNotQueued(Registered(s, s.uuids[a], replaced), a, s.last + 1);
  }

  // The node that connects for a queued assignment holds it afterwards.
  lemma ConnectTakes(s: State, u: Uuid, a: Assignment, replaced: seq<Uuid>)
    requires Inv(s) && u in s.pending && a in s.queue && s.pending[u] == s.uuids[a]
    ensures var t := Connected(s, u, a.kind, replaced);
      && a in t.uuids && t.uuids[a] == s.uuids[a] && a !in t.queue && u !in t.pending
      && t.nodes == (s.nodes - set n | n in replaced)[s.last + 1 := s.uuids[a]]
  {
    hide InvExcept, FirstMatch, Without, Registered;
    QueuedIsNamed(s);
    MatchIs(s, a);
    var i := FirstMatch(s, s.queue, s.uuids[a], a.kind);
    TakenIsInTransit(s, i);
    RegisteredHolds(s.(queue := Without(s.queue, i)), a, replaced);
    RegisteredNodes(s.(queue := Without(s.queue, i)), s.uuids[a], replaced);
  }

  // A deployment whose assignment still is queued under the recorded UUID succeeds.
  lemma DeploymentConnects(s: State, events: seq<Event>, u: Uuid, a: Assignment, allowed: bool, replaced: seq<Uuid>)
    requires Inv(s) && u in s.pending
    requires var t := Run(s, events); a in t.queue && a in t.uuids && t.uuids[a] == s.pending[u]
    ensures var t := Run(s, events);
      var w := Step(t, Connect(u, a.kind, allowed, replaced));
      && u in t.pending && u !in w.pending && a !in w.queue
      && w.nodes == (t.nodes - set n | n in replaced)[t.last + 1 := s.pending[u]]
      && a in w.uuids && w.uuids[a] == s.pending[u]
  {
    var t := Run(s, events);
    assert Queued(t, s.pending[u]);
    hide Inv, Run, Queued;
    RunKeepsDeployment(s, events, u);
    ConnectTakes(t, u, a, replaced);
    hide *;
    ConnectStep(t, u, a.kind, allowed, replaced);
  }

  lemma ConnectStep(t: State, u: Uuid, kind: Type, allowed: bool, replaced: seq<Uuid>)
    requires Inv(t) && u in t.pending
    ensures Step(t, Connect(u, kind, allowed, replaced)) == Connected(t, u, kind, replaced)
  {
  }

  lemma DeploymentIsRecorded(s: State, r: Request)
    requires Inv(s) && FirstEligible(s.queue, r) < |s.queue|
    ensures var d := Deployed(s, r);
      Inv(d) && s.last + 1 in d.pending && d.pending[s.last + 1] == s.uuids[s.queue[FirstEligible(s.queue, r)]]
  {
    hide InvExcept, AfterRequest, FirstEligible;
    assert forall a :: a in s.queue ==> a in s.uuids by {
      QueuedIsNamed(s);
    }
    DeployedKeepsInv(s, r);
  }

  lemma QueuedIsNamed(s: State)
    requires Inv(s)
    ensures forall a :: a in s.queue ==> a in s.uuids
  {
  }

  /** What a request deploys can connect: whatever happens in between, as long as the assignment still is in
      the queue under the UUID it had, a node of its type that connects with the UUID of the deployment is
      accepted. It takes the assignment off the queue, and the new node holds it under its current UUID. */
  lemma DeploymentSucceeds(s: State, r: Request, events: seq<Event>, allowed: bool, replaced: seq<Uuid>)
    requires Inv(s) && FirstEligible(s.queue, r) < |s.queue|
    ensures Inv(Deployed(s, r))
    ensures var a, u, t := s.queue[FirstEligible(s.queue, r)], s.last + 1, Run(Deployed(s, r), events);
      a in t.queue && a in t.uuids && t.uuids[a] == s.uuids[a] ==>
        var w := Step(t, Connect(u, a.kind, allowed, replaced));
        && u in t.pending && u !in w.pending && a !in w.queue
        && w.nodes == (t.nodes - set n | n in replaced)[t.last + 1 := s.uuids[a]]
        && a in w.uuids && w.uuids[a] == s.uuids[a]
  {
    hide *;
    QueuedIsNamed(s);
    DeploymentIsRecorded(s, r);
    var a, t := s.queue[FirstEligible(s.queue, r)], Run(Deployed(s, r), events);
    if a in t.queue && a in t.uuids && t.uuids[a] == Deployed(s, r).pending[s.last + 1] {
      DeploymentConnects(Deployed(s, r), events, s.last + 1, a, allowed, replaced);
    }
  }

  // ---------- the domain server ----------

  lemma {:induction false} FirstIs(q: seq<Assignment>, r: Request, i: nat)
    requires i <= |q| && forall j :: 0 <= j < i ==> !Eligible(q[j], r)
    requires i < |q| ==> Eligible(q[i], r)
    ensures FirstEligible(q, r) == i
  {
  }

  lemma {:induction false} FirstMatchIs(s: State, q: seq<Assignment>, u: Uuid, kind: Type, i: nat)
    requires i <= |q| && forall j :: 0 <= j < i ==> !Matches(s, q[j], u, kind)
    requires i < |q| ==> Matches(s, q[i], u, kind)
    ensures FirstMatch(s, q, u, kind) == i
  {
  }

  class DomainServer {
    var uuids: map<Assignment, Uuid>
    var allAssignments: map<Uuid, Assignment>
    var unfulfilled: seq<Assignment>
    var pending: map<Uuid, Uuid>
    var nodes: map<Uuid, Uuid>
    var lastUuid: Uuid

    function Now(): State
      reads this
    {
      State(uuids, allAssignments, unfulfilled, pending, nodes, lastUuid)
    }

    // QUuid::createUuid: never in use before.
    method CreateUuid() returns (u: Uuid)
      modifies this`lastUuid
      ensures u == lastUuid == old(lastUuid) + 1
    {
      lastUuid := lastUuid + 1;
      u := lastUuid;
    }

    /** The hash of the assignments parsed from the configuration, before start-up queues them. */
    constructor (config: seq<Assignment>, configured: map<Assignment, Uuid>, lastUuid: Uuid)
      requires forall a :: a in config <==> a in configured
      requires forall a :: a in configured ==> 0 < configured[a] <= lastUuid
      requires forall a, b :: a in configured && b in configured && configured[a] == configured[b] ==> a == b
      ensures ConfigurationOnly(Now()) && uuids == configured
    {
      uuids, unfulfilled, pending, nodes, this.lastUuid := configured, [], map[], map[], lastUuid;
      allAssignments := map[];
      new;
      for i := 0 to |config|
        invariant uuids == configured && unfulfilled == [] && pending == map[] && nodes == map[] &&
          this.lastUuid == lastUuid
        invariant forall j :: 0 <= j < i ==> configured[config[j]] in allAssignments
        invariant forall u :: u in allAssignments ==>
          u <= lastUuid && allAssignments[u] in configured && configured[allAssignments[u]] == u
      {
        allAssignments := allAssignments[configured[config[i]] := config[i]];
      }
    }

    method RefreshStaticAssignmentAndAddToQueue(a: Assignment)
      modifies this
      ensures Now() == Refreshed(old(Now()), a)
    {
      var u := CreateUuid();
      uuids := uuids[a := u];
      allAssignments := allAssignments[u := a];
      unfulfilled := unfulfilled + [a];
    }

    /** Start-up, in whatever order the sort produced. No node is connected yet. */
    method AddStaticAssignmentsToQueue(order: seq<Assignment>)
      requires ConfigurationOnly(Now())
      requires Once(order) && forall a :: a in order <==> a in uuids
      modifies this
      ensures Now() == QueueAll(old(Now()), order)
      ensures Inv(Now()) && unfulfilled == order
    {
      for i := 0 to |order|
        invariant Now() == QueueAll(old(Now()), order[..i])
        invariant uuids.Keys == old(uuids.Keys) && nodes == map[]
      {
        assert order[..i + 1][..i] == order[..i];
        if uuids[order[i]] !in nodes {
          RefreshStaticAssignmentAndAddToQueue(order[i]);
        }
      }
      assert order[..|order|] == order;
      StartUp(old(Now()), order);
    }

    /** deployableAssignmentForRequest, and the deployment of what it found: the assignment stays in
        the queue, at its end, until a node connects for it. */
    method ProcessRequestAssignment(r: Request) returns (deployed: Option<Assignment>)
      requires forall a :: a in unfulfilled ==> a in uuids
      modifies this
      ensures Now() == Deployed(old(Now()), r)
      ensures var i := FirstEligible(old(unfulfilled), r);
        deployed == if i == |old(unfulfilled)| then None else Some(old(unfulfilled)[i])
    {
      var i := 0;
      while i < |unfulfilled| && !Eligible(unfulfilled[i], r)
        invariant i <= |unfulfilled| && forall j :: 0 <= j < i ==> !Eligible(unfulfilled[j], r)
      {
        i := i + 1;
      }
      FirstIs(unfulfilled, r, i);
      deployed := None;
      if i < |unfulfilled| {
        var a := unfulfilled[i];
        unfulfilled := Without(unfulfilled, i) + [a];
        var u := CreateUuid();
        pending := pending[u := uuids[a]];
        deployed := Some(a);
      }
    }

    method DequeueMatchingAssignment(u: Uuid, kind: Type) returns (found: Option<Assignment>)
      requires forall a :: a in unfulfilled ==> a in uuids
      modifies this`unfulfilled
      ensures var i := FirstMatch(old(Now()), old(unfulfilled), u, kind);
        if i == |old(unfulfilled)| then found == None && unfulfilled == old(unfulfilled)
        else found == Some(old(unfulfilled)[i]) && unfulfilled == Without(old(unfulfilled), i)
    {
      var i := 0;
      while i < |unfulfilled|
        invariant i <= |unfulfilled| && unfulfilled == old(unfulfilled)
        invariant forall j :: 0 <= j < i ==> !Matches(old(Now()), unfulfilled[j], u, kind)
      {
        if unfulfilled[i].kind == kind && uuids[unfulfilled[i]] == u {
          FirstMatchIs(Now(), unfulfilled, u, kind, i);
          found := Some(unfulfilled[i]);
          unfulfilled := Without(unfulfilled, i);
          return;
        }
        i := i + 1;
      }
      FirstMatchIs(Now(), unfulfilled, u, kind, i);
      found := None;
    }

    // addVerifiedNodeFromConnectRequest: the node is listed after the nodes that it replaces (of the
    // same address, or of the same type for solo types) were killed, and is then given its assignment.
    method AddVerifiedNode(u: Uuid, replaced: seq<Uuid>) returns (node: Uuid)
      modifies this
      ensures Now() == Registered(old(Now()), u, replaced)
      ensures node == old(lastUuid) + 1 && nodes == (old(nodes) - set n | n in replaced)[node := u]
    {
      RegisteredNodes(Now(), u, replaced);
      node := CreateUuid();
      ghost var before := Now();
      for i := 0 to |replaced|
        invariant KillAll(Now(), replaced[i..]) == KillAll(before, replaced)
      {
        assert replaced[i..][1..] == replaced[i + 1..];
        NodeKilled(replaced[i]);
      }
      assert replaced[|replaced|..] == [];
      nodes := nodes[node := u];
    }

    /** A connect request gets a deployed assignment exactly if that is still queued under the UUID it
        was deployed under. Without a deployment only an agent can connect, if the domain allows it. */
    method ProcessConnectRequest(connect: Uuid, kind: Type, allowed: bool, replaced: seq<Uuid>)
      returns (node: Option<Uuid>)
      requires Inv(Now())
      modifies this
      ensures Now() == Step(old(Now()), Connect(connect, kind, allowed, replaced))
      ensures node.Some? <==>
        if connect in old(pending) then
          exists a :: a in old(unfulfilled) && a.kind == kind && old(uuids)[a] == old(pending)[connect]
        else kind == AgentType && allowed
      ensures node.None? ==> Now() == old(Now())
      ensures node.Some? ==> node.value == old(lastUuid) + 1
      ensures node.Some? ==>
        var u := if connect in old(pending) then old(pending)[connect] else 0;
        nodes == (old(nodes) - set n | n in replaced)[node.value := u]
      ensures Inv(Now())
    {
      hide InvExcept, FirstMatch, Registered, Without;
      QueuedIsNamed(Now());
      StepKeepsInv(Now(), Connect(connect, kind, allowed, replaced));
      node := None;
      if connect in pending {
        var u := pending[connect];
        var found := DequeueMatchingAssignment(u, kind);
        if found.Some? {
          var n := AddVerifiedNode(uuids[found.value], replaced);
          pending := pending - {connect};
          node := Some(n);
        }
      } else if kind == AgentType && allowed {
        var n := AddVerifiedNode(0, replaced);
        node := Some(n);
      }
    }

    /** A node that died, or was replaced, gives its assignment back under a new UUID. */
    method NodeKilled(node: Uuid)
      modifies this
      ensures Now() == Killed(old(Now()), node)
    {
      if node in nodes {
        var u := nodes[node];
        nodes := nodes - {node};
        if u != 0 && u in allAssignments {
          var a := allAssignments[u];
          allAssignments := allAssignments - {u};
          RefreshStaticAssignmentAndAddToQueue(a);
        }
      }
    }
  }
}
