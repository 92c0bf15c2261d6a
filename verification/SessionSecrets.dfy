/** The secrets that the domain server makes up for pairs of nodes: created lazily when one of the two
    is told about the other, kept on both, and removed when a node dies (DomainServer.cpp). */
module SessionSecrets {

  type Uuid = nat   // 0 is the null UUID

  /** A packet told the node `to` of the node `about`, with the secret the two will use. */
  datatype Handout = Handout(to: Uuid, about: Uuid, secret: Uuid)

  datatype State = State(
    nodes: map<Uuid, map<Uuid, Uuid>>,   // per live node, its session secret hash
    last: Uuid,                          // every UUID in use is at most this
    sent: set<Handout>)                  // every secret ever handed out

  predicate SamePair(h: Handout, g: Handout) {
    (h.to == g.to && h.about == g.about) || (h.to == g.about && h.about == g.to)
  }

  predicate Holds(s: State, a: Uuid, b: Uuid, secret: Uuid) {
    a in s.nodes && b in s.nodes[a] && s.nodes[a][b] == secret
  }

  /** A's secret for B is B's for A, and both are live. */
  ghost predicate Symmetric(s: State) {
    && (forall a, b, x :: Holds(s, a, b, x) ==> a != b && Holds(s, b, a, x))
    && (forall a :: a in s.nodes ==> 0 < a <= s.last)
  }

  /** What was handed out about two live nodes is still what they hold, and they hold nothing else. */
  ghost predicate Current(s: State) {
    && (forall h :: h in s.sent && h.to in s.nodes && h.about in s.nodes ==> Holds(s, h.to, h.about, h.secret))
    && (forall a, b, x :: Holds(s, a, b, x) ==> Handout(a, b, x) in s.sent || Handout(b, a, x) in s.sent)
  }

  /** Two handouts carry the same secret exactly if they are about the same two nodes. */
  predicate OneSecretPerPair(s: State) {
    && (forall h :: h in s.sent ==> h.to != h.about && h.to <= s.last && h.about <= s.last && 0 < h.secret <= s.last)
    && (forall h, g :: h in s.sent && g in s.sent ==> (SamePair(h, g) <==> h.secret == g.secret))
  }

  ghost predicate Inv(s: State) {
    Symmetric(s) && Current(s) && OneSecretPerPair(s)
  }

  // ---------- the steps ----------

  // A new node gets a UUID that was never in use, and empty linked data.
  function Added(s: State): State {
    s.(nodes := s.nodes[s.last + 1 := map[]], last := s.last + 1)
  }

  function Insert(hash: map<Uuid, Uuid>, other: Uuid, secret: Uuid): map<Uuid, Uuid> {
    hash[other := secret]
  }

  // connectionSecretForNodes, and the packet to a that its result goes into.
  function Handed(s: State, a: Uuid, b: Uuid): State
    requires a in s.nodes && b in s.nodes
  {
    if b in s.nodes[a] then s.(sent := s.sent + {Handout(a, b, s.nodes[a][b])})
    else
      var secret := s.last + 1;
      var nodes := s.nodes[a := Insert(s.nodes[a], b, secret)];
      State(nodes[b := Insert(nodes[b], a, secret)], secret, s.sent + {Handout(a, b, secret)})
  }

  function HandedIf(s: State, a: Uuid, b: Uuid, interested: bool): State
    requires a in s.nodes && b in s.nodes
  {
    if a != b && interested then Handed(s, a, b) else s
  }

  predicate AllLive(s: State, order: seq<Uuid>) {
    forall i :: 0 <= i < |order| ==> order[i] in s.nodes
  }

  // The nodes in `order` that interest `node` are listed to it...
  function Listed(s: State, node: Uuid, order: seq<Uuid>, interest: set<Uuid>): (t: State)
    requires node in s.nodes && AllLive(s, order)
    ensures t.nodes.Keys == s.nodes.Keys
    decreases order
  {
    if order == [] then s
    else Listed(HandedIf(s, node, order[0], order[0] in interest), node, order[1..], interest)
  }

  // ...and a new node is announced to the nodes in `order` that it interests.
  function Announced(s: State, node: Uuid, order: seq<Uuid>, interested: set<Uuid>): (t: State)
    requires node in s.nodes && AllLive(s, order)
    ensures t.nodes.Keys == s.nodes.Keys
    decreases order
  {
    if order == [] then s
    else Announced(HandedIf(s, order[0], node, order[0] in interested), node, order[1..], interested)
  }

  // Only the nodes that the dead one held a secret for are visited.
  function Forgotten(nodes: map<Uuid, map<Uuid, Uuid>>, node: Uuid, visited: set<Uuid>): map<Uuid, map<Uuid, Uuid>> {
    map n | n in nodes :: if n in visited then nodes[n] - {node} else nodes[n]
  }

  function Killed(s: State, node: Uuid): State
    requires node in s.nodes
  {
    s.(nodes := Forgotten(s.nodes - {node}, node, s.nodes[node].Keys))
  }

  datatype Event =
    | Add
    | List(node: Uuid, order: seq<Uuid>, interest: set<Uuid>)
    | Announce(node: Uuid, order: seq<Uuid>, interested: set<Uuid>)
    | Kill(node: Uuid)

  // The list of a dead node, or of dead nodes, is not sent.
  function Step(s: State, e: Event): State {
    match e
    case Add => Added(s)
    case List(node, order, interest) =>
      if node in s.nodes && AllLive(s, order) then Listed(s, node, order, interest) else s
    case Announce(node, order, interested) =>
      if node in s.nodes && AllLive(s, order) then Announced(s, node, order, interested) else s
    case Kill(node) => if node in s.nodes then Killed(s, node) else s
  }

  function Run(s: State, events: seq<Event>): State
    decreases events
  {
    if events == [] then s else Run(Step(s, events[0]), events[1..])
  }

  // ---------- what every step keeps ----------

  // Nothing two live nodes hold is replaced, and every packet stays sent.
  ghost predicate Extends(s: State, t: State) {
    && (forall a, b, x :: Holds(s, a, b, x) && a in t.nodes && b in t.nodes ==> Holds(t, a, b, x))
    && s.sent <= t.sent && s.last <= t.last
    && (forall a :: a in t.nodes && a <= s.last ==> a in s.nodes)
  }

  // What a first handout adds.
  lemma FirstHandoutHolds(s: State, a: Uuid, b: Uuid)
    requires Symmetric(s) && a in s.nodes && b in s.nodes && a != b && b !in s.nodes[a]
    ensures forall c, d, x :: Holds(Handed(s, a, b), c, d, x) <==>
      Holds(s, c, d, x) || (x == s.last + 1 && ((c == a && d == b) || (c == b && d == a)))
  {
  }

  lemma FirstHandoutKeepsInv(s: State, a: Uuid, b: Uuid)
    requires Inv(s) && a in s.nodes && b in s.nodes && a != b && b !in s.nodes[a]
    ensures Inv(Handed(s, a, b)) && Extends(s, Handed(s, a, b))
  {
    var t, h := Handed(s, a, b), Handout(a, b, s.last + 1);
    FirstHandoutHolds(s, a, b);
    assert t.sent == s.sent + {h} && t.last == s.last + 1 && t.nodes.Keys == s.nodes.Keys;
    forall g | g in s.sent ensures !SamePair(g, h) {
      assert SamePair(g, h) ==> Holds(s, g.to, g.about, g.secret);
    }
    hide Holds, Handed;
    assert Symmetric(t);
    assert Current(t);
  }

  // Handing out again what one of the two was told before.
  lemma RepeatKeepsOneSecret(s: State, h: Handout, f: Handout)
    requires OneSecretPerPair(s) && f in s.sent && SamePair(f, h) && f.secret == h.secret
    ensures OneSecretPerPair(s.(sent := s.sent + {h}))
  {
    forall g | g in s.sent ensures SamePair(g, h) <==> g.secret == h.secret {
      assert SamePair(g, f) <==> SamePair(g, h);
    }
  }

  lemma RepeatedHandoutKeepsInv(s: State, a: Uuid, b: Uuid)
    requires Inv(s) && a in s.nodes && b in s.nodes && a != b && b in s.nodes[a]
    ensures Inv(Handed(s, a, b)) && Extends(s, Handed(s, a, b))
  {
    var t, h := Handed(s, a, b), Handout(a, b, s.nodes[a][b]);
    assert forall c, d, x :: Holds(t, c, d, x) <==> Holds(s, c, d, x);
    assert Holds(s, a, b, h.secret);
    var f := if h in s.sent then h else Handout(b, a, h.secret);
    RepeatKeepsOneSecret(s, h, f);
    hide Holds, OneSecretPerPair;
  }

  lemma HandedIfKeepsInv(s: State, a: Uuid, b: Uuid, interested: bool)
    requires Inv(s) && a in s.nodes && b in s.nodes
    ensures Inv(HandedIf(s, a, b, interested)) && Extends(s, HandedIf(s, a, b, interested))
  {
    if a != b && interested {
      if b in s.nodes[a] {
        RepeatedHandoutKeepsInv(s, a, b);
      } else {
        FirstHandoutKeepsInv(s, a, b);
      }
    }
  }

  lemma {:induction false} ListedKeepsInv(s: State, node: Uuid, order: seq<Uuid>, interest: set<Uuid>)
    requires Inv(s) && node in s.nodes && AllLive(s, order)
    ensures Inv(Listed(s, node, order, interest)) && Extends(s, Listed(s, node, order, interest))
    decreases order
  {
    if order != [] {
      HandedIfKeepsInv(s, node, order[0], order[0] in interest);
      ListedKeepsInv(HandedIf(s, node, order[0], order[0] in interest), node, order[1..], interest);
    }
  }

  lemma {:induction false} AnnouncedKeepsInv(s: State, node: Uuid, order: seq<Uuid>, interested: set<Uuid>)
    requires Inv(s) && node in s.nodes && AllLive(s, order)
    ensures Inv(Announced(s, node, order, interested)) && Extends(s, Announced(s, node, order, interested))
    decreases order
  {
    if order != [] {
      HandedIfKeepsInv(s, order[0], node, order[0] in interested);
      AnnouncedKeepsInv(HandedIf(s, order[0], node, order[0] in interested), node, order[1..], interested);
    }
  }

  /** Visiting only the nodes in the dead one's own hash is enough: no live node keeps a secret for it,
      and between the others nothing changes. */
  lemma KilledLeavesNothing(s: State, node: Uuid)
    requires Inv(s) && node in s.nodes
    ensures var t := Killed(s, node);
      && Inv(t) && Extends(s, t)
      && t.nodes.Keys == s.nodes.Keys - {node}
      && forall n :: n in t.nodes ==> t.nodes[n] == s.nodes[n] - {node}
  {
    var t := Killed(s, node);
    forall n | n in t.nodes ensures t.nodes[n] == s.nodes[n] - {node} {
      if node in s.nodes[n] {
        assert Holds(s, n, node, s.nodes[n][node]);
        assert Holds(s, node, n, s.nodes[n][node]);
      }
    }
    assert forall a, b, x :: Holds(t, a, b, x) <==> Holds(s, a, b, x) && a != node && b != node;
    hide Holds, Killed;
  }

  lemma StepKeepsInv(s: State, e: Event)
    requires Inv(s)
    ensures Inv(Step(s, e)) && Extends(s, Step(s, e))
  {
    match e
    case Add =>
      assert forall a, b, x :: Holds(Added(s), a, b, x) <==> Holds(s, a, b, x);
    case List(node, order, interest) =>
      if node in s.nodes && AllLive(s, order) {
        ListedKeepsInv(s, node, order, interest);
      }
    case Announce(node, order, interested) =>
      if node in s.nodes && AllLive(s, order) {
        AnnouncedKeepsInv(s, node, order, interested);
      }
    case Kill(node) =>
      if node in s.nodes {
        KilledLeavesNothing(s, node);
      }
  }

  /** Over every run of joins, lists, announcements and deaths: two packets carry the same secret exactly if
      they are about the same two nodes, whichever of the two they went to. */
  lemma {:induction false} RunKeepsOneSecretPerPair(s: State, events: seq<Event>)
    requires Inv(s)
    ensures Inv(Run(s, events))
    ensures s.sent <= Run(s, events).sent && s.last <= Run(s, events).last
    ensures forall a :: a in Run(s, events).nodes && a <= s.last ==> a in s.nodes
    decreases events
  {
    if events != [] {
      StepKeepsInv(s, events[0]);
      RunKeepsOneSecretPerPair(Step(s, events[0]), events[1..]);
    }
  }

  /** A secret is never regenerated while both nodes live: if they live at the end of a run they have
      held the same secret throughout. */
  lemma {:induction false} SecretIsNeverRegenerated(s: State, events: seq<Event>, a: Uuid, b: Uuid)
    requires Inv(s) && a in s.nodes && b in s.nodes[a]
    requires a in Run(s, events).nodes && b in Run(s, events).nodes
    ensures Holds(Run(s, events), a, b, s.nodes[a][b]) && Holds(Run(s, events), b, a, s.nodes[a][b])
    decreases events
  {
    assert Holds(s, a, b, s.nodes[a][b]) && Holds(s, b, a, s.nodes[a][b]);
    if events != [] {
      var t := Step(s, events[0]);
      StepKeepsInv(s, events[0]);
      RunKeepsOneSecretPerPair(t, events[1..]);
      assert a in t.nodes && b in t.nodes && Holds(t, a, b, s.nodes[a][b]);
      SecretIsNeverRegenerated(t, events[1..], a, b);
    }
  }

  // ---------- who is told ----------

  // Both nodes hold the same secret for each other, and `to` was sent it.
  predicate Tells(s: State, to: Uuid, about: Uuid) {
    to in s.nodes && about in s.nodes && about in s.nodes[to] && to in s.nodes[about]
    && s.nodes[to][about] == s.nodes[about][to] && Handout(to, about, s.nodes[to][about]) in s.sent
  }

  // What one handout does to the secrets of two nodes and to the packets.
  lemma HandedIfTells(s: State, a: Uuid, b: Uuid, interested: bool)
    requires Inv(s) && a in s.nodes && b in s.nodes
    ensures var t := HandedIf(s, a, b, interested);
      && (a != b && interested ==> Tells(t, a, b))
      && (forall h :: h in t.sent && h !in s.sent ==> a != b && interested && h.to == a && h.about == b)
  {
    HandedIfKeepsInv(s, a, b, interested);
    hide Inv;
  }

  lemma StillTells(s: State, t: State, a: Uuid, b: Uuid)
    requires Tells(s, a, b) && Extends(s, t) && a in t.nodes && b in t.nodes
    ensures Tells(t, a, b)
  {
    assert Holds(s, a, b, s.nodes[a][b]) && Holds(s, b, a, s.nodes[a][b]);
    assert Holds(t, a, b, s.nodes[a][b]) && Holds(t, b, a, s.nodes[a][b]);
  }

  /** After a list both the node and each other one that interests it hold their secret, and the node was sent it.
      It is sent nothing about any other. */
  lemma {:induction false} ListTells(s: State, node: Uuid, order: seq<Uuid>, interest: set<Uuid>)
    requires Inv(s) && node in s.nodes && AllLive(s, order)
    ensures var t := Listed(s, node, order, interest);
      forall n :: n in order && n in interest && n != node ==>
        && n in t.nodes[node] && node in t.nodes[n] && t.nodes[node][n] == t.nodes[n][node]
        && Handout(node, n, t.nodes[node][n]) in t.sent
    ensures forall h :: h in Listed(s, node, order, interest).sent && h !in s.sent ==>
      h.to == node && h.about != node && h.about in order && h.about in interest
    decreases order
  {
    if order != [] {
      var next := HandedIf(s, node, order[0], order[0] in interest);
      var t := Listed(next, node, order[1..], interest);
      HandedIfKeepsInv(s, node, order[0], order[0] in interest);
      HandedIfTells(s, node, order[0], order[0] in interest);
      ListedKeepsInv(next, node, order[1..], interest);
      hide Inv, Extends;
      ListTells(next, node, order[1..], interest);
      if order[0] in interest && order[0] != node {
        StillTells(next, t, node, order[0]);
      }
    }
  }

  /** After an announcement both the new node and each other one that it interests hold their secret, and that one
      was sent it. No other is sent anything. */
  lemma {:induction false} AnnouncementTells(s: State, node: Uuid, order: seq<Uuid>, interested: set<Uuid>)
    requires Inv(s) && node in s.nodes && AllLive(s, order)
    ensures var t := Announced(s, node, order, interested);
      forall n :: n in order && n in interested && n != node ==>
        && n in t.nodes[node] && node in t.nodes[n] && t.nodes[node][n] == t.nodes[n][node]
        && Handout(n, node, t.nodes[n][node]) in t.sent
    ensures forall h :: h in Announced(s, node, order, interested).sent && h !in s.sent ==>
      h.about == node && h.to != node && h.to in order && h.to in interested
    decreases order
  {
    if order != [] {
      var next := HandedIf(s, order[0], node, order[0] in interested);
      var t := Announced(next, node, order[1..], interested);
      HandedIfKeepsInv(s, order[0], node, order[0] in interested);
      HandedIfTells(s, order[0], node, order[0] in interested);
      AnnouncedKeepsInv(next, node, order[1..], interested);
      hide Inv, Extends;
      AnnouncementTells(next, node, order[1..], interested);
      if order[0] in interested && order[0] != node {
        StillTells(next, t, order[0], node);
      }
    }
  }

  // ---------- the domain server ----------

  class DomainServer {
    var nodes: map<Uuid, map<Uuid, Uuid>>
    var lastUuid: Uuid
    ghost var sent: set<Handout>

    ghost function Now(): State
      reads this
    {
      State(nodes, lastUuid, sent)
    }

    constructor ()
      ensures Inv(Now()) && nodes == map[] && sent == {}
    {
      nodes, lastUuid, sent := map[], 0, {};
    }

    method NodeAdded() returns (node: Uuid)
      requires Inv(Now())
      modifies this
      ensures Now() == Added(old(Now())) && Inv(Now())
      ensures node == lastUuid && node !in old(nodes) && nodes == old(nodes)[node := map[]] && sent == old(sent)
    {
      StepKeepsInv(Now(), Add);
      lastUuid := lastUuid + 1;
      node := lastUuid;
      nodes := nodes[node := map[]];
    }

    method ConnectionSecretForNodes(a: Uuid, b: Uuid) returns (secret: Uuid)
      requires Inv(Now()) && a in nodes && b in nodes && a != b
      modifies this
      ensures Now() == Handed(old(Now()), a, b) && Inv(Now())
      ensures Holds(Now(), a, b, secret) && Holds(Now(), b, a, secret)
      ensures old(b in nodes[a]) ==> secret == old(nodes[a][b])
    {
      HandedIfKeepsInv(Now(), a, b, true);
      if b in nodes[a] {
        secret := nodes[a][b];
        assert Holds(Now(), a, b, secret);
      } else {
        lastUuid := lastUuid + 1;
        secret := lastUuid;
        nodes := nodes[a := Insert(nodes[a], b, secret)];
        nodes := nodes[b := Insert(nodes[b], a, secret)];
      }
      sent := sent + {Handout(a, b, secret)};
    }

    method SendDomainListToNode(node: Uuid, order: seq<Uuid>, interest: set<Uuid>)
      requires Inv(Now()) && node in nodes && AllLive(Now(), order)
      modifies this
      ensures Now() == Listed(old(Now()), node, order, interest) && Inv(Now())
    {
      for i := 0 to |order|
        invariant Inv(Now()) && node in nodes && AllLive(Now(), order[i..])
        invariant Listed(Now(), node, order[i..], interest) == Listed(old(Now()), node, order, interest)
      {
        assert order[i..][1..] == order[i + 1..] && order[i..][0] == order[i];
        ghost var before := Now();
        if order[i] != node && order[i] in interest {
          var secret := ConnectionSecretForNodes(node, order[i]);
        }
        assert Now() == HandedIf(before, node, order[i], order[i] in interest);
      }
      assert order[|order|..] == [];
    }

    method BroadcastNewNode(node: Uuid, order: seq<Uuid>, interested: set<Uuid>)
      requires Inv(Now()) && node in nodes && AllLive(Now(), order)
      modifies this
      ensures Now() == Announced(old(Now()), node, order, interested) && Inv(Now())
    {
      for i := 0 to |order|
        invariant Inv(Now()) && node in nodes && AllLive(Now(), order[i..])
        invariant Announced(Now(), node, order[i..], interested) == Announced(old(Now()), node, order, interested)
      {
        assert order[i..][1..] == order[i + 1..] && order[i..][0] == order[i];
        ghost var before := Now();
        if order[i] != node && order[i] in interested {
          var secret := ConnectionSecretForNodes(order[i], node);
        }
        assert Now() == HandedIf(before, order[i], node, order[i] in interested);
      }
      assert order[|order|..] == [];
    }

    /** The node has been taken off the node list; its linked data says whom to visit. */
    method NodeKilled(node: Uuid)
      requires Inv(Now()) && node in nodes
      modifies this
      ensures Now() == Killed(old(Now()), node) && Inv(Now())
      ensures forall n :: n in nodes ==> node !in nodes[n]
    {
      KilledLeavesNothing(Now(), node);
      hide Inv, Extends;
      var keys := nodes[node].Keys;
      nodes := nodes - {node};
      ForgetNode(node, keys);
    }

    method ForgetNode(node: Uuid, keys: set<Uuid>)
      modifies this`nodes
      ensures nodes == Forgotten(old(nodes), node, keys)
    {
      var rest := keys;
      while rest != {}
        invariant rest <= keys
        invariant nodes == Forgotten(old(nodes), node, keys - rest)
      {
        var other :| other in rest;
        if other in nodes {
          nodes := nodes[other := nodes[other] - {node}];
        }
        rest := rest - {other};
      }
      assert keys - rest == keys;
    }
  }
}
