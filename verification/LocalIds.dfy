/** How the gatekeeper gives every node a 16-bit local ID: it walks Z/2^16 with an odd step and takes
    the first ID that is not in use (DomainGatekeeper.cpp). */
module LocalIds {
  import opened Collections

  type Uuid = nat

  const RANGE := 0x1_0000   // Node::LocalID is a 16-bit unsigned integer
  const NULL_LOCAL_ID := 0

  // The sum as a 16-bit unsigned integer.
  function Plus(a: nat, b: nat): (sum: nat)
    ensures sum < RANGE
  {
    (a + b) % RANGE
  }

  // The k-th ID of the walk that starts at `start`.
  function Position(start: nat, step: nat, k: nat): (id: nat)
    ensures id < RANGE
  {
    Plus(start, k * step)
  }

  lemma FirstPosition(start: nat, step: nat)
    requires start < RANGE
    ensures Position(start, step, 0) == start && Position(start, step, 1) == Plus(start, step)
  {
  }

  lemma PlusPlus(a: nat, b: nat, c: nat)
    ensures Plus(Plus(a, b), c) == Plus(a, b + c)
  {
  }

  lemma NextPosition(start: nat, step: nat, k: nat)
    ensures Plus(Position(start, step, k), step) == Position(start, step, k + 1)
  {
    PlusPlus(start, k * step, step);
    hide Plus;
    assert (k + 1) * step == k * step + step;
  }

  // ---------- an odd step visits everything ----------

  function Pow2(k: nat): (p: nat)
    ensures p > 0
  {
    if k == 0 then 1 else 2 * Pow2(k - 1)
  }

  lemma OddTimesOdd(x: int, odd: int)
    requires x % 2 == 1 && odd % 2 == 1
    ensures (x * odd) % 2 == 1
  {
    var y, o := x / 2, odd / 2;
    assert x * odd == 2 * (2 * y * o + y + o) + 1;
  }

  // A power of two that divides x times an odd number divides x.
  lemma {:induction false} OddCancels(x: int, odd: int, m: int, k: nat) returns (n: int)
    requires x * odd == m * Pow2(k) && odd % 2 == 1
    ensures x == n * Pow2(k)
    decreases k
  {
    if k == 0 {
      n := x;
    } else {
      var p := Pow2(k - 1);
      assert m * (2 * p) == 2 * (m * p);
      if x % 2 == 1 {
        OddTimesOdd(x, odd);
        assert false;
      }
      var y := x / 2;
      assert (2 * y) * odd == 2 * (y * odd);
      n := OddCancels(y, odd, m, k - 1);
      assert n * (2 * p) == 2 * (n * p);
    }
  }

  lemma SameRemainder(a: int, b: int) returns (m: int)
    requires a % RANGE == b % RANGE
    ensures a - b == m * RANGE
  {
    m := a / RANGE - b / RANGE;
  }

  /** Two different positions among the first 2^16 hold different IDs. */
  lemma OddStepIsInjective(start: nat, step: nat, j: nat, k: nat)
    requires step % 2 == 1 && j < k < j + RANGE
    ensures Position(start, step, j) != Position(start, step, k)
  {
    if Position(start, step, j) == Position(start, step, k) {
      var m := SameRemainder(start + k * step, start + j * step);
      assert (k - j) * step == m * RANGE;
      assert Pow2(16) == RANGE by {
        assert Pow2(4) == 16 && Pow2(8) == 256 && Pow2(12) == 4096;
      }
      var n := OddCancels(k - j, step, m, 16);
      assert false;
    }
  }

  function Visited(start: nat, step: nat, k: nat): set<nat> {
    if k == 0 then {} else Visited(start, step, k - 1) + {Position(start, step, k - 1)}
  }

  lemma {:induction false} VisitedIs(start: nat, step: nat, k: nat, id: nat)
    ensures id in Visited(start, step, k) <==> exists j: nat :: j < k && Position(start, step, j) == id
  {
    if k > 0 {
      VisitedIs(start, step, k - 1, id);
    }
  }

  lemma {:induction false} VisitedSize(start: nat, step: nat, k: nat)
    requires step % 2 == 1 && k <= RANGE
    ensures |Visited(start, step, k)| == k
  {
    if k > 0 {
      VisitedSize(start, step, k - 1);
      VisitedIs(start, step, k - 1, Position(start, step, k - 1));
      forall j: nat | j < k - 1 ensures Position(start, step, j) != Position(start, step, k - 1) {
        OddStepIsInjective(start, step, j, k - 1);
      }
    }
  }

  function Below(n: nat): set<nat> {
    if n == 0 then {} else Below(n - 1) + {n - 1}
  }

  lemma {:induction false} BelowIs(n: nat, i: nat)
    ensures i in Below(n) <==> i < n
  {
    if n > 0 {
      BelowIs(n - 1, i);
    }
  }

  lemma {:induction false} BelowSize(n: nat)
    ensures |Below(n)| == n
  {
    if n > 0 {
      BelowSize(n - 1);
      BelowIs(n - 1, n - 1);
    }
  }

  lemma EvenSum(a: nat, m: nat)
    ensures Plus(a, 2 * m) % 2 == a % 2
  {
  }

  lemma EvenStepKeepsParity(start: nat, step: nat, k: nat)
    requires step % 2 == 0
    ensures Position(start, step, k) % 2 == start % 2
  {
    var half := step / 2;
    EvenSum(start, k * half);
    hide Plus;
    assert k * (2 * half) == 2 * (k * half);
  }

  ghost predicate Reaches(start: nat, step: nat, id: nat) {
    exists k: nat :: k < RANGE && Position(start, step, k) == id
  }

  ghost predicate VisitsAll(start: nat, step: nat) {
    forall id: nat :: id < RANGE ==> Reaches(start, step, id)
  }

  lemma OddStepReaches(start: nat, step: nat, range: nat, id: nat)
    requires step % 2 == 1 && range == RANGE && id < range
    ensures Reaches(start, step, id)
  {
    VisitedSize(start, step, range);
    BelowSize(range);
    forall v | v in Visited(start, step, range) ensures v in Below(range) {
      VisitedIs(start, step, range, v);
      BelowIs(range, v);
    }
    BelowIs(range, id);
    SubsetSize(Visited(start, step, range), Below(range));
    VisitedIs(start, step, range, id);
  }

  /** Making the increment odd is exactly what makes the walk reach every 16-bit ID. */
  lemma VisitsAllIffOdd(start: nat, step: nat)
    ensures VisitsAll(start, step) <==> step % 2 == 1
  {
    if step % 2 == 1 {
      forall id: nat | id < RANGE ensures Reaches(start, step, id) {
        OddStepReaches(start, step, RANGE, id);
      }
    } else {
      var other := (start + 1) % 2;
      forall k: nat ensures Position(start, step, k) != other {
        EvenStepKeepsParity(start, step, k);
      }
      assert other < RANGE && !Reaches(start, step, other);
    }
  }

  // ---------- the table ----------

  datatype Table = Table(ids: map<Uuid, nat>, taken: set<nat>, current: nat, step: nat)

  predicate Injective(ids: map<Uuid, nat>) {
    forall u, v :: u in ids && v in ids && ids[u] == ids[v] ==> u == v
  }

  // The IDs in use are exactly those of the map, which is injective and has no null ID.
  predicate Sound(t: Table) {
    && (forall u :: u in t.ids ==> t.ids[u] in t.taken && NULL_LOCAL_ID < t.ids[u] < RANGE)
    && (forall id :: id in t.taken ==> id in t.ids.Values)
    && Injective(t.ids)
    && t.current < RANGE && t.step % 2 == 1
  }

  predicate Free(taken: set<nat>, id: nat) {
    id != NULL_LOCAL_ID && id !in taken
  }

  predicate FirstFree(t: Table, k: nat) {
    Free(t.taken, Position(t.current, t.step, k)) &&
    forall j :: 0 <= j < k ==> !Free(t.taken, Position(t.current, t.step, j))
  }

  // What one call does: it returns the ID of a known node, and the next free one on the walk else.
  ghost predicate Finds(t: Table, uuid: Uuid, id: nat, after: Table) {
    if uuid in t.ids then id == t.ids[uuid] && after == t
    else
      exists k: nat ::
        && FirstFree(t, k) && id == Position(t.current, t.step, k)
        && after == Table(t.ids[uuid := id], t.taken + {id}, Position(t.current, t.step, k + 1), t.step)
  }

  lemma FindsKeepsSound(t: Table, uuid: Uuid, id: nat, after: Table)
    requires Sound(t) && Finds(t, uuid, id, after)
    ensures Sound(after) && uuid in after.ids && after.ids[uuid] == id
    ensures forall u :: u in t.ids ==> u in after.ids && after.ids[u] == t.ids[u]
  {
    if uuid !in t.ids {
      forall i | i in after.taken ensures i in after.ids.Values {
        if i == id {
          assert after.ids[uuid] == i;
        } else {
          var u :| u in t.ids && t.ids[u] == i;
          assert after.ids[u] == i;
        }
      }
    }
  }

  lemma FindsFirstFree(t: Table, uuid: Uuid, k: nat)
    requires Sound(t) && uuid !in t.ids && FirstFree(t, k)
    ensures var id := Position(t.current, t.step, k);
      var after := Table(t.ids[uuid := id], t.taken + {id}, Position(t.current, t.step, k + 1), t.step);
      Finds(t, uuid, id, after) && Sound(after)
  {
    var id := Position(t.current, t.step, k);
    var after := Table(t.ids[uuid := id], t.taken + {id}, Position(t.current, t.step, k + 1), t.step);
    assert Finds(t, uuid, id, after);
    FindsKeepsSound(t, uuid, id, after);
  }

  // The IDs that the walk has refused are all different, and all in use or null.
  lemma RefusedAreInUse(t: Table, k: nat)
    requires Sound(t) && k <= RANGE
    requires forall j :: 0 <= j < k ==> !Free(t.taken, Position(t.current, t.step, j))
    ensures k <= |t.taken| + 1
  {
    VisitedSize(t.current, t.step, k);
    forall id | id in Visited(t.current, t.step, k) ensures id in t.taken + {NULL_LOCAL_ID} {
      VisitedIs(t.current, t.step, k, id);
    }
    SubsetSize(Visited(t.current, t.step, k), t.taken + {NULL_LOCAL_ID});
  }

  lemma SomeFree(t: Table, range: nat)
    requires Sound(t) && range == RANGE
    ensures |t.taken| < range
    ensures (exists id: nat :: id < range && Free(t.taken, id)) <==> |t.taken| < range - 1
  {
    BelowSize(range);
    forall id: nat ensures id in Below(range) <==> id < range {
      BelowIs(range, id);
    }
    var all := Below(range) - {NULL_LOCAL_ID};
    SubsetSize(t.taken, all);
    if |t.taken| < range - 1 {
      if all <= t.taken {
        SubsetSize(all, t.taken);
      }
      var id :| id in all && id !in t.taken;
      assert id < range && Free(t.taken, id);
    }
  }

  /** The walk comes to an ID that can be given out exactly if one of the 2^16 - 1 is left. With all
      of them in use it would never end. */
  lemma FindsSomeIff(t: Table)
    requires Sound(t)
    ensures (exists k: nat :: Free(t.taken, Position(t.current, t.step, k))) <==> |t.taken| < RANGE - 1
  {
    SomeFree(t, RANGE);
    if |t.taken| < RANGE - 1 {
      var id: nat :| id < RANGE && Free(t.taken, id);
      OddStepReaches(t.current, t.step, RANGE, id);
    }
  }

  // ---------- all calls ----------

  datatype Call = Call(uuid: Uuid, id: nat)

  // The tables before and after every call.
  ghost predicate Calls(tables: seq<Table>, calls: seq<Call>) {
    |tables| == |calls| + 1 &&
    forall i :: 0 <= i < |calls| ==> Finds(tables[i], calls[i].uuid, calls[i].id, tables[i + 1])
  }

  lemma {:induction false} CallsKeepSound(tables: seq<Table>, calls: seq<Call>, i: nat, j: nat)
    requires Calls(tables, calls) && Sound(tables[0]) && i <= j < |tables|
    ensures Sound(tables[j])
    ensures forall u :: u in tables[i].ids ==> u in tables[j].ids && tables[j].ids[u] == tables[i].ids[u]
    decreases j
  {
    if j > 0 {
      CallsKeepSound(tables, calls, if i < j then i else j - 1, j - 1);
      FindsKeepsSound(tables[j - 1], calls[j - 1].uuid, calls[j - 1].id, tables[j]);
    }
  }

  /** Over every series of calls two of them return the same ID exactly if they ask for the same node,
      and none returns the null ID. */
  lemma SameIdIffSameNode(tables: seq<Table>, calls: seq<Call>, i: nat, j: nat)
    requires Calls(tables, calls) && Sound(tables[0]) && i < j < |calls|
    ensures calls[i].id == calls[j].id <==> calls[i].uuid == calls[j].uuid
    ensures NULL_LOCAL_ID < calls[i].id < RANGE
  {
    CallsKeepSound(tables, calls, 0, i);
    FindsKeepsSound(tables[i], calls[i].uuid, calls[i].id, tables[i + 1]);
    CallsKeepSound(tables, calls, i + 1, j);
    FindsKeepsSound(tables[j], calls[j].uuid, calls[j].id, tables[j + 1]);
  }

  class DomainGatekeeper {
    var uuidToLocalID: map<Uuid, nat>
    var localIDs: set<nat>
    var currentLocalID: nat
    var idIncrement: nat

    function Now(): Table
      reads this
    {
      Table(uuidToLocalID, localIDs, currentLocalID, idIncrement)
    }

    /** initLocalIDManagement, with two random 16-bit numbers. `| 1` makes an even one odd. */
    constructor (start: nat, random: nat)
      requires start < RANGE && random < RANGE
      ensures Sound(Now()) && uuidToLocalID == map[] && localIDs == {}
      ensures currentLocalID == start && idIncrement < RANGE
    {
      uuidToLocalID, localIDs := map[], {};
      currentLocalID := start;
      idIncrement := if random % 2 == 0 then random + 1 else random;
    }

    /** The source asserts that fewer than 2^16 - 3 IDs are in use; one less than all suffices. */
    method FindOrCreateLocalID(uuid: Uuid) returns (newLocalID: nat)
      requires Sound(Now())
      requires uuid in uuidToLocalID || |localIDs| < RANGE - 1
      modifies this
      ensures Finds(old(Now()), uuid, newLocalID, Now())
      ensures Sound(Now())
    {
      if uuid in uuidToLocalID {
        return uuidToLocalID[uuid];
      }
      ghost var t, k := Now(), 0;
      FirstPosition(t.current, t.step);
      hide Plus, Position, Sound, Finds;
      newLocalID := currentLocalID;
      currentLocalID := Plus(currentLocalID, idIncrement);
      while newLocalID == NULL_LOCAL_ID || newLocalID in localIDs
        invariant uuidToLocalID == t.ids && localIDs == t.taken && idIncrement == t.step
        invariant k < RANGE && newLocalID == Position(t.current, t.step, k)
        invariant currentLocalID == Position(t.current, t.step, k + 1)
        invariant forall j :: 0 <= j < k ==> !Free(t.taken, Position(t.current, t.step, j))
        decreases RANGE - k
      {
        RefusedAreInUse(t, k + 1);
        NextPosition(t.current, t.step, k + 1);
        newLocalID := currentLocalID;
        currentLocalID := Plus(currentLocalID, idIncrement);
        k := k + 1;
      }
      uuidToLocalID := uuidToLocalID[uuid := newLocalID];
      localIDs := localIDs + {newLocalID};
      FindsFirstFree(t, uuid, k);
    }
  }
}
