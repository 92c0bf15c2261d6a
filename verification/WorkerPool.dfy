/** The audio mixer's worker pool: a barrier built from a mutex, two condition variables and
    three counters (AudioMixerWorkerPool.cpp). Every critical section, queue operation and
    unguarded read is one atomic step; a run is any interleaving of enabled steps. */
module WorkerPool {

  // A node waiting to be mixed.
  type Node = nat
  // The work function of a round (`_function` together with `_configure`).
  type Work = nat

  datatype Phase =
    | Waiting                       // in or before the wait on the worker condition
    | Started                       // has taken a start slot, has not read the work function yet
    | Popping                       // in the pop loop
    | Processing(node: Node)        // runs the work function on a popped node
    | Drained                       // saw the queue empty, has not read its stop flag yet
    | Notifying(stopping: bool)     // about to report that it finished
    | Exited                        // left its run loop

  datatype Worker = Worker(phase: Phase, stop: bool, work: Work)

  datatype Mode = Idle | Running | Shrinking(target: nat)

  datatype Pool = Pool(
    workers: seq<Worker>,
    mode: Mode,
    numThreads: nat,
    numStarted: nat,
    numFinished: nat,
    numStopped: nat,
    queue: seq<Node>,
    work: Work,
    processed: multiset<(Node, Work)>  // what the current round has processed, and with which function
  )

  datatype Step =
    // steps of the worker with the given index
    | Start(i: nat)
    | Configure(i: nat)
    | Pop(i: nat)
    | Process(i: nat)
    | PopFails(i: nat)
    | ReadStop(i: nat)
    | Notify(i: nat)
    // steps of the thread that owns the pool
    | BeginRound(nodes: seq<Node>, newWork: Work)
    | EndRound
    | Grow(n: nat)
    | BeginShrink(n: nat)
    | CycleShrink
    | EndShrink

  predicate IsWorkerStep(step: Step) {
    step.Start? || step.Configure? || step.Pop? || step.Process? || step.PopFails? || step.ReadStop? || step.Notify?
  }

  predicate InPhase(s: Pool, i: nat, phase: Phase) {
    i < |s.workers| && s.workers[i].phase == phase
  }

  predicate Enabled(s: Pool, step: Step) {
    match step
    case Start(i) => InPhase(s, i, Waiting) && s.numStarted != s.numThreads
    case Configure(i) => InPhase(s, i, Started)
    case Pop(i) => InPhase(s, i, Popping) && s.queue != []
    case Process(i) => i < |s.workers| && s.workers[i].phase.Processing?
    case PopFails(i) => InPhase(s, i, Popping) && s.queue == []
    case ReadStop(i) => InPhase(s, i, Drained)
    case Notify(i) => i < |s.workers| && s.workers[i].phase.Notifying?
    // setNumThreads clamps to at least one thread; only the destructor asks for none
    case BeginRound(_, _) => s.mode == Idle && s.numThreads > 0
    case EndRound => s.mode == Running && s.numFinished == s.numThreads
    case Grow(n) => s.mode == Idle && s.numThreads <= n
    case BeginShrink(n) => s.mode == Idle && n < s.numThreads
    case CycleShrink =>
      s.mode.Shrinking? && s.numFinished == s.numThreads && s.numStopped + s.mode.target != s.numThreads
    case EndShrink =>
      s.mode.Shrinking? && s.numFinished == s.numThreads && s.numStopped + s.mode.target == s.numThreads &&
      s.mode.target <= |s.workers|
  }

  function SetPhase(s: Pool, i: nat, phase: Phase): Pool
    requires i < |s.workers|
  {
    s.(workers := s.workers[i := s.workers[i].(phase := phase)])
  }

  function FlagFrom(workers: seq<Worker>, n: nat): seq<Worker> {
    seq(|workers|, i requires 0 <= i < |workers| => if i < n then workers[i] else workers[i].(stop := true))
  }

  function Apply(s: Pool, step: Step): Pool
    requires Enabled(s, step)
  {
    match step
    case Start(i) => SetPhase(s, i, Started).(numStarted := s.numStarted + 1)
    case Configure(i) => s.(workers := s.workers[i := s.workers[i].(phase := Popping, work := s.work)])
    case Pop(i) => SetPhase(s, i, Processing(s.queue[0])).(queue := s.queue[1..])
    case Process(i) =>
      SetPhase(s, i, Popping).(processed := s.processed + multiset{(s.workers[i].phase.node, s.workers[i].work)})
    case PopFails(i) => SetPhase(s, i, Drained)
    case ReadStop(i) => SetPhase(s, i, Notifying(s.workers[i].stop))
    case Notify(i) =>
      var stopping := s.workers[i].phase.stopping;
      SetPhase(s, i, if stopping then Exited else Waiting).(
        numFinished := s.numFinished + 1,
        numStopped := if stopping then s.numStopped + 1 else s.numStopped)
    case BeginRound(nodes, newWork) =>
      s.(mode := Running, work := newWork, queue := s.queue + nodes, numStarted := 0, numFinished := 0,
         processed := multiset{})
    case EndRound => s.(mode := Idle)
    case Grow(n) =>
      s.(workers := s.workers + seq(n - s.numThreads, _ => Worker(Waiting, false, 0)),
         numThreads := n, numStarted := n, numFinished := n)
    case BeginShrink(n) =>
      s.(workers := FlagFrom(s.workers, n), mode := Shrinking(n), numStopped := 0, numStarted := 0, numFinished := 0)
    case CycleShrink => s.(numStarted := s.numStopped, numFinished := s.numStopped)
    case EndShrink =>
      var n := s.mode.target;
      s.(workers := s.workers[..n], mode := Idle, numThreads := n, numStarted := n, numFinished := n)
  }

  predicate CanRun(s: Pool, steps: seq<Step>)
    decreases |steps|
  {
    steps == [] || (Enabled(s, steps[0]) && CanRun(Apply(s, steps[0]), steps[1..]))
  }

  function Run(s: Pool, steps: seq<Step>): Pool
    requires CanRun(s, steps)
    decreases |steps|
  {
    if steps == [] then s else Run(Apply(s, steps[0]), steps[1..])
  }

  const EMPTY: Pool := Pool([], Idle, 0, 0, 0, 0, [], 0, multiset{})

  // ---------- counting workers ----------

  function Sum(workers: seq<Worker>, f: Worker -> nat): nat {
    if workers == [] then 0 else f(workers[0]) + Sum(workers[1..], f)
  }

  function BusyOf(w: Worker): nat { if w.phase.Waiting? || w.phase.Exited? then 0 else 1 }
  function ExitedOf(w: Worker): nat { if w.phase.Exited? then 1 else 0 }
  function WaitingOf(w: Worker): nat { if w.phase.Waiting? then 1 else 0 }

  function Busy(workers: seq<Worker>): nat { Sum(workers, BusyOf) }
  function NumExited(workers: seq<Worker>): nat { Sum(workers, ExitedOf) }
  function NumWaiting(workers: seq<Worker>): nat { Sum(workers, WaitingOf) }

  lemma {:induction false} SumUpdate(workers: seq<Worker>, i: nat, w: Worker, f: Worker -> nat)
    requires i < |workers|
    ensures Sum(workers[i := w], f) + f(workers[i]) == Sum(workers, f) + f(w)
  {
    if i == 0 {
      assert workers[0 := w][1..] == workers[1..];
    } else {
      assert workers[i := w][1..] == workers[1..][i - 1 := w];
      SumUpdate(workers[1..], i - 1, w, f);
    }
  }

  lemma {:induction false} SumConcat(a: seq<Worker>, b: seq<Worker>, f: Worker -> nat)
    ensures Sum(a + b, f) == Sum(a, f) + Sum(b, f)
  {
    if a == [] {
      assert a + b == b;
    } else {
      assert (a + b)[1..] == a[1..] + b;
      SumConcat(a[1..], b, f);
    }
  }

  lemma {:induction false} SumSame(a: seq<Worker>, b: seq<Worker>, f: Worker -> nat)
    requires |a| == |b| && forall i :: 0 <= i < |a| ==> f(a[i]) == f(b[i])
    ensures Sum(a, f) == Sum(b, f)
  {
    if a != [] {
      assert f(a[0]) == f(b[0]);
      SumSame(a[1..], b[1..], f);
    }
  }

  lemma {:induction false} SumZero(workers: seq<Worker>, f: Worker -> nat)
    ensures Sum(workers, f) == 0 <==> forall i :: 0 <= i < |workers| ==> f(workers[i]) == 0
  {
    if workers != [] {
      SumZero(workers[1..], f);
      assert forall i :: 1 <= i < |workers| ==> workers[i] == workers[1..][i - 1];
      if forall i :: 0 <= i < |workers| ==> f(workers[i]) == 0 {
        assert forall i :: 0 <= i < |workers[1..]| ==> workers[1..][i] == workers[i + 1];
      }
    }
  }

  lemma {:induction false} CountsPartition(workers: seq<Worker>)
    ensures Busy(workers) + NumExited(workers) + NumWaiting(workers) == |workers|
  {
    if workers != [] {
      CountsPartition(workers[1..]);
    }
  }

  // The nodes that workers have popped and are still processing, tagged with the function in use.
  function InFlight(workers: seq<Worker>): multiset<(Node, Work)> {
    if workers == [] then multiset{} else OwnNode(workers[0]) + InFlight(workers[1..])
  }

  function OwnNode(w: Worker): multiset<(Node, Work)> {
    if w.phase.Processing? then multiset{(w.phase.node, w.work)} else multiset{}
  }

  lemma {:induction false} InFlightUpdate(workers: seq<Worker>, i: nat, w: Worker, x: (Node, Work))
    requires i < |workers|
    ensures InFlight(workers[i := w])[x] + OwnNode(workers[i])[x] == InFlight(workers)[x] + OwnNode(w)[x]
  {
    if i == 0 {
      assert workers[0 := w][1..] == workers[1..];
    } else {
      assert workers[i := w][1..] == workers[1..][i - 1 := w];
      InFlightUpdate(workers[1..], i - 1, w, x);
    }
  }

  lemma {:induction false} InFlightNone(workers: seq<Worker>)
    requires Busy(workers) == 0
    ensures InFlight(workers) == multiset{}
  {
    if workers != [] {
      InFlightNone(workers[1..]);
    }
  }

  function Tagged(nodes: seq<Node>, work: Work): multiset<(Node, Work)> {
    if nodes == [] then multiset{} else multiset{(nodes[0], work)} + Tagged(nodes[1..], work)
  }

  lemma {:induction false} TaggedCount(nodes: seq<Node>, work: Work, n: Node, w: Work)
    ensures Tagged(nodes, work)[(n, w)] == if w == work then multiset(nodes)[n] else 0
  {
    if nodes != [] {
      assert nodes == [nodes[0]] + nodes[1..];
      TaggedCount(nodes[1..], work, n, w);
    }
  }

  // ---------- the invariant ----------

  // What the mode of the pool says about the worker at index i. In a round, once some worker has
  // seen the queue empty nobody fills it again, and a worker past its start uses the round's function.
  ghost predicate Fits(s: Pool, i: nat, w: Worker) {
    match s.mode
    case Idle => w.phase.Waiting? && !w.stop
    case Running =>
      && !w.stop && !w.phase.Exited? && w.phase != Notifying(true)
      && (w.phase.Drained? || w.phase.Notifying? ==> s.queue == [])
      && (w.phase.Popping? || w.phase.Processing? ==> w.work == s.work)
    case Shrinking(n) =>
      && (w.stop <==> n <= i)
      && (w.phase.Exited? ==> n <= i)
      && !w.phase.Processing?
      && (w.phase.Notifying? ==> w.phase.stopping == w.stop)
  }

  ghost predicate AllFit(s: Pool) {
    forall i :: 0 <= i < |s.workers| ==> Fits(s, i, s.workers[i])
  }

  ghost predicate Counted(s: Pool) {
    && |s.workers| == s.numThreads
    && s.numFinished <= s.numStarted <= s.numThreads
    && s.numStarted == s.numFinished + Busy(s.workers)
    && NumExited(s.workers) <= s.numFinished
    && match s.mode
       case Idle => s.queue == [] && s.numFinished == s.numThreads
       case Running => s.numThreads > 0 && (s.numFinished > 0 ==> s.queue == [])
       case Shrinking(n) => s.queue == [] && n < s.numThreads && s.numStopped == NumExited(s.workers)
  }

  ghost predicate Inv(s: Pool) {
    Counted(s) && AllFit(s)
  }

  /** "Every node of the round" : what is still queued, being processed, and already processed. */
  ghost function Accounted(s: Pool): multiset<(Node, Work)> {
    Tagged(s.queue, s.work) + InFlight(s.workers) + s.processed
  }

  lemma CountsAfter(s: Pool, i: nat, w: Worker)
    requires i < |s.workers|
    ensures var ws := s.workers[i := w];
      && Busy(ws) + BusyOf(s.workers[i]) == Busy(s.workers) + BusyOf(w)
      && NumExited(ws) + ExitedOf(s.workers[i]) == NumExited(s.workers) + ExitedOf(w)
  {
    SumUpdate(s.workers, i, w, BusyOf);
    SumUpdate(s.workers, i, w, ExitedOf);
  }

  lemma WorkerStepKeepsFit(s: Pool, step: Step)
    requires AllFit(s) && Enabled(s, step) && IsWorkerStep(step) && s.mode != Idle
    requires s.mode.Shrinking? ==> s.queue == []
    ensures AllFit(Apply(s, step))
  {
    var t := Apply(s, step);
    assert Fits(s, step.i, s.workers[step.i]);
    forall j | 0 <= j < |t.workers| ensures Fits(t, j, t.workers[j]) {
      if j != step.i {
        assert t.workers[j] == s.workers[j];
        assert Fits(s, j, s.workers[j]);
      }
    }
  }

  lemma WorkerStepKeepsCounts(s: Pool, step: Step)
    requires Inv(s) && Enabled(s, step) && IsWorkerStep(step)
    ensures Counted(Apply(s, step)) && s.mode != Idle
  {
    var t := Apply(s, step);
    var i := step.i;
    CountsAfter(s, i, t.workers[i]);
    assert t.workers == s.workers[i := t.workers[i]];
    CountsPartition(t.workers);
    assert Fits(s, i, s.workers[i]);
  }

  lemma ResizeKeepsInv(s: Pool, step: Step)
    requires Inv(s) && Enabled(s, step) && (step.Grow? || step.BeginShrink? || step.CycleShrink?)
    ensures Inv(Apply(s, step))
  {
    var t := Apply(s, step);
    match step {
      case Grow(n) =>
        var added := seq(n - s.numThreads, _ => Worker(Waiting, false, 0));
        SumConcat(s.workers, added, BusyOf);
        SumConcat(s.workers, added, ExitedOf);
        SumZero(added, BusyOf);
        SumZero(added, ExitedOf);
        forall i | 0 <= i < |t.workers| ensures Fits(t, i, t.workers[i]) {
          assert i < |s.workers| ==> Fits(s, i, s.workers[i]);
        }
      case BeginShrink(n) =>
        IdleCounts(s);
        SumSame(s.workers, t.workers, BusyOf);
        SumSame(s.workers, t.workers, ExitedOf);
        forall i | 0 <= i < |t.workers| ensures Fits(t, i, t.workers[i]) {
          assert Fits(s, i, s.workers[i]);
        }
      case CycleShrink =>
        forall i | 0 <= i < |t.workers| ensures Fits(t, i, t.workers[i]) {
          assert Fits(s, i, s.workers[i]);
        }
    }
  }

  lemma IdleCounts(s: Pool)
    requires Inv(s) && s.mode == Idle
    ensures Busy(s.workers) == 0 && NumExited(s.workers) == 0
  {
    forall i | 0 <= i < |s.workers| ensures s.workers[i].phase.Waiting? {
      assert Fits(s, i, s.workers[i]);
    }
    SumZero(s.workers, BusyOf);
    SumZero(s.workers, ExitedOf);
  }

  lemma TailExited(s: Pool)
    requires Inv(s) && Enabled(s, EndShrink)
    ensures forall i :: 0 <= i < |s.workers| ==> (s.workers[i].phase.Exited? <==> s.mode.target <= i)
    ensures forall i :: 0 <= i < s.mode.target ==> s.workers[i].phase.Waiting? && !s.workers[i].stop
  {
    var n := s.mode.target;
    var head, tail := s.workers[..n], s.workers[n..];
    assert NumExited(tail) == |tail| by {
      assert s.workers == head + tail;
      SumConcat(head, tail, ExitedOf);
      forall i | 0 <= i < n ensures ExitedOf(head[i]) == 0 {
        assert Fits(s, i, s.workers[i]);
      }
      SumZero(head, ExitedOf);
    }
    AllExited(tail);
    SumZero(s.workers, BusyOf);
    forall i | 0 <= i < |s.workers|
      ensures s.workers[i].phase.Exited? <==> n <= i
      ensures i < n ==> s.workers[i].phase.Waiting? && !s.workers[i].stop
    {
      assert Fits(s, i, s.workers[i]);
      assert BusyOf(s.workers[i]) == 0;
      assert n <= i ==> tail[i - n] == s.workers[i];
    }
  }

  lemma {:induction false} AllExited(workers: seq<Worker>)
    requires NumExited(workers) == |workers|
    ensures forall i :: 0 <= i < |workers| ==> workers[i].phase.Exited?
  {
    if workers != [] {
      CountsPartition(workers[1..]);
      AllExited(workers[1..]);
      assert forall i :: 1 <= i < |workers| ==> workers[i] == workers[1..][i - 1];
    }
  }

  lemma EndShrinkKeepsInv(s: Pool)
    requires Inv(s) && Enabled(s, EndShrink)
    ensures Inv(Apply(s, EndShrink))
  {
    TailExited(s);
    var kept := s.workers[..s.mode.target];
    forall i | 0 <= i < |kept|
      ensures kept[i].phase == Waiting && !kept[i].stop
    {
      assert kept[i] == s.workers[i];
    }
    SumZero(kept, BusyOf);
    SumZero(kept, ExitedOf);
  }

  lemma RoundEdgeKeepsInv(s: Pool, step: Step)
    requires Inv(s) && Enabled(s, step) && (step.BeginRound? || step.EndRound?)
    ensures Inv(Apply(s, step))
  {
    var t := Apply(s, step);
    if step.BeginRound? {
      IdleCounts(s);
    } else {
      SumZero(s.workers, BusyOf);
    }
    forall i | 0 <= i < |t.workers| ensures Fits(t, i, t.workers[i]) {
      assert Fits(s, i, s.workers[i]);
      assert step.EndRound? ==> BusyOf(s.workers[i]) == 0;
    }
  }

  lemma StepKeepsInv(s: Pool, step: Step)
    requires Inv(s) && Enabled(s, step)
    ensures Inv(Apply(s, step))
  {
    if IsWorkerStep(step) {
      WorkerStepKeepsCounts(s, step);
      WorkerStepKeepsFit(s, step);
    } else if step.EndShrink? {
      EndShrinkKeepsInv(s);
    } else if step.BeginRound? || step.EndRound? {
      RoundEdgeKeepsInv(s, step);
    } else {
      ResizeKeepsInv(s, step);
    }
  }

  lemma {:induction false} RunKeepsInv(s: Pool, steps: seq<Step>)
    requires Inv(s) && CanRun(s, steps)
    ensures Inv(Run(s, steps))
    decreases |steps|
  {
    if steps != [] {
      StepKeepsInv(s, steps[0]);
      RunKeepsInv(Apply(s, steps[0]), steps[1..]);
    }
  }

  // ---------- main results ----------

  /** Some run from the pool without workers leads to s. */
  ghost predicate Reachable(s: Pool) {
    exists steps :: CanRun(EMPTY, steps) && Run(EMPTY, steps) == s
  }

  lemma ReachableInv(s: Pool)
    requires Reachable(s)
    ensures Inv(s)
  {
    var steps :| CanRun(EMPTY, steps) && Run(EMPTY, steps) == s;
    RunKeepsInv(EMPTY, steps);
  }

  /** Safety over every interleaving: started minus finished counts exactly the workers between
      their start and their report, and the source's assertions about the counters hold. */
  lemma CountersAreExact(s: Pool)
    requires Reachable(s)
    ensures s.numStarted - s.numFinished == Busy(s.workers)
    ensures s.numFinished <= s.numStarted <= s.numThreads == |s.workers|
    ensures forall i: nat :: Enabled(s, Notify(i)) ==> s.numFinished < s.numThreads
    ensures Enabled(s, EndRound) ==> s.numStarted == s.numThreads && s.queue == []
  {
    ReachableInv(s);
    SumZero(s.workers, BusyOf);
    forall i: nat | Enabled(s, Notify(i)) ensures s.numFinished < s.numThreads {
      assert BusyOf(s.workers[i]) == 1;
    }
  }

  /** Start slots left never exceed the live workers that can take them, so a round or a shrink
      cycle that is not over always has an enabled worker step, down to a resize to no workers at
      all; one that is over always lets the owner go on. */
  lemma NoDeadlock(s: Pool)
    requires Reachable(s)
    ensures s.numThreads - s.numStarted <= NumWaiting(s.workers)
    ensures s.numFinished < s.numThreads ==> exists step :: IsWorkerStep(step) && Enabled(s, step)
    ensures s.numFinished == s.numThreads && s.mode != Idle ==> exists step :: !IsWorkerStep(step) && Enabled(s, step)
  {
    ReachableInv(s);
    CountsPartition(s.workers);
    if s.numFinished < s.numThreads {
      var step := SomeWorkerCanMove(s);
    } else if s.mode == Running {
      assert Enabled(s, EndRound);
    } else if s.mode.Shrinking? {
      assert Enabled(s, CycleShrink) || Enabled(s, EndShrink);
    }
  }

  /** When the shrink loop exits, exactly the flagged tail workers have left their run loop, only
      those are erased, and every worker that is kept is waiting and unflagged. */
  lemma ShrinkErasesExactlyTheExited(s: Pool)
    requires Reachable(s) && Enabled(s, EndShrink)
    ensures forall i :: 0 <= i < |s.workers| ==> (s.workers[i].phase.Exited? <==> s.mode.target <= i)
    ensures Apply(s, EndShrink).workers == s.workers[..s.mode.target]
    ensures forall i :: 0 <= i < s.mode.target ==> s.workers[i].phase.Waiting? && !s.workers[i].stop
  {
    ReachableInv(s);
    TailExited(s);
  }

  lemma SomeWorkerCanMove(s: Pool) returns (step: Step)
    requires Inv(s) && s.numFinished < s.numThreads
    ensures IsWorkerStep(step) && Enabled(s, step)
  {
    CountsPartition(s.workers);
    if Busy(s.workers) > 0 {
      SumZero(s.workers, BusyOf);
      var i: nat :| i < |s.workers| && BusyOf(s.workers[i]) != 0;
      step := match s.workers[i].phase
        case Started => Configure(i)
        case Popping => if s.queue == [] then PopFails(i) else Pop(i)
        case Processing(_) => Process(i)
        case Drained => ReadStop(i)
        case _ => Notify(i);
    } else {
      SumZero(s.workers, WaitingOf);
      var i: nat :| i < |s.workers| && WaitingOf(s.workers[i]) != 0;
      step := Start(i);
    }
  }

  // Moving one worker from w to w' moves its own node into or out of the other two places.
  lemma MoveKeepsAccount(s: Pool, t: Pool, i: nat)
    requires i < |s.workers| && |t.workers| == |s.workers| && t.workers == s.workers[i := t.workers[i]]
    requires Tagged(t.queue, t.work) + OwnNode(t.workers[i]) + t.processed
          == Tagged(s.queue, s.work) + OwnNode(s.workers[i]) + s.processed
    ensures Accounted(t) == Accounted(s)
  {
    forall x ensures Accounted(t)[x] == Accounted(s)[x] {
      InFlightUpdate(s.workers, i, t.workers[i], x);
      assert (Tagged(t.queue, t.work) + OwnNode(t.workers[i]) + t.processed)[x]
          == (Tagged(s.queue, s.work) + OwnNode(s.workers[i]) + s.processed)[x];
    }
  }

  lemma PopKeepsAccount(s: Pool, i: nat)
    requires Enabled(s, Pop(i)) && AllFit(s) && s.mode == Running
    ensures Accounted(Apply(s, Pop(i))) == Accounted(s)
  {
    var t, node := Apply(s, Pop(i)), multiset{(s.queue[0], s.work)};
    assert Fits(s, i, s.workers[i]);
    assert t.workers == s.workers[i := t.workers[i]];
    assert Tagged(s.queue, s.work) == node + Tagged(t.queue, t.work);
    assert OwnNode(s.workers[i]) == multiset{} && OwnNode(t.workers[i]) == node;
    assert t.processed == s.processed;
    hide Tagged, OwnNode, Apply, Enabled, Fits, AllFit;
    MoveKeepsAccount(s, t, i);
  }

  lemma ProcessKeepsAccount(s: Pool, i: nat)
    requires Enabled(s, Process(i))
    ensures Accounted(Apply(s, Process(i))) == Accounted(s)
  {
    var t := Apply(s, Process(i));
    assert t.workers == s.workers[i := t.workers[i]] && t.queue == s.queue && t.work == s.work;
    assert OwnNode(t.workers[i]) == multiset{} && t.processed == s.processed + OwnNode(s.workers[i]);
    hide Tagged, OwnNode, Apply, Enabled;
    MoveKeepsAccount(s, t, i);
  }

  lemma OtherStepKeepsAccount(s: Pool, step: Step)
    requires Enabled(s, step) && IsWorkerStep(step) && !step.Pop? && !step.Process?
    ensures Accounted(Apply(s, step)) == Accounted(s)
  {
    var t, i := Apply(s, step), step.i;
    assert t.workers == s.workers[i := t.workers[i]] && t.queue == s.queue && t.work == s.work &&
      t.processed == s.processed;
    assert OwnNode(t.workers[i]) == OwnNode(s.workers[i]);
    hide Tagged, OwnNode, Apply, Enabled;
    MoveKeepsAccount(s, t, i);
  }

  lemma WorkerStepKeepsAccount(s: Pool, step: Step)
    requires AllFit(s) && s.mode == Running && Enabled(s, step) && IsWorkerStep(step)
    ensures Accounted(Apply(s, step)) == Accounted(s)
  {
    match step
    case Pop(i) => PopKeepsAccount(s, i);
    case Process(i) => ProcessKeepsAccount(s, i);
    case _ => OtherStepKeepsAccount(s, step);
  }

  // ---------- how long a round takes ----------

  function Weight(w: Worker): nat {
    match w.phase
    case Started => 4
    case Popping => 3
    case Processing(_) => 4
    case Drained => 2
    case Notifying(_) => 1
    case _ => 0
  }

  ghost function WorkLeft(s: Pool): int {
    5 * (s.numThreads - s.numStarted) + 2 * |s.queue| + Sum(s.workers, Weight)
  }

  lemma WorkerStepCostsOne(s: Pool, step: Step)
    requires Enabled(s, step) && IsWorkerStep(step)
    ensures WorkLeft(Apply(s, step)) == WorkLeft(s) - 1
  {
    var t := Apply(s, step);
    SumUpdate(s.workers, step.i, t.workers[step.i], Weight);
    assert t.workers == s.workers[step.i := t.workers[step.i]];
  }

  lemma {:induction false} WorkerSteps(s: Pool, steps: seq<Step>)
    requires Inv(s) && CanRun(s, steps) && forall k :: 0 <= k < |steps| ==> IsWorkerStep(steps[k])
    ensures var t := Run(s, steps);
      && Inv(t) && t.mode == s.mode && t.work == s.work && t.numThreads == s.numThreads
      && WorkLeft(t) == WorkLeft(s) - |steps|
      && (s.mode == Running ==> Accounted(t) == Accounted(s))
    decreases |steps|
  {
    if steps != [] {
      assert IsWorkerStep(steps[0]);
      StepKeepsInv(s, steps[0]);
      WorkerStepCostsOne(s, steps[0]);
      if s.mode == Running {
        WorkerStepKeepsAccount(s, steps[0]);
      }
      var t := Apply(s, steps[0]);
      assert t.mode == s.mode && t.work == s.work && t.numThreads == s.numThreads && CanRun(t, steps[1..]);
      hide Apply, Enabled, Inv, WorkLeft, Accounted;
      WorkerSteps(t, steps[1..]);
    }
  }

  /** However a round is interleaved, when the wait in `run` returns every pushed node has been
      processed exactly once with this round's function, the queue is empty, no worker is at work,
      and exactly 5 steps per thread and 2 per node were taken: a fast worker that takes several
      slots changes none of this. */
  lemma RoundProcessesEachNodeOnce(s: Pool, nodes: seq<Node>, work: Work, steps: seq<Step>)
    requires Reachable(s) && Enabled(s, BeginRound(nodes, work))
    requires CanRun(Apply(s, BeginRound(nodes, work)), steps)
    requires forall k :: 0 <= k < |steps| ==> IsWorkerStep(steps[k])
    requires Enabled(Run(Apply(s, BeginRound(nodes, work)), steps), EndRound)
    ensures var t := Run(Apply(s, BeginRound(nodes, work)), steps);
      && t.queue == [] && Busy(t.workers) == 0
      && (forall n, w :: t.processed[(n, w)] == if w == work then multiset(nodes)[n] else 0)
      && |steps| == 5 * s.numThreads + 2 * |nodes|
  {
    ReachableInv(s);
    IdleCounts(s);
    var b := Apply(s, BeginRound(nodes, work));
    assert b.queue == nodes;
    StepKeepsInv(s, BeginRound(nodes, work));
    RoundFrom(b, steps);
    forall n, w ensures Run(b, steps).processed[(n, w)] == if w == work then multiset(nodes)[n] else 0 {
      TaggedCount(nodes, work, n, w);
    }
  }

  lemma RoundFrom(b: Pool, steps: seq<Step>)
    requires Inv(b) && b.mode == Running && b.numStarted == 0 && Busy(b.workers) == 0 && b.processed == multiset{}
    requires CanRun(b, steps) && forall k :: 0 <= k < |steps| ==> IsWorkerStep(steps[k])
    requires Run(b, steps).numFinished == Run(b, steps).numThreads
    ensures var t := Run(b, steps);
      t.queue == [] && Busy(t.workers) == 0 && t.processed == Tagged(b.queue, b.work)
    ensures |steps| == 5 * b.numThreads + 2 * |b.queue|
  {
    WorkerSteps(b, steps);
    RoundOver(b, Run(b, steps));
  }

  lemma RoundOver(b: Pool, t: Pool)
    requires Inv(b) && b.mode == Running && b.numStarted == 0 && Busy(b.workers) == 0 && b.processed == multiset{}
    requires Inv(t) && t.mode == Running && t.numFinished == t.numThreads && t.work == b.work
    requires Accounted(t) == Accounted(b)
    ensures t.queue == [] && Busy(t.workers) == 0 && t.processed == Tagged(b.queue, b.work)
    ensures WorkLeft(t) == 0 && WorkLeft(b) == 5 * b.numThreads + 2 * |b.queue|
  {
    InFlightNone(b.workers);
    InFlightNone(t.workers);
    IdleWeighsNothing(b.workers);
    IdleWeighsNothing(t.workers);
    assert t.queue == [];
    assert Accounted(t) == t.processed;
    assert Accounted(b) == Tagged(b.queue, b.work);
  }

  lemma {:induction false} IdleWeighsNothing(workers: seq<Worker>)
    requires Busy(workers) == 0
    ensures Sum(workers, Weight) == 0
  {
    if workers != [] {
      IdleWeighsNothing(workers[1..]);
    }
  }

  // ---------- resizing ----------

  predicate IsShrinkStep(step: Step) {
    IsWorkerStep(step) || step.CycleShrink?
  }

  // While the pool shrinks nobody is added, removed or reordered, and no stop flag changes.
  lemma {:induction false} ShrinkSteps(s: Pool, steps: seq<Step>)
    requires s.mode.Shrinking? && CanRun(s, steps) && forall k :: 0 <= k < |steps| ==> IsShrinkStep(steps[k])
    ensures var t := Run(s, steps);
      && t.mode == s.mode && t.numThreads == s.numThreads && |t.workers| == |s.workers|
      && forall i :: 0 <= i < |s.workers| ==> t.workers[i].stop == s.workers[i].stop
    decreases |steps|
  {
    if steps != [] {
      assert IsShrinkStep(steps[0]);
      ShrinkSteps(Apply(s, steps[0]), steps[1..]);
    }
  }

  lemma {:induction false} RunAppend(s: Pool, a: seq<Step>, b: seq<Step>)
    requires CanRun(s, a) && CanRun(Run(s, a), b)
    ensures CanRun(s, a + b) && Run(s, a + b) == Run(Run(s, a), b)
    decreases |a|
  {
    if a == [] {
      assert a + b == b;
    } else {
      assert (a + b)[0] == a[0] && (a + b)[1..] == a[1..] + b;
      RunAppend(Apply(s, a[0]), a[1..], b);
    }
  }

  lemma ReachableRun(s: Pool, steps: seq<Step>)
    requires Reachable(s) && CanRun(s, steps)
    ensures Reachable(Run(s, steps))
  {
    var before :| CanRun(EMPTY, before) && Run(EMPTY, before) == s;
    RunAppend(EMPTY, before, steps);
  }

  lemma IdleWorkersWait(s: Pool)
    requires Reachable(s) && s.mode == Idle
    ensures |s.workers| == s.numThreads
    ensures forall i :: 0 <= i < |s.workers| ==> s.workers[i].phase.Waiting? && !s.workers[i].stop
  {
    ReachableInv(s);
    forall i | 0 <= i < |s.workers| ensures s.workers[i].phase.Waiting? && !s.workers[i].stop {
      assert Fits(s, i, s.workers[i]);
    }
  }

  lemma FlagsFromN(s: Pool, n: nat)
    requires s.mode == Idle && n < s.numThreads
    requires forall i :: 0 <= i < |s.workers| ==> !s.workers[i].stop
    ensures Enabled(s, BeginShrink(n))
    ensures var b := Apply(s, BeginShrink(n));
      && |b.workers| == |s.workers| && b.mode == Shrinking(n)
      && forall i :: 0 <= i < |s.workers| ==> b.workers[i] == s.workers[i].(stop := i >= n)
  {
  }

  /** Shrinking an idle pool to n threads flags exactly the workers from index n on, and whatever cycles
      and interleavings follow, leaves exactly n: the first n, idle and unflagged, with which the next
      round can begin (unless n is 0). */
  lemma ShrinkLeavesTheFirst(s: Pool, n: nat, steps: seq<Step>, nodes: seq<Node>, work: Work)
    requires Reachable(s) && s.mode == Idle && n < s.numThreads
    requires CanRun(Apply(s, BeginShrink(n)), steps) && forall k :: 0 <= k < |steps| ==> IsShrinkStep(steps[k])
    requires Enabled(Run(Apply(s, BeginShrink(n)), steps), EndShrink)
    ensures Enabled(s, BeginShrink(n)) && |s.workers| == s.numThreads
    ensures var b := Apply(s, BeginShrink(n));
      && |b.workers| == |s.workers|
      && forall i :: 0 <= i < |s.workers| ==> b.workers[i] == s.workers[i].(stop := i >= n)
    ensures var t := Run(Apply(s, BeginShrink(n)), steps);
      && |t.workers| == |s.workers|
      && (forall i :: 0 <= i < |t.workers| ==>
           (t.workers[i].stop <==> i >= n) && (t.workers[i].phase.Exited? <==> i >= n))
      && var e := Apply(t, EndShrink);
        && e.workers == t.workers[..n] && |e.workers| == n == e.numThreads && e.mode == Idle
        && (forall i :: 0 <= i < n ==> e.workers[i].phase.Waiting? && !e.workers[i].stop)
        && (Enabled(e, BeginRound(nodes, work)) <==> n > 0)
  {
    IdleWorkersWait(s);
    FlagsFromN(s, n);
    var b := Apply(s, BeginShrink(n));
    ShrinkSteps(b, steps);
    assert Run(s, [BeginShrink(n)] + steps) == Run(b, steps) by {
      assert ([BeginShrink(n)] + steps)[1..] == steps;
    }
    ReachableRun(s, [BeginShrink(n)] + steps);
    ShrinkErasesExactlyTheExited(Run(b, steps));
    hide Reachable, Run, FlagFrom;
  }

  lemma GrowAdds(s: Pool, n: nat)
    requires s.mode == Idle && |s.workers| == s.numThreads <= n
    ensures Enabled(s, Grow(n))
    ensures var e := Apply(s, Grow(n));
      && |e.workers| == n == e.numThreads && e.mode == Idle
      && (forall i :: 0 <= i < s.numThreads ==> e.workers[i] == s.workers[i])
      && (forall i :: s.numThreads <= i < n ==> e.workers[i].phase.Waiting? && !e.workers[i].stop)
  {
  }

  /** Growing an idle pool to n threads keeps its workers and adds idle, unflagged ones behind them. */
  lemma GrowKeepsTheOld(s: Pool, n: nat, nodes: seq<Node>, work: Work)
    requires Reachable(s) && s.mode == Idle && n >= s.numThreads
    ensures Enabled(s, Grow(n)) && |s.workers| == s.numThreads
    ensures var e := Apply(s, Grow(n));
      && |e.workers| == n == e.numThreads && e.mode == Idle && e.workers[..s.numThreads] == s.workers
      && (forall i :: 0 <= i < n ==> e.workers[i].phase.Waiting? && !e.workers[i].stop)
      && (Enabled(e, BeginRound(nodes, work)) <==> n > 0)
  {
    IdleWorkersWait(s);
    GrowAdds(s, n);
  }

  /** After a round the pool is idle again, with the workers it had, ready for the next. */
  lemma RoundLeavesThePool(s: Pool, nodes: seq<Node>, work: Work, steps: seq<Step>, more: seq<Node>,
      next: Work)
    requires Reachable(s) && Enabled(s, BeginRound(nodes, work))
    requires CanRun(Apply(s, BeginRound(nodes, work)), steps)
    requires forall k :: 0 <= k < |steps| ==> IsWorkerStep(steps[k])
    requires Enabled(Run(Apply(s, BeginRound(nodes, work)), steps), EndRound)
    ensures var e := Apply(Run(Apply(s, BeginRound(nodes, work)), steps), EndRound);
      && e.mode == Idle && |e.workers| == |s.workers| && e.numThreads == s.numThreads
      && Enabled(e, BeginRound(more, next))
  {
    ReachableInv(s);
    StepKeepsInv(s, BeginRound(nodes, work));
    WorkerSteps(Apply(s, BeginRound(nodes, work)), steps);
    StepKeepsInv(Run(Apply(s, BeginRound(nodes, work)), steps), EndRound);
    hide AllFit, Run, WorkLeft, Accounted;
  }

  /** A shrink cycle is finite too: the workers take exactly 5 steps per live worker, whoever takes them. */
  lemma ShrinkCycleLength(s: Pool, edge: Step, steps: seq<Step>)
    requires Reachable(s) && Enabled(s, edge) && (edge.BeginShrink? || edge.CycleShrink?)
    requires CanRun(Apply(s, edge), steps)
    requires forall k :: 0 <= k < |steps| ==> IsWorkerStep(steps[k])
    requires var t := Run(Apply(s, edge), steps); t.numFinished == t.numThreads
    ensures var b := Apply(s, edge);
      |steps| == 5 * (b.numThreads - NumExited(b.workers))
  {
    var b := Apply(s, edge);
    ReachableInv(s);
    StepKeepsInv(s, edge);
    WorkerSteps(b, steps);
    IdleWeighsNothing(b.workers);
    IdleWeighsNothing(Run(b, steps).workers);
  }
}
