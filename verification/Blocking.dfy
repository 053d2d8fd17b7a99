/** `BlockingReaderWriterQueue`: the lock-free queue and the semaphore run side by side, one producer
    and one consumer, every step of either component one step here. */
module Blocking {
  import opened Bits
  import S = Spsc
  import I = SpscInvariant
  import R = SpscTheorems
  import Q = SpscSequential
  import M = Semaphore

  datatype Call = TryDequeue | WaitDequeue | WaitDequeueTimed(timeout: M.Timeout) | Pop
  {
    function Kind(): S.Kind { if Pop? then S.Pop else S.Dequeue }

    /** How the call waits on the semaphore. */
    function Wait(): M.Event {
      match this
      case TryDequeue => M.CallTryWait
      case Pop => M.CallTryWait
      case WaitDequeue => M.CallWait(M.Forever)
      case WaitDequeueTimed(t) => M.CallWait(t)
    }
  }

  /** Where each thread is: in the inner queue's enqueue, about to signal, about to post; in the
      semaphore's wait, holding an acquired unit, in the inner queue. `CFailed` is a failed
      `assert(success)`. */
  datatype Producer = PReady | PInner | PSignal | PPost
  datatype Consumer = CReady | CWaiting(call: Call) | CAcquired(kind: S.Kind) | CInner(kind: S.Kind) | CFailed

  datatype State<T> = State(q: S.State<T>, m: M.State, prod: Producer, cons: Consumer)

  function Init<T>(cfg: S.Config): State<T>
    requires cfg.maxBlock >= 2 && cfg.size + 1 < WORD
  {
    State(S.Init(cfg), M.Init(0), PReady, CReady)
  }

  datatype Event<T> =
    | StartEnqueue(x: T, canAlloc: bool)
    | InnerProducer(outOfMemory: bool)
    | DoSignal
    | DoPost
    | StartTake(call: Call)
    | Waiting(step: M.Event)
    | Retry
    | StartInner
    | StartPeek
    | InnerConsumer

  function InnerProducerEvent<T>(outOfMemory: bool): S.Event<T> {
    if outOfMemory then S.AllocationFails else S.ProducerStep
  }

  predicate Enabled<T>(b: State<T>, e: Event<T>) {
    match e
    case StartEnqueue(x, alloc) => b.prod.PReady? && S.Enabled(b.q, S.CallEnqueue(x, alloc))
    case InnerProducer(oom) => b.prod.PInner? && S.Enabled(b.q, InnerProducerEvent(oom))
    case DoSignal => b.prod.PSignal? && M.Enabled(b.m, M.Signal(1))
    case DoPost => b.prod.PPost? && M.Enabled(b.m, M.Post)
    case StartTake(call) => b.cons.CReady? && M.Enabled(b.m, call.Wait())
    case Waiting(step) =>
      b.cons.CWaiting? && (step.WaiterStep? || step.KernelTake? || step.KernelGivesUp?) && M.Enabled(b.m, step)
    case Retry => b.cons.CWaiting? && M.Enabled(b.m, b.cons.call.Wait())
    case StartInner => b.cons.CAcquired? && S.Enabled(b.q, S.CallConsumer(b.cons.kind))
    case StartPeek => b.cons.CReady? && S.Enabled(b.q, S.CallConsumer(S.Peek))
    case InnerConsumer => b.cons.CInner? && S.Enabled(b.q, S.ConsumerStep)
  }

  function Inner<T>(q: S.State<T>, e: S.Event<T>): S.State<T>
    requires S.Enabled(q, e) && S.Safe(q)
  {
    S.Observe(q, S.Act(q, e))
  }

  function AfterProducer<T>(q: S.State<T>): Producer {
    if q.prod.Active() then PInner else if q.prod == S.PDone(true) then PSignal else PReady
  }

  /** After a step of the semaphore's wait: still waiting (or, in `wait_dequeue`, about to wait again),
      in possession of a unit, or returning false. */
  function AfterWait(m: M.State, call: Call): Consumer {
    if m.waiter.Active() then CWaiting(call)
    else if m.waiter == M.WDone(true) then CAcquired(call.Kind())
    else if call.WaitDequeue? then CWaiting(call)
    else CReady
  }

  /** After a step of the inner queue: finding it empty, other than by `peek`, fails the assert. */
  function AfterConsumer<T>(q: S.State<T>, kind: S.Kind): Consumer {
    if q.cons.Active() then CInner(kind)
    else if q.cons == S.CDone(S.Empty) && kind != S.Peek then CFailed
    else CReady
  }

  function Act<T>(b: State<T>, e: Event<T>): State<T>
    requires Enabled(b, e) && S.Safe(b.q)
  {
    match e
    case StartEnqueue(x, alloc) => b.(q := Inner(b.q, S.CallEnqueue(x, alloc)), prod := PInner)
    case InnerProducer(oom) =>
      var q := Inner(b.q, InnerProducerEvent(oom));
      b.(q := q, prod := AfterProducer(q))
    case DoSignal =>
      var m := M.Next(b.m, M.Signal(1));
      b.(m := m, prod := if m.posting then PPost else PReady)
    case DoPost => b.(m := M.Next(b.m, M.Post), prod := PReady)
    case StartTake(call) => b.(m := M.Next(b.m, call.Wait()), cons := CWaiting(call))
    case Waiting(step) =>
      var m := M.Next(b.m, step);
      b.(m := m, cons := AfterWait(m, b.cons.call))
    case Retry => b.(m := M.Next(b.m, b.cons.call.Wait()))
    case StartInner => b.(q := Inner(b.q, S.CallConsumer(b.cons.kind)), cons := CInner(b.cons.kind))
    case StartPeek => b.(q := Inner(b.q, S.CallConsumer(S.Peek)), cons := CInner(S.Peek))
    case InnerConsumer =>
      var q := Inner(b.q, S.ConsumerStep);
      b.(q := q, cons := AfterConsumer(q, b.cons.kind))
  }

  /** One step; from a state in which the inner queue would misbehave anything may follow. */
  ghost predicate Next<T>(b: State<T>, e: Event<T>, b': State<T>) {
    Enabled(b, e) && (S.Safe(b.q) ==> b' == Act(b, e))
  }

  // ---- the invariant -----------------------------------------------------------

  /** The consumer holds a unit of the semaphore and has not yet removed the element it stands for. */
  predicate Holding(c: Consumer) {
    c.CAcquired? || (c.CInner? && c.kind != S.Peek)
  }

  /** The two sets of books agree: signalled is enqueued, less an element not yet signalled; acquired is
      removed, plus an element not yet removed. While such an element is owed the inner call has not
      seen the queue empty. */
  predicate Books<T>(b: State<T>) {
    && M.Inv(b.m) && b.m.initial == 0
    && |b.q.enq| == b.m.signalled + (if b.prod.PSignal? then 1 else 0)
    && b.m.acquired == |b.q.deq| + (if Holding(b.cons) then 1 else 0)
    && (b.prod.PInner? <==> b.q.prod.Active()) && (b.prod.PPost? <==> b.m.posting)
    && !b.cons.CFailed?
    && (b.cons.CWaiting? ==> b.m.waiter.Active() || (b.cons.call.WaitDequeue? && b.m.waiter == M.WDone(false)))
    && (!b.cons.CWaiting? ==> !b.m.waiter.Active())
    && (b.cons.CAcquired? ==> b.cons.kind != S.Peek)
    && (if b.cons.CInner? then b.q.cons.Active() && b.q.cons.k == b.cons.kind else !b.q.cons.Active())
    && (b.cons.CInner? && b.cons.kind != S.Peek ==> !b.q.sawEmpty)
  }

  /** A held unit stands for a queued element. */
  lemma HoldingMeansQueued<T>(b: State<T>)
    requires Books(b)
    ensures S.Held(b.q) >= if Holding(b.cons) then 1 else 0
  {
  }

  lemma SignalSteps<T>(b: State<T>, e: Event<T>, b': State<T>)
    requires Books(b) && Enabled(b, e) && S.Safe(b.q) && b' == Act(b, e) && (e.DoSignal? || e.DoPost?)
    ensures Books(b') && b'.q == b.q
  {
    hide S.Safe, S.Enabled;
  }

  lemma WaitSteps<T>(b: State<T>, e: Event<T>, b': State<T>)
    requires Books(b) && Enabled(b, e) && S.Safe(b.q) && b' == Act(b, e)
    requires e.StartTake? || e.Waiting? || e.Retry?
    ensures Books(b') && b'.q == b.q
  {
    M.StepKeepsInv(b.m, if e.Waiting? then e.step else if e.StartTake? then e.call.Wait() else b.cons.call.Wait());
    hide S.Safe, S.Enabled, M.Inv;
  }

  lemma Starts<T>(b: State<T>, e: Event<T>, b': State<T>)
    requires Books(b) && Enabled(b, e) && S.Safe(b.q) && b' == Act(b, e)
    requires e.StartEnqueue? || e.StartInner? || e.StartPeek?
    ensures Books(b')
  {
    HoldingMeansQueued(b);
    hide S.Safe;
  }

  lemma ProducerSteps<T>(b: State<T>, e: Event<T>, b': State<T>)
    requires Books(b) && Enabled(b, e) && S.Safe(b.q) && b' == Act(b, e) && e.InnerProducer?
    ensures Books(b')
  {
    HoldingMeansQueued(b);
    if !e.outOfMemory {
      R.ProducerLog(b.q);
    }
    hide S.StepProducer, S.ProducerSafe, S.ConsumerSafe;
  }

  lemma KindKept<T>(q: S.State<T>)
    requires q.cons.Active() && S.ConsumerSafe(q)
    ensures var q' := S.StepConsumer(q);
            if q'.cons.Active() then q'.cons.k == q.cons.k
            else q'.cons.CDone? && (q'.cons.reply.At? ==> q.cons.k == S.Peek)
                 && (q'.cons.reply.Got? || q'.cons.reply.Removed? ==> q.cons.CStoreFront?)
  {
  }

  lemma ConsumerSteps<T>(b: State<T>, b': State<T>, ring: seq<nat>, off: seq<nat>)
    requires Books(b) && Enabled(b, InnerConsumer) && S.Safe(b.q) && b' == Act(b, InnerConsumer)
    requires I.Inv(b'.q, ring, off) && (b.q.cons.CStoreFront? ==> b.q.cons.k != S.Peek)
    ensures Books(b')
  {
    hide I.Inv, S.StepConsumer, S.ProducerSafe, S.ConsumerSafe, M.Inv;
    ConsumerMaySafely(b.q);
    HoldingMeansQueued(b);
    R.ConsumerLog(b.q);
    KindKept(b.q);
    if b'.q.cons == S.CDone(S.Empty) {
      Q.EmptyMeansSawEmpty(b'.q, ring, off);
    }
  }

  lemma ConsumerMaySafely<T>(q: S.State<T>)
    requires S.Safe(q)
    ensures S.ConsumerSafe(q)
  {
  }

  lemma RemovalIsNoPeek<T>(q: S.State<T>, ring: seq<nat>, off: seq<nat>)
    requires I.Inv(q, ring, off)
    ensures q.cons.CStoreFront? ==> q.cons.k != S.Peek
  {
    hide I.Ring, I.Linked, I.Offsets, I.Slots, I.ProducerInv, I.Capacity, I.PeekInv;
  }

  /** Every step of the combined system keeps the queue's invariant and the books. */
  lemma StepKeeps<T>(b: State<T>, e: Event<T>, b': State<T>, ring: seq<nat>, off: seq<nat>)
    returns (ring': seq<nat>, off': seq<nat>)
    requires I.Inv(b.q, ring, off) && Books(b) && b.q.deq <= b.q.enq && Next(b, e, b')
    ensures I.Inv(b'.q, ring', off') && Books(b') && b'.q.deq <= b'.q.enq
  {
    I.InvSafe(b.q, ring, off);
    RemovalIsNoPeek(b.q, ring, off);
    hide I.Inv, S.Safe, Books, S.Observe, S.Act;
    ring', off' := ring, off;
    match e
    case StartEnqueue(x, alloc) => ring', off' := InnerKeeps(b.q, S.CallEnqueue(x, alloc), ring, off); Starts(b, e, b');
    case InnerProducer(oom) => ring', off' := InnerKeeps(b.q, InnerProducerEvent(oom), ring, off); ProducerSteps(b, e, b');
    case StartInner => ring', off' := InnerKeeps(b.q, S.CallConsumer(b.cons.kind), ring, off); Starts(b, e, b');
    case StartPeek => ring', off' := InnerKeeps(b.q, S.CallConsumer(S.Peek), ring, off); Starts(b, e, b');
    case InnerConsumer =>
      ring', off' := InnerKeeps(b.q, S.ConsumerStep, ring, off);
      ConsumerSteps(b, b', ring', off');
    case DoSignal => SignalSteps(b, e, b');
    case DoPost => SignalSteps(b, e, b');
    case _ => WaitSteps(b, e, b');
  }

  lemma InnerKeeps<T>(q: S.State<T>, e: S.Event<T>, ring: seq<nat>, off: seq<nat>)
    returns (ring': seq<nat>, off': seq<nat>)
    requires I.Inv(q, ring, off) && S.Enabled(q, e) && S.Safe(q) && q.deq <= q.enq
    ensures I.Inv(Inner(q, e), ring', off') && Inner(q, e).deq <= Inner(q, e).enq
  {
    R.StepExtendsPrefix(q, e, ring, off);
    hide I.Inv, S.Act, S.Observe, S.Safe;
    assert S.Next(q, e, Inner(q, e));
    ring', off' := R.StepKeepsInv(q, e, Inner(q, e), ring, off);
  }

  // ---- runs --------------------------------------------------------------------

  ghost predicate IsRun<T>(cfg: S.Config, states: seq<State<T>>, events: seq<Event<T>>) {
    && S.ConfigOk(cfg) && |states| == |events| + 1 && states[0] == Init(cfg)
    && forall i {:trigger events[i]} :: 0 <= i < |events| ==> Next(states[i], events[i], states[i + 1])
  }

  lemma InitKeeps<T>(cfg: S.Config) returns (ring: seq<nat>, off: seq<nat>)
    requires S.ConfigOk(cfg)
    ensures var b := Init<T>(cfg); I.Inv(b.q, ring, off) && Books(b) && b.q.deq <= b.q.enq
  {
    hide I.Inv, S.InitialBlocks, S.InitialBlockSize, IsPow2;
    R.InitEstablishesInv<T>(cfg);
    var b := Init<T>(cfg);
    ring, off := R.InitRing(|b.q.blocks|), [0, 0];
    FreshBooks(b);
  }

  lemma FreshBooks<T>(b: State<T>)
    requires b.q.enq == [] && b.q.deq == [] && b.q.prod == S.PIdle && b.q.cons == S.CIdle
    requires b.m == M.Init(0) && b.prod == PReady && b.cons == CReady
    ensures Books(b)
  {
    hide M.Inv;
    M.InitInv(0);
  }

  lemma {:induction false} RunKeeps<T>(cfg: S.Config, states: seq<State<T>>, events: seq<Event<T>>, i: nat)
    returns (ring: seq<nat>, off: seq<nat>)
    requires IsRun(cfg, states, events) && i < |states|
    ensures I.Inv(states[i].q, ring, off) && Books(states[i]) && states[i].q.deq <= states[i].q.enq
  {
    hide I.Inv, Books, Next, Init;
    if i == 0 {
      ring, off := InitKeeps<T>(cfg);
    } else {
      var r, o := RunKeeps(cfg, states, events, i - 1);
      assert Next(states[i - 1], events[i - 1], states[i]);
      ring, off := StepKeeps(states[i - 1], events[i - 1], states[i], r, o);
    }
  }

  /** In every run mixing timed, untimed and non-blocking calls: the inner queue never misbehaves; after
      a successful acquire the inner `try_dequeue` or `pop` never finds the queue empty, so no
      `assert(success)` fails; elements come out in the order they went in; and `size_approx` never
      exceeds the number of queued elements. */
  lemma BlockingSafety<T>(cfg: S.Config, states: seq<State<T>>, events: seq<Event<T>>, i: nat)
    requires IsRun(cfg, states, events) && i < |states|
    ensures S.Safe(states[i].q) && states[i].cons != CFailed && states[i].q.deq <= states[i].q.enq
    ensures SizeApprox(states[i]) <= S.Held(states[i].q)
    ensures Holding(states[i].cons) ==> S.Held(states[i].q) >= 1
  {
    var ring, off := RunKeeps(cfg, states, events, i);
    I.InvSafe(states[i].q, ring, off);
    HoldingMeansQueued(states[i]);
    hide I.Inv, IsRun, S.Safe;
  }

  /** `size_approx`, which is the semaphore's `availableApprox`. */
  function SizeApprox<T>(b: State<T>): int {
    if b.m.count > 0 then b.m.count else 0
  }

  /** A `wait_dequeue` never sleeps through: when the consumer sleeps, the producer is between calls and
      an element is queued, the kernel wait can return at once. */
  lemma SleeperCanWake<T>(cfg: S.Config, states: seq<State<T>>, events: seq<Event<T>>, i: nat)
    requires IsRun(cfg, states, events) && i < |states|
    requires states[i].m.waiter.Sleep? && states[i].prod.PReady? && S.Held(states[i].q) >= 1
    ensures Enabled(states[i], Waiting(M.KernelTake))
  {
    var ring, off := RunKeeps(cfg, states, events, i);
    hide I.Inv, IsRun;
  }

  /** At rest the count says exactly how many elements are queued. */
  lemma ExactAtRest<T>(cfg: S.Config, states: seq<State<T>>, events: seq<Event<T>>, i: nat)
    requires IsRun(cfg, states, events) && i < |states|
    requires states[i].prod.PReady? && states[i].cons.CReady?
    ensures SizeApprox(states[i]) == S.Held(states[i].q)
  {
    var ring, off := RunKeeps(cfg, states, events, i);
    hide I.Inv, IsRun;
  }

  /** `try_dequeue`, `pop` and a timed wait return false only at an instant when every element whose
      enqueue has signalled was already removed. */
  lemma RefusedOnlyWhenDrained<T>(cfg: S.Config, states: seq<State<T>>, events: seq<Event<T>>, i: nat)
    requires IsRun(cfg, states, events) && i < |events|
    requires states[i].cons.CWaiting? && states[i + 1].cons.CReady?
    ensures S.Held(states[i].q) == if states[i].prod.PSignal? then 1 else 0
  {
    hide I.Inv, S.Safe, S.Enabled, Inner;
    var ring, off := RunKeeps(cfg, states, events, i);
    I.InvSafe(states[i].q, ring, off);
    assert Next(states[i], events[i], states[i + 1]);
    hide IsRun;
  }
}
