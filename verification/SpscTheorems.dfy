/** What the two-thread queue guarantees in every run. */
module SpscTheorems {
  import opened Options
  import opened Bits
  import opened Spsc
  import opened SpscInvariant
  import opened SpscSteps
  import opened SpscConsumerSteps

  // ---- the constructor -------------------------------------------------------

  /** The rounded-up block count leaves room for `size` elements in all blocks but one. */
  lemma InitialBlocksSuffice(cfg: Config)
    requires cfg.maxBlock >= 2
    ensures (InitialBlockCount(cfg) - 1) * (cfg.maxBlock - 1) >= cfg.size
  {
    var d := cfg.maxBlock - 1;
    var n := cfg.size + cfg.maxBlock * 2 - 3;
    var q := n / d;
    assert n == d * q + n % d;
    Distribute(d, q, 1);
    assert (q - 1) * d == d * (q - 1);
  }

  /** And no more than it must: one block fewer would not. */
  lemma InitialBlocksAreFewest(cfg: Config, fewer: nat)
    requires cfg.maxBlock >= 2 && cfg.size >= 1 && 1 <= fewer < InitialBlockCount(cfg)
    ensures (fewer - 1) * (cfg.maxBlock - 1) < cfg.size
  {
    var d := cfg.maxBlock - 1;
    BelowQuotient(cfg.size + 2 * d - 1, d, InitialBlockCount(cfg), fewer);
    assert (fewer - 1) * d == (fewer + 1) * d - 2 * d by { Distribute(d, fewer, 1); Distribute(d, fewer, -1); }
  }

  lemma BelowQuotient(n: nat, d: nat, q: nat, fewer: nat)
    requires d >= 1 && q == n / d && fewer < q
    ensures (fewer + 1) * d <= n
  {
    assert n == d * q + n % d;
    MulMonotone(fewer + 1, q, d);
  }

  lemma MulMonotone(a: int, b: int, d: nat)
    requires a <= b
    ensures a * d <= b * d
  {
  }

  /** The blocks a queue is built with: one of the least power of two above `size` slots, if that is at most
      twice the maximal block; otherwise as many maximal blocks as hold `size` elements with one block to
      spare, and no more. */
  lemma InitialShape<T>(cfg: Config, p: nat)
    requires ConfigOk(cfg) && IsPow2(p) && p > cfg.size && forall q: nat :: IsPow2(q) && q > cfg.size ==> p <= q
    ensures var blocks := Init<T>(cfg).blocks;
            if p <= 2 * cfg.maxBlock then |blocks| == 1 && |blocks[0].data| == p
            else && |blocks| >= 2 && (|blocks| - 1) * (cfg.maxBlock - 1) >= cfg.size > (|blocks| - 2) * (cfg.maxBlock - 1)
                 && forall b :: 0 <= b < |blocks| ==> |blocks[b].data| == cfg.maxBlock
  {
    hide CeilToPow2, IsPow2, InitialBlockCount;
    CeilToPow2IsLeast(cfg.size + 1);
    assert p == CeilToPow2(cfg.size + 1);
    InitBlocksOk<T>(cfg);
    if p > 2 * cfg.maxBlock {
      InitialBlocksSuffice(cfg);
      TwoAtLeast(InitialBlockCount(cfg), cfg.maxBlock - 1, cfg.size);
      InitialBlocksAreFewest(cfg, InitialBlockCount(cfg) - 1);
    }
  }

  lemma TwoAtLeast(count: nat, d: nat, size: nat)
    requires (count - 1) * d >= size >= 1
    ensures count >= 2
  {
  }

  lemma InitialBlockCountPositive(cfg: Config)
    requires cfg.maxBlock >= 2 && cfg.size >= 1
    ensures InitialBlockCount(cfg) >= 1
  {
    InitialBlocksSuffice(cfg);
    hide InitialBlockCount;
  }

  lemma FirstBlockSize(cfg: Config)
    requires ConfigOk(cfg)
    ensures var r := CeilToPow2(cfg.size + 1); IsPow2(r) && r > cfg.size
  {
    hide CeilToPow2, IsPow2;
    CeilToPow2IsLeast(cfg.size + 1);
  }

  lemma InitBlocksOk<T>(cfg: Config)
    requires ConfigOk(cfg)
    ensures var blocks := InitialBlocks<T>(cfg);
            |blocks| >= 1
            && forall b :: 0 <= b < |blocks| ==> blocks[b] == MakeBlock(InitialBlockSize(cfg), Succ(b, |blocks|))
  {
    InitialBlockCountPositive(cfg);
    hide CeilToPow2, IsPow2, InitialBlockCount, MakeBlock, InitialBlockSize, MakeRing;
  }

  lemma InitSizesOk<T>(cfg: Config)
    requires ConfigOk(cfg)
    ensures 2 <= InitialBlockSize(cfg) <= 2 * cfg.maxBlock && IsPow2(InitialBlockSize(cfg))
    ensures InitialBlockSize(cfg) > cfg.size
            || (InitialBlockSize(cfg) == cfg.maxBlock && |InitialBlocks<T>(cfg)| == InitialBlockCount(cfg))
  {
    hide CeilToPow2, IsPow2, InitialBlockCount, MakeBlock;
    FirstBlockSize(cfg);
  }

  ghost function InitRing(n: nat): seq<nat> {
    seq(n, i => i)
  }

  lemma InitEstablishesInv<T>(cfg: Config)
    requires ConfigOk(cfg)
    ensures Inv(Init<T>(cfg), InitRing(|Init<T>(cfg).blocks|), [0, 0])
  {
    var s := Init<T>(cfg);
    InitBlocksOk<T>(cfg);
    InitSizesOk<T>(cfg);
    hide InitialBlockCount, InitialBlocks, InitialBlockSize, IsPow2;
    var ring := InitRing(|s.blocks|);
    forall b | 0 <= b < |s.blocks| ensures BlockOk(s.blocks[b]) && Count(s.blocks[b]) == 0 {
      assert s.blocks[b] == MakeBlock(s.largest, Succ(b, |s.blocks|));
    }
    InitCapacity(s, ring);
    hide BlockOk, Count, Capacity;
    assert Ring(s, ring, [0, 0]);
    assert Linked(s, ring) && Offsets(s, ring, [0, 0]);
    InitSlots(s, ring);
    hide Ring, Linked, Offsets, Slots;
  }

  lemma InitCapacity<T>(s: State<T>, ring: seq<nat>)
    requires ConfigOk(s.cfg) && |ring| == |s.blocks| >= 1
    requires 2 <= s.largest <= 2 * s.cfg.maxBlock && IsPow2(s.largest)
    requires forall b :: 0 <= b < |s.blocks| ==> |s.blocks[b].data| == s.largest
    requires s.largest > s.cfg.size || (s.largest == s.cfg.maxBlock && |s.blocks| == InitialBlockCount(s.cfg))
    ensures Capacity(s, ring)
  {
    hide IsPow2, ConfigOk;
    if s.largest > s.cfg.size {
      assert forall b :: 0 <= b < |s.blocks| ==> Full(s.blocks[b]) >= s.cfg.size;
    } else {
      InitialBlocksSuffice(s.cfg);
    }
  }

  lemma InitSlots<T>(s: State<T>, ring: seq<nat>)
    requires Ring(s, ring, [0, 0]) && s.prod == PIdle && s.cons == CIdle
    requires forall b :: 0 <= b < |s.blocks| ==>
               Count(s.blocks[b]) == 0 && forall i :: 0 <= i < |s.blocks[b].data| ==> s.blocks[b].data[i] == None
    ensures Slots(s, ring, [0, 0])
  {
    hide BlockOk;
  }

  // ---- one step --------------------------------------------------------------

  lemma ProducerStepKeeps<T>(s: State<T>, ring: seq<nat>, off: seq<nat>) returns (ring': seq<nat>, off': seq<nat>)
    requires Inv(s, ring, off) && s.prod.Active() && ProducerSafe(s)
    ensures Inv(Observe(s, StepProducer(s)), ring', off')
  {
    hide Inv, Observe, StepProducer, ProducerSafe;
    ring', off' := ring, off;
    match s.prod
    case LoadTailBlock(_, _) => LoadTailBlockKeeps(s, ring, off);
    case LoadTail(_, _, _) => LoadTailKeeps(s, ring, off);
    case LoadFront(_, _, _, _, _) => LoadFrontKeeps(s, ring, off);
    case Construct(_, _, _, _) => ConstructKeeps(s, ring, off);
    case StoreTail(_, _, _, _) => off' := StoreTailKeeps(s, ring, off);
    case LoadNext(_, _, _) => LoadNextKeeps(s, ring, off);
    case CheckFrontBlock(_, _, _, _) => CheckFrontBlockKeeps(s, ring, off);
    case ReloadNext(_, _) => ReloadNextKeeps(s, ring, off);
    case LoadNextFront(_, _) => LoadNextFrontKeeps(s, ring, off);
    case LoadNextTail(_, _, _) => LoadNextTailKeeps(s, ring, off);
    case ConstructNext(_, _, _) => ConstructNextKeeps(s, ring, off);
    case StoreNextTail(_, _, _) => StoreNextTailKeeps(s, ring, off);
    case Allocate(_, _) => AllocateKeeps(s, ring, off);
    case InitBlock(_, _, _) => InitBlockKeeps(s, ring, off);
    case LinkNew(_, _, _) => LinkNewKeeps(s, ring, off);
    case LinkTail(_, _, _) => ring' := LinkTailKeeps(s, ring, off);
    case Publish(_, _, _) => off' := PublishKeeps(s, ring, off);
  }

  lemma ConsumerStepKeeps<T>(s: State<T>, ring: seq<nat>, off: seq<nat>) returns (ring': seq<nat>, off': seq<nat>)
    requires Inv(s, ring, off) && s.cons.Active() && ConsumerSafe(s)
    ensures Inv(Observe(s, StepConsumer(s)), ring', off')
  {
    hide Inv, Observe, StepConsumer, ConsumerSafe;
    ring', off' := ring, off;
    match s.cons
    case CLoadFrontBlock(_) => CLoadFrontBlockKeeps(s, ring, off);
    case CLoadFront(_, _) => CLoadFrontKeeps(s, ring, off);
    case CLoadTail(_, _, _) => CLoadTailKeeps(s, ring, off);
    case CLoadTailBlock(_, _) => CLoadTailBlockKeeps(s, ring, off);
    case CReloadFrontBlock(_) => CReloadFrontBlockKeeps(s, ring, off);
    case CReloadTail(_, _) => CReloadTailKeeps(s, ring, off);
    case CReloadFront(_, _, _) => CReloadFrontKeeps(s, ring, off);
    case CLoadNext(_, _) => CLoadNextKeeps(s, ring, off);
    case CLoadNextFront(_, _) => CLoadNextFrontKeeps(s, ring, off);
    case CLoadNextTail(_, _, _) => CLoadNextTailKeeps(s, ring, off);
    case CStoreFrontBlock(_, _, _) => ring', off' := CStoreFrontBlockKeeps(s, ring, off);
    case CTake(_, _, _) => CTakeKeeps(s, ring, off);
    case CStoreFront(_, _, _, _) => off' := CStoreFrontKeeps(s, ring, off);
  }

  /** The invariant is inductive. */
  lemma StepKeepsInv<T>(s: State<T>, e: Event<T>, s': State<T>, ring: seq<nat>, off: seq<nat>)
    returns (ring': seq<nat>, off': seq<nat>)
    requires Inv(s, ring, off) && Next(s, e, s')
    ensures Inv(s', ring', off')
  {
    InvSafe(s, ring, off);
    hide Inv, Observe, StepProducer, StepConsumer, ProducerSafe, ConsumerSafe;
    ring', off' := ring, off;
    match e
    case CallEnqueue(x, alloc) => CallEnqueueKeeps(s, x, alloc, ring, off);
    case ProducerStep => ring', off' := ProducerStepKeeps(s, ring, off);
    case AllocationFails => AllocationFailsKeeps(s, ring, off);
    case CallConsumer(k) => CallConsumerKeeps(s, k, ring, off);
    case ConsumerStep => ring', off' := ConsumerStepKeeps(s, ring, off);
  }

  // ---- runs ------------------------------------------------------------------

  /** A run: the states visited from construction on, and the event between each two. */
  ghost predicate IsRun<T>(cfg: Config, states: seq<State<T>>, events: seq<Event<T>>) {
    && ConfigOk(cfg) && |states| == |events| + 1 && states[0] == Init(cfg)
    && forall i {:trigger events[i]} :: 0 <= i < |events| ==> Next(states[i], events[i], states[i + 1])
  }

  lemma {:induction false} RunKeepsInv<T>(cfg: Config, states: seq<State<T>>, events: seq<Event<T>>, i: nat)
    returns (ring: seq<nat>, off: seq<nat>)
    requires IsRun(cfg, states, events) && i < |states|
    ensures Inv(states[i], ring, off)
  {
    hide Inv, Next, Init;
    if i == 0 {
      InitEstablishesInv<T>(cfg);
      ring, off := InitRing(|states[0].blocks|), [0, 0];
    } else {
      var r, o := RunKeepsInv(cfg, states, events, i - 1);
      assert Next(states[i - 1], events[i - 1], states[i]);
      ring, off := StepKeepsInv(states[i - 1], events[i - 1], states[i], r, o);
    }
  }

  /** No thread ever fails an assert, follows a dangling block number, reads a slot that has not been
      constructed or overwrites one that has: in every run, so every step is the one the code takes. */
  lemma NeverFails<T>(cfg: Config, states: seq<State<T>>, events: seq<Event<T>>, i: nat)
    requires IsRun(cfg, states, events) && i < |states|
    ensures Safe(states[i])
    ensures i < |events| ==> Enabled(states[i], events[i])
                             && states[i + 1] == Observe(states[i], Act(states[i], events[i]))
  {
    var ring, off := RunKeepsInv(cfg, states, events, i);
    InvSafe(states[i], ring, off);
    hide Inv, Safe, Observe, Act, Init;
    if i < |events| {
      assert Next(states[i], events[i], states[i + 1]);
    }
  }

  // ---- first in, first out -----------------------------------------------------

  lemma ProducerLog<T>(s: State<T>)
    requires s.prod.Active() && ProducerSafe(s)
    ensures var s' := StepProducer(s);
            s'.deq == s.deq && s'.cfg == s.cfg && s'.cons == s.cons && s'.peeked == s.peeked && s'.prod != s.prod
            && s'.enq == if s'.prod == PDone(true) then s.enq + [s.prod.x] else s.enq
  {
  }

  lemma ConsumerLog<T>(s: State<T>)
    requires s.cons.Active() && ConsumerSafe(s)
    ensures var s' := StepConsumer(s);
            s'.enq == s.enq && s'.cfg == s.cfg && s'.prod == s.prod
            && s'.deq == (if s.cons.CStoreFront? then s.deq + [s.cons.v] else s.deq)
            && (s.cons.CStoreFront? <==> s'.cons.CDone? && (s'.cons.reply.Got? || s'.cons.reply.Removed?))
            && (s'.cons.CDone? && s'.cons.reply.Got? ==> s.cons.k == Dequeue && s'.cons.reply.value == s.cons.v)
  {
  }

  /** One step keeps `deq` a prefix of `enq`, and both logs only grow. */
  lemma StepExtendsPrefix<T>(s: State<T>, e: Event<T>, ring: seq<nat>, off: seq<nat>)
    requires Inv(s, ring, off) && Enabled(s, e) && Safe(s) && s.deq <= s.enq
    ensures var s' := Observe(s, Act(s, e)); s'.deq <= s'.enq && s.enq <= s'.enq && s.deq <= s'.deq
  {
    hide Ring, Linked, Offsets, Slots, Capacity, ProducerInv, PeekInv, StepProducer, StepConsumer;
    match e
    case ProducerStep => ProducerLog(s);
    case ConsumerStep => ConsumerLog(s);
    case _ =>
  }

  /** FIFO: in every run the removed elements are, in order, a prefix of the enqueued ones. */
  lemma {:induction false} FifoOrder<T>(cfg: Config, states: seq<State<T>>, events: seq<Event<T>>, i: nat)
    requires IsRun(cfg, states, events) && i < |states|
    ensures states[i].deq <= states[i].enq
  {
    hide Inv, IsRun, Next, Observe, Act;
    RunStart(cfg, states, events);
    if i > 0 {
      FifoOrder(cfg, states, events, i - 1);
      var ring, off := RunKeepsInv(cfg, states, events, i - 1);
      NeverFails(cfg, states, events, i - 1);
      StepExtendsPrefix(states[i - 1], events[i - 1], ring, off);
    }
  }

  lemma RunStart<T>(cfg: Config, states: seq<State<T>>, events: seq<Event<T>>)
    requires IsRun(cfg, states, events)
    ensures |states| == |events| + 1 && states[0].enq == [] && states[0].deq == []
    ensures !states[0].prod.Active() && !states[0].cons.Active() && states[0].cfg == cfg
  {
  }

  /** The logs only grow, so what has been removed first stays removed first. */
  lemma {:induction false} LogsGrow<T>(cfg: Config, states: seq<State<T>>, events: seq<Event<T>>, i: nat, j: nat)
    requires IsRun(cfg, states, events) && i <= j < |states|
    ensures states[i].enq <= states[j].enq && states[i].deq <= states[j].deq && states[j].cfg == states[i].cfg
    decreases j - i
  {
    hide Inv, IsRun, Next, Observe, Act;
    if i < j {
      LogsGrow(cfg, states, events, i, j - 1);
      FifoOrder(cfg, states, events, j - 1);
      var ring, off := RunKeepsInv(cfg, states, events, j - 1);
      RunLength(cfg, states, events);
      NeverFails(cfg, states, events, j - 1);
      StepExtendsPrefix(states[j - 1], events[j - 1], ring, off);
      SameConfig(states[j - 1], events[j - 1]);
    }
  }

  lemma RunLength<T>(cfg: Config, states: seq<State<T>>, events: seq<Event<T>>)
    requires IsRun(cfg, states, events)
    ensures |states| == |events| + 1
  {
  }

  lemma SameConfig<T>(s: State<T>, e: Event<T>)
    requires Enabled(s, e) && Safe(s)
    ensures Observe(s, Act(s, e)).cfg == s.cfg
  {
    hide StepProducer, StepConsumer;
    match e
    case ProducerStep => ProducerLog(s);
    case ConsumerStep => ConsumerLog(s);
    case _ =>
  }

  /** Every successful `try_dequeue` returns the oldest element still queued when it completes. */
  lemma DequeueReturnsOldest<T>(cfg: Config, states: seq<State<T>>, events: seq<Event<T>>, i: nat)
    requires IsRun(cfg, states, events) && i < |events| && events[i] == ConsumerStep
    requires states[i + 1].cons.CDone? && states[i + 1].cons.reply.Got?
    ensures states[i].cons.Active() && states[i].cons.k == Dequeue && |states[i].deq| < |states[i].enq|
    ensures states[i + 1].cons.reply.value == states[i].enq[|states[i].deq|]
    ensures states[i + 1].deq == states[i].deq + [states[i + 1].cons.reply.value]
  {
    var ring, off := RunKeepsInv(cfg, states, events, i);
    NeverFails(cfg, states, events, i);
    ConsumerLog(states[i]);
    hide IsRun, Ring, Linked, Offsets, Slots, Capacity, ProducerInv, PeekInv, StepProducer, StepConsumer;
  }

  // ---- refusal and emptiness -----------------------------------------------------

  /** Between instants `k` and `j` (exclusive) the producer is inside one call. */
  ghost predicate ProducerInCall<T>(states: seq<State<T>>, k: nat, j: nat) {
    k <= j < |states| && forall m :: k <= m < j ==> states[m].prod.Active()
  }

  ghost predicate ConsumerInCall<T>(states: seq<State<T>>, k: nat, j: nat) {
    k <= j < |states| && forall m :: k <= m < j ==> states[m].cons.Active()
  }

  lemma ObservePeak<T>(s: State<T>, e: Event<T>)
    requires Enabled(s, e) && Safe(s)
    ensures var s' := Observe(s, Act(s, e));
            s'.peak == Held(s') || (s'.peak == s.peak && (s.prod.Active() || !s'.prod.Active()))
    ensures var s' := Observe(s, Act(s, e));
            s'.sawEmpty ==> Held(s') == 0 || (s.sawEmpty && (s.cons.Active() || !s'.cons.Active()))
  {
    hide StepProducer, StepConsumer;
    match e
    case ProducerStep => ProducerLog(s);
    case ConsumerStep => ConsumerLog(s);
    case _ =>
  }

  /** `peak` was really reached, within the current call. */
  lemma {:induction false} PeakWitness<T>(cfg: Config, states: seq<State<T>>, events: seq<Event<T>>, j: nat)
    returns (k: nat)
    requires IsRun(cfg, states, events) && 0 < j < |states| && (states[j].prod.Active() || states[j - 1].prod.Active())
    ensures ProducerInCall(states, k, j) && Held(states[k]) == states[j].peak
  {
    hide IsRun, Act, Observe, Safe, Held;
    k := j;
    if states[j].peak != Held(states[j]) {
      RunLength(cfg, states, events);
      NeverFails(cfg, states, events, j - 1);
      ObservePeak(states[j - 1], events[j - 1]);
      assert states[j - 1].prod.Active();
      RunStart(cfg, states, events);
      k := PeakWitness(cfg, states, events, j - 1);
    }
  }

  lemma {:induction false} EmptyWitness<T>(cfg: Config, states: seq<State<T>>, events: seq<Event<T>>, j: nat)
    returns (k: nat)
    requires IsRun(cfg, states, events) && 0 < j < |states| && (states[j].cons.Active() || states[j - 1].cons.Active())
    requires states[j].sawEmpty
    ensures ConsumerInCall(states, k, j) && Held(states[k]) == 0
  {
    hide IsRun, Act, Observe, Safe, Held;
    k := j;
    if Held(states[j]) != 0 {
      RunLength(cfg, states, events);
      NeverFails(cfg, states, events, j - 1);
      ObservePeak(states[j - 1], events[j - 1]);
      assert states[j - 1].cons.Active();
      RunStart(cfg, states, events);
      k := EmptyWitness(cfg, states, events, j - 1);
    }
  }

  /** The capacity promise: an enqueue call fails (`try_enqueue` for lack of room, `enqueue` because
      allocation failed) only if the queue held at least `size` elements at some instant of the call. */
  lemma RefusedOnlyWhenFull<T>(cfg: Config, states: seq<State<T>>, events: seq<Event<T>>, j: nat) returns (k: nat)
    requires IsRun(cfg, states, events) && 0 < j < |states|
    requires states[j - 1].prod.Active() && states[j].prod == PDone(false)
    ensures ProducerInCall(states, k, j) && Held(states[k]) >= cfg.size
  {
    var ring, off := RunKeepsInv(cfg, states, events, j);
    assert states[j].peak >= states[j].cfg.size;
    hide IsRun, Inv, Held;
    LogsGrow(cfg, states, events, 0, j);
    RunStart(cfg, states, events);
    k := PeakWitness(cfg, states, events, j);
  }

  /** Honest emptiness: `try_dequeue`, `pop` and `peek` report an empty queue only if it was empty at
      some instant of the call. */
  lemma EmptyOnlyWhenEmpty<T>(cfg: Config, states: seq<State<T>>, events: seq<Event<T>>, j: nat) returns (k: nat)
    requires IsRun(cfg, states, events) && 0 < j < |states|
    requires states[j - 1].cons.Active() && states[j].cons == CDone(Empty)
    ensures ConsumerInCall(states, k, j) && Held(states[k]) == 0
  {
    var ring, off := RunKeepsInv(cfg, states, events, j);
    assert states[j].sawEmpty;
    hide IsRun, Inv, Held;
    k := EmptyWitness(cfg, states, events, j);
  }

  // ---- peek -----------------------------------------------------------------------

  /** A second `peek` before any removal returns the same pointer. */
  lemma PeekAgain<T>(s: State<T>, ring: seq<nat>, off: seq<nat>)
    requires Inv(s, ring, off) && s.cons.Active() && ConsumerSafe(s) && s.peeked.Some?
    ensures s.cons.CStoreFront? || StepConsumer(s).peeked == s.peeked
  {
    hide Linked, Offsets, Slots, Capacity, ProducerInv;
    var fb := s.blocks[ring[0]];
    assert BlockOk(fb);
    if s.cons.CLoadFront? && fb.front != fb.localTail {
      ShadowTailShowsElement(fb);
    }
    assert fb.front != fb.tail ==> Count(fb) >= 1;
    hide BlockOk, Count;
    assert s.peeked == Some((s.peeked.value.0, s.peeked.value.1));
    match s.cons
    case CLoadFront(_, _) =>
    case CLoadTail(_, b, f) => assert b == ring[0] && f == fb.front;
    case CReloadFront(_, b, _) => assert b == ring[0];
    case CLoadNextTail(_, nx, _) => assert nx == ring[1];
    case _ =>
  }

  lemma PeekedStays<T>(s: State<T>, e: Event<T>, ring: seq<nat>, off: seq<nat>)
    requires Inv(s, ring, off) && Enabled(s, e) && Safe(s) && s.peeked.Some?
    ensures var s' := Observe(s, Act(s, e)); |s'.deq| == |s.deq| ==> s'.peeked == s.peeked
  {
    hide Inv, StepProducer, StepConsumer;
    match e
    case ProducerStep => ProducerLog(s);
    case ConsumerStep => ConsumerLog(s); PeekAgain(s, ring, off);
    case _ =>
  }

  lemma {:induction false} PeekedPersists<T>(cfg: Config, states: seq<State<T>>, events: seq<Event<T>>, i: nat, j: nat)
    requires IsRun(cfg, states, events) && i <= j < |states|
    requires states[i].peeked.Some? && |states[j].deq| == |states[i].deq|
    ensures states[j].peeked == states[i].peeked
    decreases j - i
  {
    hide IsRun, Inv, Act, Observe, Safe;
    if i < j {
      LogsGrow(cfg, states, events, i, j - 1);
      LogsGrow(cfg, states, events, j - 1, j);
      PeekedPersists(cfg, states, events, i, j - 1);
      RunLength(cfg, states, events);
      NeverFails(cfg, states, events, j - 1);
      var ring, off := RunKeepsInv(cfg, states, events, j - 1);
      PeekedStays(states[j - 1], events[j - 1], ring, off);
    }
  }

  lemma PeekedIsOldest<T>(s: State<T>, ring: seq<nat>, off: seq<nat>)
    requires Inv(s, ring, off) && s.peeked.Some? && !s.cons.CStoreFront?
    ensures var (b, i) := s.peeked.value;
            |s.deq| < |s.enq| && b < |s.blocks| && i < |s.blocks[b].data|
            && s.blocks[b].data[i] == Some(s.enq[|s.deq|])
  {
    if Count(s.blocks[ring[0]]) >= 1 {
      FirstSlot(s, ring, off);
    } else {
      SecondSlot(s, ring, off);
    }
    assert BlockOk(s.blocks[ring[0]]) && BlockOk(s.blocks[s.peeked.value.0]);
    hide Linked, Offsets, Slots, Capacity, ProducerInv, ConsumerInv;
  }

  lemma PeekReturnSetsPeeked<T>(s: State<T>)
    requires s.cons.Active() && ConsumerSafe(s)
    ensures var s' := StepConsumer(s);
            s'.cons.CDone? && s'.cons.reply.At? ==> s'.peeked == Some((s'.cons.reply.block, s'.cons.reply.index))
  {
  }

  /** A non-null pointer returned by `peek` names exactly the oldest element, and keeps doing so
      whatever the producer does, until the consumer removes that element. */
  lemma PeekNamesOldest<T>(cfg: Config, states: seq<State<T>>, events: seq<Event<T>>, i: nat, j: nat)
    requires IsRun(cfg, states, events) && 0 < i <= j < |states| && events[i - 1] == ConsumerStep
    requires states[i].cons.CDone? && states[i].cons.reply.At?
    requires |states[j].deq| == |states[i].deq| && !states[j].cons.CStoreFront?
    ensures |states[i].deq| < |states[i].enq|
    ensures var (b, f) := (states[i].cons.reply.block, states[i].cons.reply.index);
            b < |states[j].blocks| && f < |states[j].blocks[b].data|
            && states[j].blocks[b].data[f] == Some(states[i].enq[|states[i].deq|])
  {
    hide IsRun, Inv, StepProducer, StepConsumer, Safe;
    RunLength(cfg, states, events);
    NeverFails(cfg, states, events, i - 1);
    SafeConsumer(states[i - 1]);
    PeekReturnSetsPeeked(states[i - 1]);
    PeekedPersists(cfg, states, events, i, j);
    var r, o := RunKeepsInv(cfg, states, events, i);
    PeekedIsOldest(states[i], r, o);
    var ring, off := RunKeepsInv(cfg, states, events, j);
    PeekedIsOldest(states[j], ring, off);
    LogsGrow(cfg, states, events, i, j);
  }

  lemma SafeConsumer<T>(s: State<T>)
    requires Safe(s)
    ensures ConsumerSafe(s)
  {
  }

  /** The element `peek` named is the one the next successful `try_dequeue` returns. */
  lemma PeekThenDequeue<T>(cfg: Config, states: seq<State<T>>, events: seq<Event<T>>, i: nat, j: nat)
    requires IsRun(cfg, states, events) && 0 < i <= j < |events| && events[i - 1] == events[j] == ConsumerStep
    requires states[i].cons.CDone? && states[i].cons.reply.At?
    requires |states[j].deq| == |states[i].deq|
    requires states[j + 1].cons.CDone? && states[j + 1].cons.reply.Got?
    ensures var (b, f) := (states[i].cons.reply.block, states[i].cons.reply.index);
            b < |states[i].blocks| && f < |states[i].blocks[b].data|
            && states[i].blocks[b].data[f] == Some(states[j + 1].cons.reply.value)
    ensures states[j].cons.Active() && states[j].cons.k == Dequeue
  {
    hide IsRun;
    RunLength(cfg, states, events);
    PeekNamesOldest(cfg, states, events, i, i);
    DequeueReturnsOldest(cfg, states, events, j);
    LogsGrow(cfg, states, events, i, j);
  }

  // ---- the shadow indices -----------------------------------------------------------

  /** A fast path that trusts a shadow index takes the branch a fresh load would have taken. */
  ghost predicate FastPathsAgree<T>(blk: Block<T>) {
    && |blk.data| > 0
    && (blk.front != blk.localTail ==> blk.front != blk.tail)
    && var n := And(blk.tail + 1, |blk.data| - 1);
       n != blk.localFront ==> n != blk.front
  }

  /** In every reachable state the indices of each block, shadows included, are in cyclic order, and the
      cached fast paths behave as those of a queue without caches. */
  lemma ShadowIndicesSound<T>(cfg: Config, states: seq<State<T>>, events: seq<Event<T>>, i: nat)
    requires IsRun(cfg, states, events) && i < |states|
    ensures forall b :: 0 <= b < |states[i].blocks| ==>
              BlockOk(states[i].blocks[b]) && FastPathsAgree(states[i].blocks[b])
  {
    var ring, off := RunKeepsInv(cfg, states, events, i);
    hide IsRun, Linked, Offsets, Slots, Capacity, ProducerInv, ConsumerInv, PeekInv;
    forall b | 0 <= b < |states[i].blocks|
      ensures BlockOk(states[i].blocks[b]) && FastPathsAgree(states[i].blocks[b])
    {
      assert BlockOk(states[i].blocks[b]);
      OkBlockAgrees(states[i].blocks[b]);
    }
  }

  lemma OkBlockAgrees<T>(blk: Block<T>)
    requires BlockOk(blk)
    ensures FastPathsAgree(blk)
  {
    MaskedSuccessor(blk.tail, |blk.data|);
    if Succ(blk.tail, |blk.data|) != blk.localFront {
      ShadowFrontShowsRoom(blk);
    }
  }

  /** Each shadow index of block `b` is what it was, or is the index it copies. */
  ghost predicate ShadowsFollow<T>(s: State<T>, s': State<T>, b: nat)
    requires b < |s'.blocks|
  {
    var blk := s'.blocks[b];
    && (blk.localFront == blk.front || (b < |s.blocks| && blk.localFront == s.blocks[b].localFront))
    && (blk.localTail == blk.tail || (b < |s.blocks| && blk.localTail == s.blocks[b].localTail))
  }

  lemma ProducerShadows<T>(s: State<T>, b: nat)
    requires s.prod.Active() && ProducerSafe(s) && b < |StepProducer(s).blocks|
    requires s.prod.LoadNextTail? ==> s.prod.nf == s.blocks[s.prod.nx].front
    ensures ShadowsFollow(s, StepProducer(s), b)
  {
  }

  lemma ConsumerShadows<T>(s: State<T>, b: nat)
    requires s.cons.Active() && ConsumerSafe(s) && b < |StepConsumer(s).blocks|
    ensures ShadowsFollow(s, StepConsumer(s), b)
  {
  }

  lemma LoadedFrontIsCurrent<T>(s: State<T>, ring: seq<nat>, off: seq<nat>)
    requires Inv(s, ring, off) && s.prod.LoadNextTail?
    ensures s.prod.nx < |s.blocks| && s.prod.nf == s.blocks[s.prod.nx].front
  {
    hide Linked, Offsets, Slots, Capacity, ConsumerInv, PeekInv, BlockOk;
  }

  lemma StepShadows<T>(s: State<T>, e: Event<T>, ring: seq<nat>, off: seq<nat>, b: nat)
    requires Inv(s, ring, off) && Enabled(s, e) && Safe(s) && b < |Act(s, e).blocks|
    ensures ShadowsFollow(s, Observe(s, Act(s, e)), b)
  {
    hide Inv, StepProducer, StepConsumer, ProducerSafe, ConsumerSafe;
    match e
    case ProducerStep =>
      if s.prod.LoadNextTail? {
        LoadedFrontIsCurrent(s, ring, off);
      }
      ProducerShadows(s, b);
    case ConsumerStep => ConsumerShadows(s, b);
    case _ =>
  }

  /** In every run each shadow index is a value that the index it copies once had: there are instants, no
      later than now, at which `front` was what `localFront` is and `tail` what `localTail` is. */
  lemma {:induction false} ShadowsArePast<T>(cfg: Config, states: seq<State<T>>, events: seq<Event<T>>, i: nat, b: nat)
    returns (f: nat, t: nat)
    requires IsRun(cfg, states, events) && i < |states| && b < |states[i].blocks|
    ensures f <= i && b < |states[f].blocks| && states[f].blocks[b].front == states[i].blocks[b].localFront
    ensures t <= i && b < |states[t].blocks| && states[t].blocks[b].tail == states[i].blocks[b].localTail
  {
    hide IsRun, Inv, Act, Observe, Safe;
    f, t := i, i;
    if i == 0 {
      InitialShadows(cfg, states, events, b);
    } else {
      RunLength(cfg, states, events);
      var ring, off := RunKeepsInv(cfg, states, events, i - 1);
      NeverFails(cfg, states, events, i - 1);
      ActBlocks(states[i - 1], events[i - 1]);
      StepShadows(states[i - 1], events[i - 1], ring, off, b);
      var now := states[i].blocks[b];
      if now.localFront != now.front || now.localTail != now.tail {
        var f1, t1 := ShadowsArePast(cfg, states, events, i - 1, b);
        f, t := if now.localFront == now.front then i else f1, if now.localTail == now.tail then i else t1;
      }
    }
  }

  lemma ActBlocks<T>(s: State<T>, e: Event<T>)
    requires Enabled(s, e) && Safe(s)
    ensures Observe(s, Act(s, e)).blocks == Act(s, e).blocks
  {
    hide Act, Safe;
  }

  lemma InitialShadows<T>(cfg: Config, states: seq<State<T>>, events: seq<Event<T>>, b: nat)
    requires IsRun(cfg, states, events) && b < |states[0].blocks|
    ensures var blk := states[0].blocks[b]; blk.localFront == blk.front == 0 && blk.localTail == blk.tail == 0
  {
    hide InitialBlockCount, InitialBlockSize, CeilToPow2;
  }
}
