/** What each call on the queue returns, over every run: the reply belongs to the kind of call, says what
    the call did, and comes after a bounded number of the thread's own steps. */
module SpscReplies {
  import opened Options
  import opened Spsc
  import opened SpscInvariant
  import opened SpscTheorems

  // ---- the consumer's calls ------------------------------------------------------------

  /** A call of kind `k` begins with event `i` and has not returned before instant `j`. */
  ghost predicate ConsumerCall<T>(states: seq<State<T>>, events: seq<Event<T>>, i: nat, j: nat, k: Kind) {
    && i < j < |states| == |events| + 1 && events[i] == CallConsumer(k)
    && forall m :: i < m < j ==> states[m].cons.Active()
  }

  /** The element that is first in line. */
  ghost predicate Oldest<T>(s: State<T>, v: T) {
    |s.deq| < |s.enq| && v == s.enq[|s.deq|]
  }

  lemma StepKeepsKind<T>(s: State<T>)
    requires s.cons.Active() && ConsumerSafe(s)
    ensures var s' := StepConsumer(s);
            && (s'.cons.Active() || s'.cons.CDone?) && (s'.cons.Active() ==> s'.cons.k == s.cons.k && s'.deq == s.deq)
            && (s'.cons.CDone? ==>
                  match s'.cons.reply
                  case Empty => s'.deq == s.deq
                  case Got(v) => s.cons.k == Dequeue && s.cons.CStoreFront? && v == s.cons.v && s'.deq == s.deq + [v]
                  case Removed => s.cons.k != Dequeue && s.cons.CStoreFront? && s'.deq == s.deq + [s.cons.v]
                  case At(_, _) => s.cons.k == Peek && s'.deq == s.deq)
  {
  }

  lemma EventKeepsConsumer<T>(s: State<T>, e: Event<T>)
    requires Enabled(s, e) && Safe(s)
    ensures var s' := Observe(s, Act(s, e));
            && (e.CallConsumer? ==> s'.cons == CLoadFrontBlock(e.kind) && s'.deq == s.deq)
            && (!e.CallConsumer? && !e.ConsumerStep? ==> s'.cons == s.cons && s'.deq == s.deq)
            && (e.CallConsumer? ==> !s.cons.Active())
            && (e.ConsumerStep? ==> s.cons.Active() && ConsumerSafe(s) && s'.cons == StepConsumer(s).cons
                                    && s'.deq == StepConsumer(s).deq)
  {
    hide StepProducer, StepConsumer;
    if e == ProducerStep {
      ProducerLog(s);
    }
  }

  /** As long as a call has not returned it is of the kind it began as, and nothing has been removed. */
  lemma {:induction false} KindOfCall<T>(cfg: Config, states: seq<State<T>>, events: seq<Event<T>>, i: nat, m: nat, k: Kind)
    requires IsRun(cfg, states, events) && ConsumerCall(states, events, i, m + 1, k) && i < m
    ensures states[m].cons.Active() && states[m].cons.k == k && states[m].deq == states[i].deq
  {
    hide IsRun, Act, Observe, Safe, StepConsumer, ConsumerSafe;
    NeverFails(cfg, states, events, m - 1);
    EventKeepsConsumer(states[m - 1], events[m - 1]);
    if m > i + 1 {
      KindOfCall(cfg, states, events, i, m - 1, k);
      if events[m - 1] == ConsumerStep {
        StepKeepsKind(states[m - 1]);
      }
    }
  }

  /** What a reply to a call of kind `k` says, given the states before and after the last step. */
  ghost predicate RightReply<T>(k: Kind, before: State<T>, after: State<T>) {
    after.cons.CDone?
    && match after.cons.reply
       case Empty => after.deq == before.deq
       case Got(v) => k == Dequeue && Oldest(before, v) && after.deq == before.deq + [v]
       case Removed => k == Pop && |before.deq| < |before.enq| && after.deq == before.deq + [before.enq[|before.deq|]]
       case At(b, f) => && k == Peek && after.deq == before.deq && |after.deq| < |after.enq|
                        && b < |after.blocks| && f < |after.blocks[b].data|
                        && after.blocks[b].data[f] == Some(after.enq[|after.deq|])
  }

  lemma RemovalTakesOldest<T>(s: State<T>, ring: seq<nat>, off: seq<nat>)
    requires Inv(s, ring, off) && s.cons.CStoreFront?
    ensures s.cons.k != Peek && Oldest(s, s.cons.v)
  {
    hide Ring, Linked, Offsets, Slots, Capacity, ProducerInv, PeekInv;
  }

  /** In every run, whatever the producer does meanwhile: until it returns a call removes nothing, and it
      returns with empty hands, or, if it is a `try_dequeue`, with the oldest element, now removed, or, if it
      is a `pop`, having removed the oldest element, or, if it is a `peek`, with the place of the oldest
      element, which stays. */
  lemma CallReturns<T>(cfg: Config, states: seq<State<T>>, events: seq<Event<T>>, i: nat, j: nat, k: Kind)
    requires IsRun(cfg, states, events) && ConsumerCall(states, events, i, j, k) && states[j].cons.CDone?
    ensures i + 1 < j && states[j - 1].deq == states[i].deq && RightReply(k, states[j - 1], states[j])
  {
    hide IsRun, Act, Observe, Safe, StepConsumer, ConsumerSafe, Inv;
    NeverFails(cfg, states, events, i);
    EventKeepsConsumer(states[i], events[i]);
    assert ConsumerCall(states, events, i, j - 1 + 1, k);
    KindOfCall(cfg, states, events, i, j - 1, k);
    NeverFails(cfg, states, events, j - 1);
    EventKeepsConsumer(states[j - 1], events[j - 1]);
    StepKeepsKind(states[j - 1]);
    if states[j - 1].cons.CStoreFront? {
      var ring, off := RunKeepsInv(cfg, states, events, j - 1);
      RemovalTakesOldest(states[j - 1], ring, off);
    }
    if states[j].cons.reply.At? {
      PeekNamesOldest(cfg, states, events, j, j);
    }
  }

  // ---- the producer's calls --------------------------------------------------------------

  /** An enqueue of `x` begins with event `i` and has not returned before instant `j`. */
  ghost predicate ProducerCall<T>(states: seq<State<T>>, events: seq<Event<T>>, i: nat, j: nat, x: T, canAlloc: bool) {
    && i < j < |states| == |events| + 1 && events[i] == CallEnqueue(x, canAlloc)
    && forall m :: i < m < j ==> states[m].prod.Active()
  }

  /** The call may still allocate, or has done so. */
  predicate MayAllocate<T>(p: Producer<T>) {
    match p
    case LoadTailBlock(_, alloc) => alloc
    case LoadTail(_, alloc, _) => alloc
    case LoadFront(_, alloc, _, _, _) => alloc
    case LoadNext(_, alloc, _) => alloc
    case CheckFrontBlock(_, alloc, _, _) => alloc
    case Allocate(_, _) => true
    case InitBlock(_, _, _) => true
    case LinkNew(_, _, _) => true
    case LinkTail(_, _, _) => true
    case _ => false
  }

  lemma StepKeepsElement<T>(s: State<T>)
    requires s.prod.Active() && ProducerSafe(s)
    ensures var s' := StepProducer(s);
            && (s'.prod.Active() || s'.prod.PDone?) && (s'.prod.Active() ==> s'.prod.x == s.prod.x && s'.enq == s.enq)
            && (s'.prod.PDone? ==> s'.enq == s.enq + (if s'.prod.ok then [s.prod.x] else []))
  {
  }

  lemma StepKeepsBlocks<T>(s: State<T>)
    requires s.prod.Active() && ProducerSafe(s) && !MayAllocate(s.prod)
    ensures var s' := StepProducer(s);
            !MayAllocate(s'.prod) && |s'.blocks| == |s.blocks| && s'.largest == s.largest
  {
  }

  lemma ConsumerKeepsBlocks<T>(s: State<T>)
    requires s.cons.Active() && ConsumerSafe(s)
    ensures var s' := StepConsumer(s);
            |s'.blocks| == |s.blocks| && s'.largest == s.largest && s'.enq == s.enq && s'.prod == s.prod
  {
  }

  lemma EventKeepsProducer<T>(s: State<T>, e: Event<T>)
    requires Enabled(s, e) && Safe(s)
    ensures var s' := Observe(s, Act(s, e));
            && (e.CallEnqueue? ==> !s.prod.Active() && s'.prod == LoadTailBlock(e.x, e.canAlloc))
            && (e.AllocationFails? ==> s.prod.Allocate? && s'.prod == PDone(false))
            && (!e.CallEnqueue? && !e.ProducerStep? && !e.AllocationFails? ==> s'.prod == s.prod)
            && (!e.ProducerStep? ==> s'.enq == s.enq && |s'.blocks| == |s.blocks| && s'.largest == s.largest)
            && (e.ProducerStep? ==> && s.prod.Active() && ProducerSafe(s) && s'.prod == StepProducer(s).prod
                                    && s'.enq == StepProducer(s).enq && s'.blocks == StepProducer(s).blocks
                                    && s'.largest == StepProducer(s).largest)
  {
    hide StepProducer, StepConsumer;
    if e == ConsumerStep {
      ConsumerKeepsBlocks(s);
    }
  }

  /** As long as a call has not returned it is about the element it began with, and nothing has been added;
      without permission it has not allocated. */
  lemma {:induction false} ElementOfCall<T>(cfg: Config, states: seq<State<T>>, events: seq<Event<T>>, i: nat, m: nat,
                                            x: T, canAlloc: bool)
    requires IsRun(cfg, states, events) && ProducerCall(states, events, i, m + 1, x, canAlloc) && i < m
    ensures states[m].prod.Active() && states[m].prod.x == x && states[m].enq == states[i].enq
    ensures !canAlloc ==> !MayAllocate(states[m].prod) && |states[m].blocks| == |states[i].blocks|
                          && states[m].largest == states[i].largest
  {
    hide IsRun, Act, Observe, Safe, StepProducer, ProducerSafe;
    NeverFails(cfg, states, events, m - 1);
    EventKeepsProducer(states[m - 1], events[m - 1]);
    if m > i + 1 {
      ElementOfCall(cfg, states, events, i, m - 1, x, canAlloc);
      if events[m - 1] == ProducerStep {
        StepKeepsElement(states[m - 1]);
        if !canAlloc {
          StepKeepsBlocks(states[m - 1]);
        }
      }
    }
  }

  /** The producer is past the point where the permission matters, or still has it. */
  predicate Permitted<T>(p: Producer<T>) {
    p.LoadTailBlock? || p.LoadTail? || p.LoadFront? || p.LoadNext? || p.CheckFrontBlock? ==> p.alloc
  }

  lemma StepKeepsPermission<T>(s: State<T>)
    requires s.prod.Active() && ProducerSafe(s) && Permitted(s.prod)
    ensures Permitted(StepProducer(s).prod) && StepProducer(s).prod != PDone(false)
  {
  }

  lemma {:induction false} PermissionKept<T>(cfg: Config, states: seq<State<T>>, events: seq<Event<T>>, i: nat, m: nat, x: T)
    requires IsRun(cfg, states, events) && ProducerCall(states, events, i, m + 1, x, true) && i < m
    ensures Permitted(states[m].prod)
  {
    hide IsRun, Act, Observe, Safe, StepProducer, ProducerSafe;
    NeverFails(cfg, states, events, m - 1);
    EventKeepsProducer(states[m - 1], events[m - 1]);
    if m > i + 1 {
      PermissionKept(cfg, states, events, i, m - 1, x);
      if events[m - 1] == ProducerStep {
        StepKeepsPermission(states[m - 1]);
      }
    }
  }

  /** In every run, whatever the consumer does meanwhile: an enqueue that returns true has put exactly its
      element at the end, and one that returns false has added nothing, for want of memory if it was allowed
      to allocate. Without permission no block is added. */
  lemma EnqueueReturns<T>(cfg: Config, states: seq<State<T>>, events: seq<Event<T>>, i: nat, j: nat,
                          x: T, canAlloc: bool)
    requires IsRun(cfg, states, events) && ProducerCall(states, events, i, j, x, canAlloc) && states[j].prod.PDone?
    ensures i + 1 < j && states[j].enq == states[i].enq + (if states[j].prod.ok then [x] else [])
    ensures !states[j].prod.ok && canAlloc ==> events[j - 1] == AllocationFails
    ensures !canAlloc ==> |states[j].blocks| == |states[i].blocks| && states[j].largest == states[i].largest
  {
    hide IsRun, Act, Observe, Safe, StepProducer, ProducerSafe;
    NeverFails(cfg, states, events, i);
    EventKeepsProducer(states[i], events[i]);
    assert ProducerCall(states, events, i, j - 1 + 1, x, canAlloc);
    ElementOfCall(cfg, states, events, i, j - 1, x, canAlloc);
    NeverFails(cfg, states, events, j - 1);
    EventKeepsProducer(states[j - 1], events[j - 1]);
    if events[j - 1] == ProducerStep {
      StepKeepsElement(states[j - 1]);
      if !canAlloc {
        StepKeepsBlocks(states[j - 1]);
      } else {
        PermissionKept(cfg, states, events, i, j - 1, x);
        StepKeepsPermission(states[j - 1]);
      }
    }
  }

  /** A call comes to allocate only if the queue held at least `size` elements at some instant of it. */
  lemma AllocatesOnlyWhenFull<T>(cfg: Config, states: seq<State<T>>, events: seq<Event<T>>, j: nat) returns (k: nat)
    requires IsRun(cfg, states, events) && j < |states| && states[j].prod.Allocate?
    ensures ProducerInCall(states, k, j) && Held(states[k]) >= cfg.size
  {
    var ring, off := RunKeepsInv(cfg, states, events, j);
    assert states[j].peak >= states[j].cfg.size;
    hide IsRun, Inv, Held;
    LogsGrow(cfg, states, events, 0, j);
    RunStart(cfg, states, events);
    k := PeakWitness(cfg, states, events, j);
  }

  lemma BlocksAdded<T>(s: State<T>, e: Event<T>)
    requires Enabled(s, e) && Safe(s)
    ensures |Observe(s, Act(s, e)).blocks| == |s.blocks| + if e == ProducerStep && s.prod.Allocate? then 1 else 0
  {
    hide StepProducer, StepConsumer, Safe, Act, Observe, ProducerSafe;
    EventKeepsProducer(s, e);
    if e == ProducerStep {
      StepAddsBlock(s);
    }
  }

  lemma StepAddsBlock<T>(s: State<T>)
    requires s.prod.Active() && ProducerSafe(s)
    ensures |StepProducer(s).blocks| == |s.blocks| + if s.prod.Allocate? then 1 else 0
  {
  }

  /** Memory is allocated once if the estimate given to the constructor is never reached: as long as the
      queue has held fewer than `size` elements it has the blocks it was built with. */
  lemma {:induction false} AllocatesOnce<T>(cfg: Config, states: seq<State<T>>, events: seq<Event<T>>, j: nat)
    requires IsRun(cfg, states, events) && j < |states| && forall m :: 0 <= m < j ==> Held(states[m]) < cfg.size
    ensures |states[j].blocks| == |states[0].blocks|
  {
    hide IsRun, Act, Observe, Safe, Held;
    if j > 0 {
      AllocatesOnce(cfg, states, events, j - 1);
      RunLength(cfg, states, events);
      NeverFails(cfg, states, events, j - 1);
      BlocksAdded(states[j - 1], events[j - 1]);
      if states[j - 1].prod.Allocate? {
        var k := AllocatesOnlyWhenFull(cfg, states, events, j - 1);
      }
    }
  }

  // ---- wait-freedom ----------------------------------------------------------------------

  /** How many more steps of its own a call can take. */
  function ConsumerStepsLeft<T>(c: Consumer<T>): nat {
    match c
    case CLoadFrontBlock(_) => 13
    case CLoadFront(_, _) => 12
    case CLoadTail(_, _, _) => 11
    case CLoadTailBlock(_, _) => 10
    case CReloadFrontBlock(_) => 9
    case CReloadTail(_, _) => 8
    case CReloadFront(_, _, _) => 7
    case CLoadNext(_, _) => 6
    case CLoadNextFront(_, _) => 5
    case CLoadNextTail(_, _, _) => 4
    case CStoreFrontBlock(_, _, _) => 3
    case CTake(_, _, _) => 2
    case CStoreFront(_, _, _, _) => 1
    case _ => 0
  }

  function ProducerStepsLeft<T>(p: Producer<T>): nat {
    match p
    case LoadTailBlock(_, _) => 11
    case LoadTail(_, _, _) => 10
    case LoadFront(_, _, _, _, _) => 9
    case LoadNext(_, _, _) => 8
    case CheckFrontBlock(_, _, _, _) => 7
    case ReloadNext(_, _) => 6
    case LoadNextFront(_, _) => 5
    case LoadNextTail(_, _, _) => 4
    case ConstructNext(_, _, _) => 3
    case StoreNextTail(_, _, _) => 2
    case Allocate(_, _) => 5
    case InitBlock(_, _, _) => 4
    case LinkNew(_, _, _) => 3
    case LinkTail(_, _, _) => 2
    case Publish(_, _, _) => 1
    case Construct(_, _, _, _) => 2
    case StoreTail(_, _, _, _) => 1
    case _ => 0
  }

  lemma ConsumerProgress<T>(s: State<T>)
    requires s.cons.Active() && ConsumerSafe(s)
    ensures ConsumerStepsLeft(StepConsumer(s).cons) < ConsumerStepsLeft(s.cons)
  {
  }

  lemma ProducerProgress<T>(s: State<T>)
    requires s.prod.Active() && ProducerSafe(s)
    ensures ProducerStepsLeft(StepProducer(s).prod) < ProducerStepsLeft(s.prod)
  {
  }

  /** How many of the events from `lo` up to `hi` are `e`. */
  ghost function Occurrences<T>(events: seq<Event<T>>, e: Event<T>, lo: nat, hi: nat): nat
    requires hi <= |events|
    decreases hi
  {
    if hi <= lo then 0 else Occurrences(events, e, lo, hi - 1) + (if events[hi - 1] == e then 1 else 0)
  }

  lemma {:induction false} ConsumerStepsTaken<T>(cfg: Config, states: seq<State<T>>, events: seq<Event<T>>, i: nat, m: nat, k: Kind)
    requires IsRun(cfg, states, events) && ConsumerCall(states, events, i, m, k)
    ensures Occurrences(events, ConsumerStep, i + 1, m) + ConsumerStepsLeft(states[m].cons) <= 13
    decreases m
  {
    hide IsRun, Act, Observe, Safe, StepConsumer, ConsumerSafe;
    NeverFails(cfg, states, events, m - 1);
    EventKeepsConsumer(states[m - 1], events[m - 1]);
    if m > i + 1 {
      ConsumerStepsTaken(cfg, states, events, i, m - 1, k);
      if events[m - 1] == ConsumerStep {
        ConsumerProgress(states[m - 1]);
      }
    }
  }

  lemma {:induction false} ProducerStepsTaken<T>(cfg: Config, states: seq<State<T>>, events: seq<Event<T>>, i: nat, m: nat,
                                                 x: T, canAlloc: bool)
    requires IsRun(cfg, states, events) && ProducerCall(states, events, i, m, x, canAlloc)
    ensures Occurrences(events, ProducerStep, i + 1, m) + ProducerStepsLeft(states[m].prod) <= 11
    decreases m
  {
    hide IsRun, Act, Observe, Safe, StepProducer, ProducerSafe;
    NeverFails(cfg, states, events, m - 1);
    EventKeepsProducer(states[m - 1], events[m - 1]);
    if m > i + 1 {
      ProducerStepsTaken(cfg, states, events, i, m - 1, x, canAlloc);
      if events[m - 1] == ProducerStep {
        ProducerProgress(states[m - 1]);
      }
    }
  }

  /** Wait-freedom: whatever the other thread does, and however often it is scheduled, a `try_dequeue`, `pop`
      or `peek` has returned after 13 steps of its own. */
  lemma ConsumerIsWaitFree<T>(cfg: Config, states: seq<State<T>>, events: seq<Event<T>>, i: nat, j: nat, k: Kind)
    requires IsRun(cfg, states, events) && ConsumerCall(states, events, i, j, k)
    ensures Occurrences(events, ConsumerStep, i + 1, j) <= 13
    ensures Occurrences(events, ConsumerStep, i + 1, j) == 13 ==> !states[j].cons.Active()
  {
    hide IsRun;
    ConsumerStepsTaken(cfg, states, events, i, j, k);
  }

  /** The same for an enqueue and 11 steps, one of which may be an allocation. */
  lemma ProducerIsWaitFree<T>(cfg: Config, states: seq<State<T>>, events: seq<Event<T>>, i: nat, j: nat,
                              x: T, canAlloc: bool)
    requires IsRun(cfg, states, events) && ProducerCall(states, events, i, j, x, canAlloc)
    ensures Occurrences(events, ProducerStep, i + 1, j) <= 11
    ensures Occurrences(events, ProducerStep, i + 1, j) == 11 ==> !states[j].prod.Active()
  {
    hide IsRun;
    ProducerStepsTaken(cfg, states, events, i, j, x, canAlloc);
  }
}
