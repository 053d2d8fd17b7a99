/** What each call on the blocking queue returns, over every run, and which of them may block. */
module BlockingCalls {
  import B = Blocking
  import I = SpscInvariant
  import M = Semaphore
  import P = SpscReplies
  import R = SpscTheorems
  import S = Spsc

  // ---- taking ---------------------------------------------------------------------------

  /** A call `c` begins with event `i` and has not returned before instant `j`. */
  ghost predicate TakeCall<T>(states: seq<B.State<T>>, events: seq<B.Event<T>>, i: nat, j: nat, c: B.Call) {
    && i < j < |states| == |events| + 1 && events[i] == B.StartTake(c)
    && forall m :: i < m < j ==> !states[m].cons.CReady?
  }

  /** `wait_dequeue_timed` with a time that is not zero. */
  predicate TakesItsTime(c: B.Call) {
    c.WaitDequeueTimed? && c.timeout != M.Immediate
  }

  function Removing(c: B.Call): S.Kind {
    match c
    case Pop => S.Pop
    case TryDequeue => S.Dequeue
    case WaitDequeue => S.Dequeue
    case WaitDequeueTimed(_) => S.Dequeue
  }

  /** The number of steps the semaphore's wait has taken since it was last begun, by event `i` or again. */
  function WaitSteps<T>(events: seq<B.Event<T>>, i: nat, m: nat): nat
    requires m <= |events|
    decreases m
  {
    if m <= i + 1 then 0 else StepsAfter(events[m - 1], WaitSteps(events, i, m - 1))
  }

  function StepsAfter<T>(e: B.Event<T>, steps: nat): nat {
    if e.Retry? then 0 else if e.Waiting? then steps + 1 else steps
  }

  /** The kernel wait failed or timed out between event `i` and instant `m`. */
  predicate GaveUpWithin<T>(events: seq<B.Event<T>>, i: nat, m: nat) {
    exists g :: i < g < m && g < |events| && LetsDown(events[g])
  }

  predicate LetsDown<T>(e: B.Event<T>) {
    e.Waiting? && e.step == M.KernelGivesUp
  }

  /** Where a call may be: the wait belongs to the call, then the inner call is of the right kind. Nothing has
      been removed. */
  ghost predicate InTake<T>(c: B.Call, b: B.State<T>, steps: nat, gaveUp: bool, removed: seq<T>) {
    && b.q.deq == removed
    && match b.cons
       case CWaiting(call) => call == c && M.OnItsWay(c.Wait(), b.m.waiter, steps, gaveUp)
       case CAcquired(kind) => kind == c.Kind()
       case CInner(kind) => kind == c.Kind()
       case _ => false
  }

  lemma TakeBegins<T>(b: B.State<T>, c: B.Call)
    requires B.Enabled(b, B.StartTake(c)) && S.Safe(b.q)
    ensures InTake(c, B.Act(b, B.StartTake(c)), 0, false, b.q.deq)
  {
    hide S.Safe, M.OnItsWay;
    M.CallBegins(b.m, c.Wait());
  }

  lemma WaitGoesOn<T>(b: B.State<T>, e: B.Event<T>, c: B.Call, steps: nat, gaveUp: bool, removed: seq<T>)
    requires InTake(c, b, steps, gaveUp, removed) && B.Books(b) && b.cons.CWaiting?
    requires B.Enabled(b, e) && S.Safe(b.q) && (e.Waiting? || e.Retry?)
    ensures var b' := B.Act(b, e);
            var up := gaveUp || LetsDown(e);
            if b'.cons.CReady? then b'.q.deq == removed && !c.WaitDequeue? && (TakesItsTime(c) ==> up)
            else InTake(c, b', StepsAfter(e, steps), up, removed)
  {
    hide S.Safe, S.Enabled, M.Inv;
    if e.Waiting? {
      M.StepOnItsWay(b.m, e.step, c.Wait(), steps, gaveUp);
    } else {
      M.CallBegins(b.m, c.Wait());
    }
  }

  lemma OthersLeaveWait<T>(b: B.State<T>, e: B.Event<T>)
    requires B.Books(b) && B.Enabled(b, e) && S.Safe(b.q)
    requires e.StartEnqueue? || e.InnerProducer? || e.DoSignal? || e.DoPost?
    ensures var b' := B.Act(b, e);
            b'.cons == b.cons && b'.m.waiter == b.m.waiter && b'.q.deq == b.q.deq && b'.q.cons == b.q.cons
  {
    hide S.Safe, S.StepProducer, M.Inv;
    if e.InnerProducer? && !e.outOfMemory {
      ProducerMaySafely(b.q);
      R.ProducerLog(b.q);
    }
  }

  lemma InnerGoesOn<T>(b: B.State<T>, c: B.Call, steps: nat, gaveUp: bool, removed: seq<T>, ring: seq<nat>, off: seq<nat>)
    requires InTake(c, b, steps, gaveUp, removed) && B.Books(b) && b.cons.CInner?
    requires I.Inv(b.q, ring, off) && B.Enabled(b, B.InnerConsumer) && S.Safe(b.q)
    requires !B.Act(b, B.InnerConsumer).cons.CFailed?
    ensures var b' := B.Act(b, B.InnerConsumer);
            if b'.cons.CReady? then P.RightReply(c.Kind(), b.q, b'.q) && b'.q.cons.reply != S.Empty
            else InTake(c, b', steps, gaveUp, removed)
  {
    hide I.Inv, S.StepConsumer, S.ProducerSafe, S.ConsumerSafe, M.Inv, M.OnItsWay;
    B.ConsumerMaySafely(b.q);
    P.StepKeepsKind(b.q);
    if b.q.cons.CStoreFront? {
      P.RemovalTakesOldest(b.q, ring, off);
    }
  }

  lemma InnerStarts<T>(b: B.State<T>, c: B.Call, steps: nat, gaveUp: bool, removed: seq<T>)
    requires InTake(c, b, steps, gaveUp, removed) && B.Enabled(b, B.StartInner) && S.Safe(b.q)
    ensures InTake(c, B.Act(b, B.StartInner), steps, gaveUp, removed)
  {
    hide S.Safe, M.OnItsWay;
  }

  /** How a call that has returned ended: refused by the semaphore, or with its reply from the inner queue. */
  ghost predicate Ended<T>(c: B.Call, before: B.State<T>, after: B.State<T>, gaveUp: bool, removed: seq<T>) {
    && before.q.deq == removed
    && if before.cons.CWaiting?
       then after.q.deq == removed && !c.WaitDequeue? && (TakesItsTime(c) ==> gaveUp)
       else P.RightReply(c.Kind(), before.q, after.q) && after.q.cons.reply != S.Empty
  }

  lemma TakeGoesOn<T>(b: B.State<T>, e: B.Event<T>, c: B.Call, steps: nat, gaveUp: bool, removed: seq<T>,
                      ring: seq<nat>, off: seq<nat>)
    requires InTake(c, b, steps, gaveUp, removed) && B.Books(b) && I.Inv(b.q, ring, off) && S.Safe(b.q)
    requires B.Enabled(b, e) && !B.Act(b, e).cons.CFailed?
    ensures var b' := B.Act(b, e);
            var up := gaveUp || LetsDown(e);
            if b'.cons.CReady? then Ended(c, b, b', up, removed)
            else InTake(c, b', StepsAfter(e, steps), up, removed)
  {
    hide I.Inv, S.Safe, S.Enabled, M.Enabled, B.Act, B.Books, M.OnItsWay, P.RightReply;
    match e
    case Waiting(_) => WaitGoesOn(b, e, c, steps, gaveUp, removed);
    case Retry => WaitGoesOn(b, e, c, steps, gaveUp, removed);
    case StartInner => InnerStarts(b, c, steps, gaveUp, removed);
    case InnerConsumer => InnerGoesOn(b, c, steps, gaveUp, removed, ring, off);
    case StartTake(_) =>
    case StartPeek =>
    case _ => OthersLeaveWait(b, e);
  }

  lemma Stepped<T>(cfg: S.Config, states: seq<B.State<T>>, events: seq<B.Event<T>>, i: nat)
    returns (ring: seq<nat>, off: seq<nat>)
    requires B.IsRun(cfg, states, events) && i < |events|
    ensures I.Inv(states[i].q, ring, off) && B.Books(states[i]) && S.Safe(states[i].q)
    ensures B.Enabled(states[i], events[i]) && states[i + 1] == B.Act(states[i], events[i]) && !states[i + 1].cons.CFailed?
  {
    hide I.Inv, S.Safe, B.Books, B.Act, B.Enabled;
    ring, off := B.RunKeeps(cfg, states, events, i);
    I.InvSafe(states[i].q, ring, off);
    B.BlockingSafety(cfg, states, events, i + 1);
    assert B.Next(states[i], events[i], states[i + 1]);
  }

  lemma {:induction false} TakeProceeds<T>(cfg: S.Config, states: seq<B.State<T>>, events: seq<B.Event<T>>, i: nat, m: nat,
                                           c: B.Call)
    requires B.IsRun(cfg, states, events) && TakeCall(states, events, i, m, c)
    ensures if states[m].cons.CReady? then Ended(c, states[m - 1], states[m], GaveUpWithin(events, i, m), states[i].q.deq)
            else InTake(c, states[m], WaitSteps(events, i, m), GaveUpWithin(events, i, m), states[i].q.deq)
    ensures m > i + 1 || !states[m].cons.CReady?
    decreases m
  {
    hide B.IsRun, I.Inv, S.Safe, B.Books, B.Act, B.Enabled, InTake, Ended, LetsDown;
    var ring, off := Stepped(cfg, states, events, m - 1);
    if m == i + 1 {
      TakeBegins(states[i], c);
      NotReady(c, states[m], 0, false, states[i].q.deq);
      assert !GaveUpWithin(events, i, m);
    } else {
      TakeProceeds(cfg, states, events, i, m - 1, c);
      TakeGoesOn(states[m - 1], events[m - 1], c, WaitSteps(events, i, m - 1), GaveUpWithin(events, i, m - 1),
                 states[i].q.deq, ring, off);
      assert GaveUpWithin(events, i, m) <==> GaveUpWithin(events, i, m - 1) || LetsDown(events[m - 1]);
    }
  }

  lemma NotReady<T>(c: B.Call, b: B.State<T>, steps: nat, gaveUp: bool, removed: seq<T>)
    requires InTake(c, b, steps, gaveUp, removed)
    ensures !b.cons.CReady?
  {
  }

  /** In every run, whatever the producer does meanwhile, a call returns in one of two ways. Refused by the
      semaphore it has removed nothing, it is not a `wait_dequeue`, and if it was to wait some time then the
      kernel wait failed or timed out within it. Otherwise `try_dequeue` and both waits hand out the oldest
      element and have removed it, and `pop` has removed it. */
  lemma TakeReturns<T>(cfg: S.Config, states: seq<B.State<T>>, events: seq<B.Event<T>>, i: nat, j: nat, c: B.Call)
    requires B.IsRun(cfg, states, events) && TakeCall(states, events, i, j, c) && states[j].cons.CReady?
    ensures i + 1 < j && states[j - 1].q.deq == states[i].q.deq
    ensures states[j - 1].cons.CWaiting? ==>
              && states[j].q.deq == states[i].q.deq && c != B.WaitDequeue
              && (TakesItsTime(c) ==> GaveUpWithin(events, i, j))
    ensures !states[j - 1].cons.CWaiting? ==>
              P.RightReply(Removing(c), states[j - 1].q, states[j].q) && states[j].q.cons.reply != S.Empty
  {
    hide B.IsRun, P.RightReply, GaveUpWithin;
    TakeProceeds(cfg, states, events, i, j, c);
  }

  /** `try_dequeue` and `pop` do not block: the consumer is never asleep in them, and the semaphore has
      answered after two steps. Nor is it ever asleep in a timed wait of no time. */
  lemma TriesNeverBlock<T>(cfg: S.Config, states: seq<B.State<T>>, events: seq<B.Event<T>>, i: nat, j: nat, c: B.Call)
    requires B.IsRun(cfg, states, events) && TakeCall(states, events, i, j, c) && !states[j].cons.CReady?
    requires c == B.TryDequeue || c == B.Pop || c == B.WaitDequeueTimed(M.Immediate)
    ensures !states[j].m.waiter.Sleep?
    ensures c != B.WaitDequeueTimed(M.Immediate) && states[j].cons.CWaiting? ==> WaitSteps(events, i, j) < 2
  {
    hide B.IsRun, GaveUpWithin;
    TakeProceeds(cfg, states, events, i, j, c);
    RestBetweenWaits(cfg, states, events, j);
  }

  /** The waits sleep as they were told to: `wait_dequeue` without a limit, a timed one with its own. */
  lemma SleepsAsTold<T>(cfg: S.Config, states: seq<B.State<T>>, events: seq<B.Event<T>>, i: nat, j: nat, c: B.Call)
    requires B.IsRun(cfg, states, events) && TakeCall(states, events, i, j, c) && !states[j].cons.CReady?
    requires states[j].m.waiter.Sleep?
    ensures var t := states[j].m.waiter.t;
            (c == B.WaitDequeue && t == M.Forever) || (c == B.WaitDequeueTimed(t) && t != M.Immediate)
  {
    hide B.IsRun, GaveUpWithin;
    TakeProceeds(cfg, states, events, i, j, c);
    RestBetweenWaits(cfg, states, events, j);
  }

  /** `wait_dequeue` waits without a limit: it looks again only after the kernel wait has failed. */
  lemma WaitsWithoutLimit<T>(cfg: S.Config, states: seq<B.State<T>>, events: seq<B.Event<T>>, i: nat, j: nat)
    requires B.IsRun(cfg, states, events) && TakeCall(states, events, i, j, B.WaitDequeue)
    requires states[j].cons.CWaiting? && !states[j].m.waiter.Active()
    ensures GaveUpWithin(events, i, j) && WaitSteps(events, i, j) > 1025
  {
    hide B.IsRun, GaveUpWithin;
    TakeProceeds(cfg, states, events, i, j, B.WaitDequeue);
    RestBetweenWaits(cfg, states, events, j);
  }

  lemma RestBetweenWaits<T>(cfg: S.Config, states: seq<B.State<T>>, events: seq<B.Event<T>>, j: nat)
    requires B.IsRun(cfg, states, events) && j < |states|
    ensures !states[j].cons.CWaiting? ==> !states[j].m.waiter.Active()
    ensures states[j].cons.CWaiting? ==> states[j].m.waiter.Active()
                                         || (states[j].cons.call.WaitDequeue? && states[j].m.waiter == M.WDone(false))
  {
    var ring, off := B.RunKeeps(cfg, states, events, j);
    hide B.IsRun, I.Inv, M.Inv;
  }

  // ---- peeking ---------------------------------------------------------------------------

  ghost predicate PeekCall<T>(states: seq<B.State<T>>, events: seq<B.Event<T>>, i: nat, j: nat) {
    && i < j < |states| == |events| + 1 && events[i] == B.StartPeek
    && forall m :: i < m < j ==> !states[m].cons.CReady?
  }

  ghost predicate InPeek<T>(b: B.State<T>, removed: seq<T>) {
    b.q.deq == removed && b.cons == B.CInner(S.Peek)
  }

  /** The reply is a pointer, and the one the queue remembers, or null. */
  predicate PeekReply<T>(q: S.State<T>) {
    q.cons.CDone? && (q.cons.reply.Empty?
                      || (q.cons.reply.At? && q.peeked.Some? && q.peeked.value == (q.cons.reply.block, q.cons.reply.index)))
  }

  lemma PeekGoesOn<T>(b: B.State<T>, e: B.Event<T>, removed: seq<T>, ring: seq<nat>, off: seq<nat>)
    requires InPeek(b, removed) && B.Books(b) && I.Inv(b.q, ring, off) && S.Safe(b.q) && B.Enabled(b, e)
    ensures var b' := B.Act(b, e);
            b'.q.deq == removed && (b'.cons.CReady? || InPeek(b', removed)) && (b'.cons.CReady? ==> PeekReply(b'.q))
  {
    hide I.Inv, S.Safe, S.StepConsumer, M.Inv;
    match e
    case InnerConsumer =>
      B.ConsumerMaySafely(b.q);
      P.StepKeepsKind(b.q);
      R.PeekReturnSetsPeeked(b.q);
      if b.q.cons.CStoreFront? {
        P.RemovalTakesOldest(b.q, ring, off);
      }
    case StartEnqueue(_, _) => OthersLeaveWait(b, e);
    case InnerProducer(_) => OthersLeaveWait(b, e);
    case DoSignal => OthersLeaveWait(b, e);
    case DoPost => OthersLeaveWait(b, e);
    case _ =>
  }

  lemma {:induction false} PeekProceeds<T>(cfg: S.Config, states: seq<B.State<T>>, events: seq<B.Event<T>>, i: nat, j: nat)
    requires B.IsRun(cfg, states, events) && PeekCall(states, events, i, j)
    ensures states[j].q.deq == states[i].q.deq
    ensures states[j].cons == B.CInner(S.Peek) || (i + 1 < j && states[j].cons.CReady? && PeekReply(states[j].q))
    decreases j
  {
    hide B.IsRun, I.Inv, S.Safe, B.Books, B.Act, B.Enabled;
    var ring, off := Stepped(cfg, states, events, j - 1);
    if j == i + 1 {
      PeekBegins(states[i]);
    } else {
      PeekProceeds(cfg, states, events, i, j - 1);
      PeekGoesOn(states[j - 1], events[j - 1], states[i].q.deq, ring, off);
    }
  }

  /** `peek` goes to the inner queue at once: in every run it takes no part in the semaphore's waits, removes
      nothing, and returns null or the place of the oldest element. */
  lemma PeekReturns<T>(cfg: S.Config, states: seq<B.State<T>>, events: seq<B.Event<T>>, i: nat, j: nat)
    requires B.IsRun(cfg, states, events) && PeekCall(states, events, i, j)
    ensures states[j].q.deq == states[i].q.deq && (states[j].cons == B.CInner(S.Peek) || states[j].cons.CReady?)
    ensures states[j].cons.CReady? ==>
              states[j].q.cons == S.CDone(S.Empty) || (i + 1 < j && P.RightReply(S.Peek, states[i].q, states[j].q))
  {
    hide B.IsRun, I.Inv;
    PeekProceeds(cfg, states, events, i, j);
    if states[j].cons.CReady? && states[j].q.cons.reply.At? {
      var ring, off := B.RunKeeps(cfg, states, events, j);
      R.PeekedIsOldest(states[j].q, ring, off);
    }
  }

  lemma PeekBegins<T>(b: B.State<T>)
    requires B.Enabled(b, B.StartPeek) && S.Safe(b.q)
    ensures InPeek(B.Act(b, B.StartPeek), b.q.deq)
  {
    hide S.Safe;
  }

  // ---- enqueueing --------------------------------------------------------------------------

  ghost predicate EnqueueCall<T>(states: seq<B.State<T>>, events: seq<B.Event<T>>, i: nat, j: nat, x: T, canAlloc: bool) {
    && i < j < |states| == |events| + 1 && events[i] == B.StartEnqueue(x, canAlloc)
    && forall m :: i < m < j ==> !states[m].prod.PReady?
  }

  /** In the inner enqueue nothing is added yet; after it exactly `x` is. */
  ghost predicate InEnqueue<T>(b: B.State<T>, before: seq<T>, x: T) {
    match b.prod
    case PInner => b.q.enq == before && b.q.prod.Active() && b.q.prod.x == x
    case PSignal => b.q.enq == before + [x]
    case PPost => b.q.enq == before + [x]
    case PReady => false
  }

  lemma EnqueueBegins<T>(b: B.State<T>, x: T, canAlloc: bool)
    requires B.Enabled(b, B.StartEnqueue(x, canAlloc)) && S.Safe(b.q)
    ensures InEnqueue(B.Act(b, B.StartEnqueue(x, canAlloc)), b.q.enq, x)
  {
    hide S.Safe;
  }

  lemma EnqueueGoesOn<T>(b: B.State<T>, e: B.Event<T>, before: seq<T>, x: T)
    requires InEnqueue(b, before, x) && B.Books(b) && S.Safe(b.q) && B.Enabled(b, e)
    ensures var b' := B.Act(b, e);
            if b'.prod.PReady? then b'.q.enq == if b.prod.PInner? then before else before + [x]
            else InEnqueue(b', before, x)
    ensures B.Act(b, e).prod.PReady? && b.prod.PInner? ==> B.Act(b, e).q.prod == S.PDone(false)
  {
    hide S.StepProducer, S.StepConsumer, S.ProducerSafe, S.ConsumerSafe, M.Inv;
    match e
    case InnerProducer(oom) =>
      if !oom {
        ProducerMaySafely(b.q);
        P.StepKeepsElement(b.q);
      }
    case InnerConsumer =>
      B.ConsumerMaySafely(b.q);
      P.ConsumerKeepsBlocks(b.q);
    case _ =>
  }

  lemma ProducerMaySafely<T>(q: S.State<T>)
    requires S.Safe(q)
    ensures S.ProducerSafe(q)
  {
  }

  lemma {:induction false} EnqueueProceeds<T>(cfg: S.Config, states: seq<B.State<T>>, events: seq<B.Event<T>>, i: nat, m: nat,
                                              x: T, canAlloc: bool)
    requires B.IsRun(cfg, states, events) && EnqueueCall(states, events, i, m, x, canAlloc)
    ensures if states[m].prod.PReady?
            then states[m].q.enq == if states[m - 1].prod.PInner? then states[i].q.enq else states[i].q.enq + [x]
            else InEnqueue(states[m], states[i].q.enq, x)
    ensures states[m].prod.PReady? ==> i + 1 < m
    decreases m
  {
    hide B.IsRun, I.Inv, S.Safe, B.Books, B.Act, B.Enabled;
    var ring, off := Stepped(cfg, states, events, m - 1);
    if m == i + 1 {
      EnqueueBegins(states[i], x, canAlloc);
    } else {
      EnqueueProceeds(cfg, states, events, i, m - 1, x, canAlloc);
      EnqueueGoesOn(states[m - 1], events[m - 1], states[i].q.enq, x);
    }
  }

  /** In every run an enqueue that the inner queue refuses adds nothing; any other has put exactly its element
      at the end, and by then every element has been signalled. */
  lemma EnqueueReturns<T>(cfg: S.Config, states: seq<B.State<T>>, events: seq<B.Event<T>>, i: nat, j: nat,
                          x: T, canAlloc: bool)
    requires B.IsRun(cfg, states, events) && EnqueueCall(states, events, i, j, x, canAlloc) && states[j].prod.PReady?
    ensures i + 1 < j && states[j].m.signalled == |states[j].q.enq|
    ensures states[j].q.enq == if states[j - 1].prod.PInner? then states[i].q.enq else states[i].q.enq + [x]
  {
    EnqueueProceeds(cfg, states, events, i, j, x, canAlloc);
    var ring, off := B.RunKeeps(cfg, states, events, j);
    hide B.IsRun, I.Inv, M.Inv;
  }
}
