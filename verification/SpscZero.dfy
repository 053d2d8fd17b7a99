/** A queue constructed with `size` 0 has a first block of one slot and mask 0, in which a full block
    looks empty. The run below loses an element and then fails the consumer's assert. */
module SpscZero {
  import opened Options
  import opened Bits
  import opened Spsc
  import T = SpscTheorems

  ghost predicate Path<X>(start: State<X>, states: seq<State<X>>, events: seq<Event<X>>) {
    && |states| == |events| + 1 && states[0] == start
    && forall i {:trigger events[i]} :: 0 <= i < |events| ==> Next(states[i], events[i], states[i + 1])
  }

  ghost predicate Reachable<X(!new)>(start: State<X>, s: State<X>) {
    exists states: seq<State<X>>, events: seq<Event<X>> :: Path(start, states, events) && states[|events|] == s
  }

  /** The template parameter and the range of `size` that the constructor can serve, 0 included. */
  ghost predicate Buildable(cfg: Config) {
    cfg.maxBlock >= 2 && IsPow2(cfg.maxBlock) && cfg.size + 2 * cfg.maxBlock <= WORD / 2
  }

  ghost predicate AlwaysSafe(cfg: Config)
    requires Buildable(cfg)
  {
    forall s: State<int> :: Reachable(Init<int>(cfg), s) ==> Safe(s)
  }

  lemma Start<X(!new)>(s: State<X>)
    ensures Reachable(s, s)
  {
    var states, events: seq<Event<X>> := [s], [];
    assert Path(s, states, events) && states[|events|] == s;
  }

  lemma Go<X(!new)>(start: State<X>, s: State<X>, e: Event<X>) returns (s': State<X>)
    requires Reachable(start, s) && Enabled(s, e) && Safe(s)
    ensures s' == Observe(s, Act(s, e)) && Reachable(start, s')
  {
    hide Safe, Act, Observe;
    s' := Observe(s, Act(s, e));
    var states, events :| Path(start, states, events) && states[|events|] == s;
    var states', events' := states + [s'], events + [e];
    forall i | 0 <= i < |events'| ensures Next(states'[i], events'[i], states'[i + 1]) {
      if i < |events| {
        assert events'[i] == events[i] && states'[i] == states[i] && states'[i + 1] == states[i + 1];
      }
    }
    assert Path(start, states', events') && states'[|events'|] == s';
  }

  /** A producer step, seen in the fields it can change. */
  lemma Produce(start: State<int>, s: State<int>) returns (s': State<int>)
    requires Reachable(start, s) && s.prod.Active() && ProducerSafe(s) && !s.cons.Active()
    ensures Reachable(start, s') && s'.cons == s.cons && s'.cfg == s.cfg && s'.frontBlock == s.frontBlock
    ensures s'.prod == StepProducer(s).prod && s'.blocks == StepProducer(s).blocks
    ensures s'.tailBlock == StepProducer(s).tailBlock && s'.largest == StepProducer(s).largest
    ensures s'.enq == StepProducer(s).enq && s'.deq == s.deq
  {
    hide Reachable, StepProducer, ProducerSafe;
    ProducerKeeps(s);
    s' := Go(start, s, ProducerStep);
  }

  lemma ProducerKeeps<X>(s: State<X>)
    requires s.prod.Active() && ProducerSafe(s)
    ensures var s' := StepProducer(s);
            s'.cons == s.cons && s'.cfg == s.cfg && s'.frontBlock == s.frontBlock && s'.deq == s.deq
  {
  }

  /** A consumer step, seen in the fields it can change. */
  lemma Consume(start: State<int>, s: State<int>) returns (s': State<int>)
    requires Reachable(start, s) && s.cons.Active() && ConsumerSafe(s) && !s.prod.Active()
    ensures Reachable(start, s') && s'.prod == s.prod && s'.cfg == s.cfg && s'.tailBlock == s.tailBlock
    ensures s'.cons == StepConsumer(s).cons && s'.blocks == StepConsumer(s).blocks
    ensures s'.frontBlock == StepConsumer(s).frontBlock && s'.largest == s.largest
    ensures s'.enq == s.enq && s'.deq == StepConsumer(s).deq
  {
    hide Reachable, StepConsumer, ConsumerSafe;
    ConsumerKeeps(s);
    s' := Go(start, s, ConsumerStep);
  }

  lemma ConsumerKeeps<X>(s: State<X>)
    requires s.cons.Active() && ConsumerSafe(s)
    ensures var s' := StepConsumer(s);
            s'.prod == s.prod && s'.cfg == s.cfg && s'.tailBlock == s.tailBlock && s'.largest == s.largest && s'.enq == s.enq
  {
  }

  lemma SmallMasks()
    ensures And(1, 0) == 0 && And(2, 1) == 0 && And(1, 1) == 1
  {
  }

  /** A block of one slot. */
  function Single(x: Option<int>, next: nat): Block<int> {
    Block([x], 0, 0, 0, 0, next)
  }

  function Pair(x: Option<int>, y: Option<int>, front: nat, localTail: nat, tail: nat, localFront: nat): Block<int> {
    Block([x, y], front, localTail, tail, localFront, 0)
  }

  lemma InitialZero(cfg: Config)
    requires Buildable(cfg) && cfg.size == 0
    ensures Init<int>(cfg) == State(cfg, [Single(None, 0)], 0, 0, 1, PIdle, CIdle, [], [], 0, true, None)
  {
    CeilingOfOne();
    hide CeilToPow2, IsPow2;
    var b := InitialBlocks<int>(cfg);
    assert |b| == 1 && b[0] == MakeBlock(1, 0);
    assert MakeBlock<int>(1, 0).data == [None];
  }

  lemma CeilingOfOne()
    ensures CeilToPow2(1) == 1
  {
    CeilToPow2IsLeast(1);
    assert IsPow2(Pow2(0)) && Pow2(0) == 1;
    hide CeilToPow2, IsPow2;
  }

  /** The memory of the queue and what has gone through it; the observations do not matter here. */
  ghost predicate Shows(s: State<int>, blocks: seq<Block<int>>, frontBlock: nat, tailBlock: nat, largest: nat,
                        enq: seq<int>, deq: seq<int>) {
    && s.cfg.maxBlock >= 2 && s.blocks == blocks && s.frontBlock == frontBlock && s.tailBlock == tailBlock
    && s.largest == largest && s.enq == enq && s.deq == deq
  }

  /** 3 is in the queue, in a slot of a block whose indices say that it is empty. */
  ghost predicate Lost(s: State<int>) {
    && s.enq == [1, 2, 3] && s.deq == [1, 2]
    && |s.blocks| > 0 && s.blocks[0].data == [Some(3)] && s.blocks[0].front == s.blocks[0].tail
  }

  // ---- the run: enqueue 1, dequeue, enqueue 2, enqueue 3, dequeue, dequeue -------------

  /** `enqueue(1)` allocates a block of two slots. */
  lemma EnqueueFirst(start: State<int>, s: State<int>) returns (s': State<int>)
    requires Reachable(start, s) && Shows(s, [Single(None, 0)], 0, 0, 1, [], []) && s.prod == PIdle && s.cons == CIdle
    ensures Reachable(start, s') && !s'.prod.Active() && !s'.cons.Active()
    ensures Shows(s', [Single(None, 1), Pair(Some(1), None, 0, 1, 1, 0)], 0, 1, 2, [1], [])
  {
    hide Reachable, And, StepConsumer, StepProducer;
    var s1 := Go(start, s, CallEnqueue(1, true));
    var s2 := NoRoomFirst(start, s1);
    var s3 := FillFirst(start, s2);
    s' := LinkFirst(start, s3);
  }

  lemma NoRoomFirst(start: State<int>, s: State<int>) returns (s': State<int>)
    requires Reachable(start, s) && Shows(s, [Single(None, 0)], 0, 0, 1, [], []) && s.prod == LoadTailBlock(1, true)
    requires !s.cons.Active()
    ensures Reachable(start, s') && Shows(s', [Single(None, 0)], 0, 0, 1, [], []) && s'.prod == Allocate(1, 0)
    ensures !s'.cons.Active()
  {
    hide Reachable, And, StepConsumer;
    SmallMasks();
    var s1 := Produce(start, s);
    var s2 := Produce(start, s1);
    var s3 := Produce(start, s2);
    assert s3.prod == LoadNext(1, true, 0) && s3.blocks == s.blocks;
    s' := NoFreeFirst(start, s3);
  }

  lemma NoFreeFirst(start: State<int>, s: State<int>) returns (s': State<int>)
    requires Reachable(start, s) && Shows(s, [Single(None, 0)], 0, 0, 1, [], []) && s.prod == LoadNext(1, true, 0)
    requires !s.cons.Active()
    ensures Reachable(start, s') && Shows(s', [Single(None, 0)], 0, 0, 1, [], []) && s'.prod == Allocate(1, 0)
    ensures !s'.cons.Active()
  {
    hide Reachable, And, StepConsumer;
    var s1 := Produce(start, s);
    s' := Produce(start, s1);
  }

  lemma FillFirst(start: State<int>, s: State<int>) returns (s': State<int>)
    requires Reachable(start, s) && Shows(s, [Single(None, 0)], 0, 0, 1, [], []) && s.prod == Allocate(1, 0) && !s.cons.Active()
    ensures Reachable(start, s') && s'.prod == LinkNew(1, 0, 1) && !s'.cons.Active()
    ensures Shows(s', [Single(None, 0), Pair(Some(1), None, 0, 1, 1, 0)], 0, 0, 2, [], [])
  {
    hide Reachable, And, StepConsumer;
    var s1 := Produce(start, s);
    assert s1.blocks[1].data == [None, None];
    s' := Produce(start, s1);
    assert s'.blocks[1].data == [Some(1), None];
  }

  lemma LinkFirst(start: State<int>, s: State<int>) returns (s': State<int>)
    requires Reachable(start, s) && s.prod == LinkNew(1, 0, 1) && !s.cons.Active()
    requires Shows(s, [Single(None, 0), Pair(Some(1), None, 0, 1, 1, 0)], 0, 0, 2, [], [])
    ensures Reachable(start, s') && !s'.prod.Active() && !s'.cons.Active()
    ensures Shows(s', [Single(None, 1), Pair(Some(1), None, 0, 1, 1, 0)], 0, 1, 2, [1], [])
  {
    hide Reachable, And, StepConsumer;
    var s1 := Produce(start, s);
    var s2 := Produce(start, s1);
    s' := Produce(start, s2);
  }

  /** The consumer leaves the empty one-slot block behind and takes 1. */
  lemma DequeueFirst(start: State<int>, s: State<int>) returns (s': State<int>)
    requires Reachable(start, s) && !s.prod.Active() && !s.cons.Active()
    requires Shows(s, [Single(None, 1), Pair(Some(1), None, 0, 1, 1, 0)], 0, 1, 2, [1], [])
    ensures Reachable(start, s') && !s'.prod.Active() && !s'.cons.Active()
    ensures Shows(s', [Single(None, 1), Pair(None, None, 1, 1, 1, 0)], 1, 1, 2, [1], [1])
  {
    hide Reachable, And, StepProducer;
    var s1 := Go(start, s, CallConsumer(Dequeue));
    var s2 := Consume(start, s1);
    var s3 := Consume(start, s2);
    var s4 := Consume(start, s3);
    var s5 := Consume(start, s4);
    assert s5.cons == CReloadFrontBlock(Dequeue) && s5.blocks == s.blocks;
    var s6 := LeaveFirst(start, s5);
    s' := TakeFirst(start, s6);
  }

  lemma LeaveFirst(start: State<int>, s: State<int>) returns (s': State<int>)
    requires Reachable(start, s) && !s.prod.Active() && s.cons == CReloadFrontBlock(Dequeue)
    requires Shows(s, [Single(None, 1), Pair(Some(1), None, 0, 1, 1, 0)], 0, 1, 2, [1], [])
    ensures Reachable(start, s') && !s'.prod.Active() && s'.cons == CLoadNextTail(Dequeue, 1, 0)
    ensures Shows(s', [Single(None, 1), Pair(Some(1), None, 0, 1, 1, 0)], 0, 1, 2, [1], [])
  {
    hide Reachable, And, StepProducer;
    var s1 := Consume(start, s);
    var s2 := Consume(start, s1);
    assert s2.cons == CReloadFront(Dequeue, 0, 0) && s2.blocks == s.blocks;
    var s3 := Consume(start, s2);
    var s4 := Consume(start, s3);
    s' := Consume(start, s4);
  }

  lemma TakeFirst(start: State<int>, s: State<int>) returns (s': State<int>)
    requires Reachable(start, s) && !s.prod.Active() && s.cons == CLoadNextTail(Dequeue, 1, 0)
    requires Shows(s, [Single(None, 1), Pair(Some(1), None, 0, 1, 1, 0)], 0, 1, 2, [1], [])
    ensures Reachable(start, s') && !s'.prod.Active() && !s'.cons.Active()
    ensures Shows(s', [Single(None, 1), Pair(None, None, 1, 1, 1, 0)], 1, 1, 2, [1], [1])
  {
    hide Reachable, And, StepProducer;
    var s1 := Consume(start, s);
    var s2 := Consume(start, s1);
    assert s2.cons == CTake(Dequeue, 1, 0) && s2.blocks == s.blocks;
    s' := EmptyFirst(start, s2);
  }

  lemma EmptyFirst(start: State<int>, s: State<int>) returns (s': State<int>)
    requires Reachable(start, s) && !s.prod.Active() && s.cons == CTake(Dequeue, 1, 0)
    requires Shows(s, [Single(None, 1), Pair(Some(1), None, 0, 1, 1, 0)], 1, 1, 2, [1], [])
    ensures Reachable(start, s') && !s'.prod.Active() && !s'.cons.Active()
    ensures Shows(s', [Single(None, 1), Pair(None, None, 1, 1, 1, 0)], 1, 1, 2, [1], [1])
  {
    hide Reachable, And, StepProducer;
    SmallMasks();
    var s1 := Consume(start, s);
    s' := Consume(start, s1);
    assert s'.blocks[1].data == [None, None];
  }

  /** 2 fills the two-slot block. */
  lemma EnqueueSecond(start: State<int>, s: State<int>) returns (s': State<int>)
    requires Reachable(start, s) && !s.prod.Active() && !s.cons.Active()
    requires Shows(s, [Single(None, 1), Pair(None, None, 1, 1, 1, 0)], 1, 1, 2, [1], [1])
    ensures Reachable(start, s') && !s'.prod.Active() && !s'.cons.Active()
    ensures Shows(s', [Single(None, 1), Pair(None, Some(2), 1, 1, 0, 1)], 1, 1, 2, [1, 2], [1])
  {
    hide Reachable, And, StepConsumer;
    SmallMasks();
    var s1 := Go(start, s, CallEnqueue(2, true));
    var s2 := Produce(start, s1);
    var s3 := Produce(start, s2);
    assert s3.prod == LoadFront(2, true, 1, 1, 0) && s3.blocks == s.blocks;
    var s4 := Produce(start, s3);
    var s5 := Produce(start, s4);
    assert s5.blocks[1].data == [None, Some(2)];
    s' := Produce(start, s5);
  }

  /** 3 goes into the one-slot block, whose tail index stays where it was. */
  lemma EnqueueThird(start: State<int>, s: State<int>) returns (s': State<int>)
    requires Reachable(start, s) && !s.prod.Active() && !s.cons.Active()
    requires Shows(s, [Single(None, 1), Pair(None, Some(2), 1, 1, 0, 1)], 1, 1, 2, [1, 2], [1])
    ensures Reachable(start, s') && !s'.prod.Active() && !s'.cons.Active()
    ensures Shows(s', [Single(Some(3), 1), Pair(None, Some(2), 1, 1, 0, 1)], 1, 0, 2, [1, 2, 3], [1])
  {
    hide Reachable, And, StepConsumer;
    SmallMasks();
    var s1 := Go(start, s, CallEnqueue(3, true));
    var s2 := Produce(start, s1);
    var s3 := Produce(start, s2);
    assert s3.prod == LoadFront(3, true, 1, 0, 1) && s3.blocks == s.blocks;
    s' := MoveToSingle(start, s3);
  }

  lemma MoveToSingle(start: State<int>, s: State<int>) returns (s': State<int>)
    requires Reachable(start, s) && s.prod == LoadFront(3, true, 1, 0, 1) && !s.cons.Active()
    requires Shows(s, [Single(None, 1), Pair(None, Some(2), 1, 1, 0, 1)], 1, 1, 2, [1, 2], [1])
    ensures Reachable(start, s') && !s'.prod.Active() && !s'.cons.Active()
    ensures Shows(s', [Single(Some(3), 1), Pair(None, Some(2), 1, 1, 0, 1)], 1, 0, 2, [1, 2, 3], [1])
  {
    hide Reachable, StepConsumer;
    var s1 := Produce(start, s);
    assert s1.prod == LoadNext(3, true, 1) && s1.blocks == s.blocks;
    var s2 := Produce(start, s1);
    var s3 := Produce(start, s2);
    assert s3.prod == ReloadNext(3, 1) && s3.blocks == s.blocks;
    s' := FillSingle(start, s3);
  }

  lemma FillSingle(start: State<int>, s: State<int>) returns (s': State<int>)
    requires Reachable(start, s) && s.prod == ReloadNext(3, 1) && !s.cons.Active()
    requires Shows(s, [Single(None, 1), Pair(None, Some(2), 1, 1, 0, 1)], 1, 1, 2, [1, 2], [1])
    ensures Reachable(start, s') && !s'.prod.Active() && !s'.cons.Active()
    ensures Shows(s', [Single(Some(3), 1), Pair(None, Some(2), 1, 1, 0, 1)], 1, 0, 2, [1, 2, 3], [1])
  {
    hide Reachable, And, StepConsumer;
    SmallMasks();
    var s1 := Produce(start, s);
    var s2 := Produce(start, s1);
    var s3 := Produce(start, s2);
    assert s3.prod == ConstructNext(3, 0, 0) && s3.blocks == s.blocks;
    s' := PublishSingle(start, s3);
  }

  lemma PublishSingle(start: State<int>, s: State<int>) returns (s': State<int>)
    requires Reachable(start, s) && s.prod == ConstructNext(3, 0, 0) && !s.cons.Active()
    requires Shows(s, [Single(None, 1), Pair(None, Some(2), 1, 1, 0, 1)], 1, 1, 2, [1, 2], [1])
    ensures Reachable(start, s') && !s'.prod.Active() && !s'.cons.Active()
    ensures Shows(s', [Single(Some(3), 1), Pair(None, Some(2), 1, 1, 0, 1)], 1, 0, 2, [1, 2, 3], [1])
  {
    hide Reachable, And, StepConsumer;
    SmallMasks();
    var s1 := Produce(start, s);
    assert s1.blocks[0].data == [Some(3)];
    var s2 := Produce(start, s1);
    s' := Produce(start, s2);
  }

  /** 2 comes out. */
  lemma DequeueSecond(start: State<int>, s: State<int>) returns (s': State<int>)
    requires Reachable(start, s) && !s.prod.Active() && !s.cons.Active()
    requires Shows(s, [Single(Some(3), 1), Pair(None, Some(2), 1, 1, 0, 1)], 1, 0, 2, [1, 2, 3], [1])
    ensures Reachable(start, s') && !s'.prod.Active() && !s'.cons.Active()
    ensures Shows(s', [Single(Some(3), 1), Pair(None, None, 0, 0, 0, 1)], 1, 0, 2, [1, 2, 3], [1, 2])
  {
    hide Reachable, And, StepProducer;
    SmallMasks();
    var s1 := Go(start, s, CallConsumer(Dequeue));
    var s2 := Consume(start, s1);
    var s3 := Consume(start, s2);
    var s4 := Consume(start, s3);
    assert s4.cons == CTake(Dequeue, 1, 1);
    assert s4.blocks == [Single(Some(3), 1), Pair(None, Some(2), 1, 0, 0, 1)];
    s' := TakeSecond(start, s4);
  }

  lemma TakeSecond(start: State<int>, s: State<int>) returns (s': State<int>)
    requires Reachable(start, s) && !s.prod.Active() && s.cons == CTake(Dequeue, 1, 1)
    requires Shows(s, [Single(Some(3), 1), Pair(None, Some(2), 1, 0, 0, 1)], 1, 0, 2, [1, 2, 3], [1])
    ensures Reachable(start, s') && !s'.prod.Active() && !s'.cons.Active()
    ensures Shows(s', [Single(Some(3), 1), Pair(None, None, 0, 0, 0, 1)], 1, 0, 2, [1, 2, 3], [1, 2])
  {
    hide Reachable, And, StepProducer;
    SmallMasks();
    var s1 := Consume(start, s);
    s' := Consume(start, s1);
    assert s'.blocks[1].data == [None, None];
  }

  /** The consumer moves on to the one-slot block, which holds 3 but looks empty. */
  lemma LookInSingle(start: State<int>, s: State<int>) returns (s': State<int>)
    requires Reachable(start, s) && !s.prod.Active() && !s.cons.Active()
    requires Shows(s, [Single(Some(3), 1), Pair(None, None, 0, 0, 0, 1)], 1, 0, 2, [1, 2, 3], [1, 2])
    ensures Reachable(start, s') && !Safe(s') && Lost(s')
  {
    hide Reachable, And, StepProducer;
    var s1 := Go(start, s, CallConsumer(Dequeue));
    var s2 := Consume(start, s1);
    var s3 := Consume(start, s2);
    var s4 := Consume(start, s3);
    var s5 := Consume(start, s4);
    assert s5.cons == CReloadFrontBlock(Dequeue) && s5.blocks == s.blocks;
    s' := FailInSingle(start, s5);
  }

  lemma FailInSingle(start: State<int>, s: State<int>) returns (s': State<int>)
    requires Reachable(start, s) && !s.prod.Active() && s.cons == CReloadFrontBlock(Dequeue)
    requires Shows(s, [Single(Some(3), 1), Pair(None, None, 0, 0, 0, 1)], 1, 0, 2, [1, 2, 3], [1, 2])
    ensures Reachable(start, s') && !Safe(s') && Lost(s')
  {
    hide Reachable, And, StepProducer;
    var s1 := Consume(start, s);
    var s2 := Consume(start, s1);
    var s3 := Consume(start, s2);
    assert s3.cons == CLoadNext(Dequeue, 1) && s3.blocks == s.blocks;
    s' := LookAtLost(start, s3);
  }

  lemma LookAtLost(start: State<int>, s: State<int>) returns (s': State<int>)
    requires Reachable(start, s) && !s.prod.Active() && s.cons == CLoadNext(Dequeue, 1)
    requires Shows(s, [Single(Some(3), 1), Pair(None, None, 0, 0, 0, 1)], 1, 0, 2, [1, 2, 3], [1, 2])
    ensures Reachable(start, s') && !Safe(s') && Lost(s')
  {
    hide Reachable, StepProducer;
    var s1 := Consume(start, s);
    s' := Consume(start, s1);
  }

  /** With size 0 there is a run at the end of which 3 has been enqueued and only 1 and 2 removed, 3 sits in
      a block that looks empty, and the consumer's assert fails. */
  lemma ZeroSizeFails(cfg: Config) returns (s: State<int>)
    requires Buildable(cfg) && cfg.size == 0
    ensures Reachable(Init<int>(cfg), s) && !Safe(s) && Lost(s)
  {
    InitialZero(cfg);
    var start := Init<int>(cfg);
    hide Reachable, Safe, Init, Lost;
    Start(start);
    var s1 := EnqueueFirst(start, start);
    var s2 := DequeueFirst(start, s1);
    var s3 := EnqueueSecond(start, s2);
    var s4 := EnqueueThird(start, s3);
    var s5 := DequeueSecond(start, s4);
    s := LookInSingle(start, s5);
  }

  /** Every run of the queue is safe exactly when it was constructed with a size of at least 1. */
  lemma SafeExactlyWhenSized(cfg: Config)
    requires Buildable(cfg)
    ensures AlwaysSafe(cfg) <==> cfg.size >= 1
  {
    if cfg.size == 0 {
      var s := ZeroSizeFails(cfg);
    } else {
      forall s: State<int> | Reachable(Init<int>(cfg), s) ensures Safe(s) {
        var states, events :| Path(Init<int>(cfg), states, events) && states[|events|] == s;
        assert T.IsRun(cfg, states, events);
        T.NeverFails(cfg, states, events, |events|);
      }
    }
  }
}
