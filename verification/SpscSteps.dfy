/** Every step of the producer preserves the queue's invariant. */
module SpscSteps {
  import opened Options
  import opened Bits
  import opened Spsc
  import opened SpscInvariant

  // ---- frames --------------------------------------------------------------

  /** What the consumer knows, and what a peeked pointer denotes, survive any step of the producer:
      it does not touch the front block's `front`, nor its `tail` once it has moved on. */
  lemma ConsumerFrame<T>(s: State<T>, s': State<T>, ring: seq<nat>, off: seq<nat>, ring': seq<nat>, off': seq<nat>)
    requires Ring(s, ring, off) && Ring(s', ring', off') && ConsumerInv(s, ring, off) && PeekInv(s, ring, off)
    requires s'.cons == s.cons && s'.peeked == s.peeked && s'.frontBlock == s.frontBlock && s'.deq == s.deq
    requires s.enq <= s'.enq && (s.sawEmpty ==> s'.sawEmpty)
    requires |off'| >= |off|
    requires var fb, fb' := s.blocks[ring[0]], s'.blocks[ring[0]];
             fb'.front == fb.front && fb'.localTail == fb.localTail && Count(fb') >= Count(fb)
             && (|off| > 2 ==> fb'.tail == fb.tail && Count(fb') == Count(fb))
    requires |off| > 2 ==> ring'[1] == ring[1] && s'.blocks[ring[1]].front == s.blocks[ring[1]].front
                           && s'.blocks[ring[1]].localTail == s.blocks[ring[1]].localTail
    ensures ConsumerInv(s', ring', off') && PeekInv(s', ring', off')
  {
    hide BlockOk, Count;
  }

  /** What the producer knows survives any step of the consumer. */
  lemma ProducerFrame<T>(s: State<T>, s': State<T>, ring: seq<nat>, off: seq<nat>, ring': seq<nat>, off': seq<nat>)
    requires Ring(s, ring, off) && Ring(s', ring', off') && ProducerInv(s, ring, off)
    requires s'.prod == s.prod && s'.tailBlock == s.tailBlock && s'.cfg == s.cfg && s'.peak >= s.peak
    requires |s'.blocks| == |s.blocks| && |ring'| == |ring| && |off'| <= |off|
    requires ring'[Succ(|off'| - 2, |ring|)] == ring[Succ(|off| - 2, |ring|)]
    requires |off| - 1 < |ring| ==> ring'[|off'| - 1] == ring[|off| - 1]
    requires var tb, tb' := s.blocks[s.tailBlock], s'.blocks[s.tailBlock];
             tb'.tail == tb.tail && tb'.localFront == tb.localFront && |tb'.data| == |tb.data|
             && Count(tb') <= Count(tb) && (|off'| > 2 ==> Count(tb') == Count(tb))
    requires |off| - 1 < |ring| ==>
               var nb, nb' := s.blocks[ring[|off| - 1]], s'.blocks[ring[|off| - 1]];
               nb'.front == nb.front && nb'.tail == nb.tail && nb'.localFront == nb.localFront
    requires (forall j :: 0 <= j < |ring| ==> ring[j] != |s.blocks| - 1) ==>
               s'.blocks[|s.blocks| - 1] == s.blocks[|s.blocks| - 1]
               && (forall j :: 0 <= j < |ring'| ==> ring'[j] != |s.blocks| - 1)
    ensures ProducerInv(s', ring', off')
  {
    hide BlockOk, Count;
  }

  /** The two states have the same blocks with the same indices, linked and pointed to alike. */
  ghost predicate SameIndices<T>(s: State<T>, s': State<T>) {
    && s'.cfg == s.cfg && s'.frontBlock == s.frontBlock && s'.tailBlock == s.tailBlock
    && s'.largest == s.largest && s'.enq == s.enq && s'.deq == s.deq
    && |s'.blocks| == |s.blocks|
    && (forall b :: 0 <= b < |s.blocks| ==>
          BlockOk(s'.blocks[b])
          && |s'.blocks[b].data| == |s.blocks[b].data| && s'.blocks[b].front == s.blocks[b].front
          && s'.blocks[b].tail == s.blocks[b].tail && s'.blocks[b].next == s.blocks[b].next)
    && s'.prod.Publish? == s.prod.Publish? && (s.prod.Publish? ==> s'.prod.nx == s.prod.nx)
  }

  lemma SameIndicesKeeps<T>(s: State<T>, s': State<T>, ring: seq<nat>, off: seq<nat>)
    requires Ring(s, ring, off) && Linked(s, ring) && Offsets(s, ring, off) && Capacity(s, ring)
    requires SameIndices(s, s')
    ensures Ring(s', ring, off) && Linked(s', ring) && Offsets(s', ring, off) && Capacity(s', ring)
  {
    hide Offsets;
    assert Ring(s', ring, off);
    SameIndicesOffsets(s, s', ring, off);
    SameSizesKeepCapacity(s, s', ring);
  }

  lemma SameIndicesOffsets<T>(s: State<T>, s': State<T>, ring: seq<nat>, off: seq<nat>)
    requires Ring(s, ring, off) && Offsets(s, ring, off) && SameIndices(s, s') && Ring(s', ring, off)
    ensures Offsets(s', ring, off)
  {
    hide BlockOk;
    assert forall j {:trigger s'.blocks[ring[j]]} :: 0 <= j < |ring| ==>
        Count(s'.blocks[ring[j]]) == Count(s.blocks[ring[j]])
        && Full(s'.blocks[ring[j]]) == Full(s.blocks[ring[j]]);
    hide Count, Full;
  }

  lemma SameSizesKeepCapacity<T>(s: State<T>, s': State<T>, ring: seq<nat>)
    requires Capacity(s, ring) && s'.cfg == s.cfg && s'.largest == s.largest && |s'.blocks| == |s.blocks|
    requires forall b :: 0 <= b < |s.blocks| ==> |s'.blocks[b].data| == |s.blocks[b].data|
    ensures Capacity(s', ring)
  {
  }

  /** Moreover every slot is as it was, and in the same thread's hands. */
  ghost predicate SameSlots<T>(s: State<T>, s': State<T>)
    requires |s'.blocks| == |s.blocks|
  {
    && (forall b :: 0 <= b < |s.blocks| ==> s'.blocks[b].data == s.blocks[b].data)
    && PendingOf(s'.prod) == PendingOf(s.prod)
    && s'.cons.CStoreFront? == s.cons.CStoreFront?
    && (s.cons.CStoreFront? ==> s'.cons == s.cons)
  }

  lemma SameSlotsKeeps<T>(s: State<T>, s': State<T>, ring: seq<nat>, off: seq<nat>)
    requires SameIndices(s, s') && SameSlots(s, s')
    requires Ring(s, ring, off) && Slots(s, ring, off) && Ring(s', ring, off)
    ensures Slots(s', ring, off)
  {
    hide BlockOk;
    forall j, i | 0 <= j < |ring| && 0 <= i < |s'.blocks[ring[j]].data|
      ensures s'.blocks[ring[j]].data[i]
              == Expected(s', ring[j], i, j < |off| - 1, if j < |off| then off[j] else 0)
    {
      assert s.blocks[ring[j]].data[i]
             == Expected(s, ring[j], i, j < |off| - 1, if j < |off| then off[j] else 0);
    }
  }

  lemma OffsetsBounded<T>(s: State<T>, ring: seq<nat>, off: seq<nat>)
    requires Ring(s, ring, off) && Offsets(s, ring, off)
    ensures forall j :: 0 <= j < |off| ==> off[j] <= |s.enq|
    ensures Held(s) >= 0
  {
    forall j | 0 <= j < |off| ensures off[j] <= |s.enq| {
      OffsetsGrow(s, ring, off, j, |off| - 1);
    }
  }

  // ---- arithmetic on one block ---------------------------------------------

  /** The producer's shadow test is sound: if the slot after `tail` is not at the (possibly stale)
      copy of `front`, the block really has room. */
  lemma ShadowFrontShowsRoom<T>(blk: Block<T>)
    requires BlockOk(blk) && Succ(blk.tail, |blk.data|) != blk.localFront
    ensures Count(blk) < Full(blk)
  {
  }

  /** The consumer's shadow test is sound: if `front` is not at the (possibly stale) copy of
      `tail`, the block really has an element. */
  lemma ShadowTailShowsElement<T>(blk: Block<T>)
    requires BlockOk(blk) && blk.front != blk.localTail
    ensures Count(blk) >= 1
  {
  }

  /** Advancing `tail` over a constructed slot keeps the block's indices in order. */
  lemma AdvanceTail<T>(blk: Block<T>)
    requires BlockOk(blk) && Count(blk) < Full(blk) && Succ(blk.tail, |blk.data|) != blk.localFront
    ensures var blk' := blk.(tail := Succ(blk.tail, |blk.data|));
            BlockOk(blk') && Count(blk') == Count(blk) + 1
            && forall i :: 0 <= i < |blk.data| ==>
                 (Dist(|blk.data|, blk.front, i) < Count(blk')
                  <==> Dist(|blk.data|, blk.front, i) < Count(blk) || i == blk.tail)
    ensures Dist(|blk.data|, blk.front, blk.tail) == Count(blk)
  {
  }

  /** Advancing `front` over an emptied slot keeps the block's indices in order. */
  lemma AdvanceFront<T>(blk: Block<T>)
    requires BlockOk(blk) && blk.front != blk.localTail
    ensures var blk' := blk.(front := Succ(blk.front, |blk.data|));
            BlockOk(blk') && Count(blk') == Count(blk) - 1
            && forall i :: 0 <= i < |blk.data| && i != blk.front ==>
                 Dist(|blk.data|, blk'.front, i) == Dist(|blk.data|, blk.front, i) - 1
    ensures Count(blk) >= 1
    ensures Dist(|blk.data|, Succ(blk.front, |blk.data|), blk.front) == |blk.data| - 1
  {
  }

  // ---- producer: loads ------------------------------------------------------

  /** A producer step that leaves the queue as it is; what remains is the producer's own knowledge. */
  lemma ProducerLoad<T>(s: State<T>, s': State<T>, ring: seq<nat>, off: seq<nat>)
    requires Inv(s, ring, off) && SameIndices(s, s') && SameSlots(s, s')
    requires s'.cons == s.cons && s'.peeked == s.peeked && (s.sawEmpty ==> s'.sawEmpty)
    requires forall b :: 0 <= b < |s.blocks| ==> s'.blocks[b].localTail == s.blocks[b].localTail
    requires Ring(s', ring, off) ==> ProducerInv(s', ring, off)
    ensures Inv(s', ring, off)
  {
    hide Ring, Linked, Offsets, Slots, Capacity, ProducerInv, ConsumerInv, PeekInv, SameSlots;
    SameIndicesKeeps(s, s', ring, off);
    SameSlotsKeeps(s, s', ring, off);
    ProducerLoadConsumer(s, s', ring, off);
  }

  lemma ProducerLoadConsumer<T>(s: State<T>, s': State<T>, ring: seq<nat>, off: seq<nat>)
    requires Ring(s, ring, off) && Ring(s', ring, off) && ConsumerInv(s, ring, off) && PeekInv(s, ring, off)
    requires SameIndices(s, s') && s'.cons == s.cons && s'.peeked == s.peeked && (s.sawEmpty ==> s'.sawEmpty)
    requires forall b :: 0 <= b < |s.blocks| ==> s'.blocks[b].localTail == s.blocks[b].localTail
    ensures ConsumerInv(s', ring, off) && PeekInv(s', ring, off)
  {
    hide ConsumerInv, PeekInv, BlockOk;
    assert Count(s'.blocks[ring[0]]) == Count(s.blocks[ring[0]]);
    ConsumerFrame(s, s', ring, off, ring, off);
  }

  lemma CallEnqueueKeeps<T>(s: State<T>, x: T, alloc: bool, ring: seq<nat>, off: seq<nat>)
    requires Inv(s, ring, off) && !s.prod.Active()
    ensures Inv(Observe(s, s.(prod := LoadTailBlock(x, alloc))), ring, off)
  {
    hide Linked, Offsets, Slots, Capacity, PeekInv, ConsumerInv;
    ProducerLoad(s, Observe(s, s.(prod := LoadTailBlock(x, alloc))), ring, off);
  }

  lemma LoadTailBlockKeeps<T>(s: State<T>, ring: seq<nat>, off: seq<nat>)
    requires Inv(s, ring, off) && s.prod.LoadTailBlock? && ProducerSafe(s)
    ensures Inv(Observe(s, StepProducer(s)), ring, off)
  {
    hide Linked, Offsets, Slots, Capacity, PeekInv, ConsumerInv;
    ProducerLoad(s, Observe(s, StepProducer(s)), ring, off);
  }

  lemma LoadTailKeeps<T>(s: State<T>, ring: seq<nat>, off: seq<nat>)
    requires Inv(s, ring, off) && s.prod.LoadTail? && ProducerSafe(s)
    ensures Inv(Observe(s, StepProducer(s)), ring, off)
  {
    hide Linked, Offsets, Slots, Capacity, PeekInv, ConsumerInv;
    assert BlockOk(s.blocks[s.tailBlock]);
    SlotAfterTail(s.blocks[s.tailBlock]);
    hide And, Dist, BlockOk, Count;
    ProducerLoad(s, Observe(s, StepProducer(s)), ring, off);
  }

  lemma SlotAfterTail<T>(tb: Block<T>)
    requires BlockOk(tb)
    ensures |tb.data| > 0 && And(tb.tail + 1, |tb.data| - 1) == Succ(tb.tail, |tb.data|)
    ensures Succ(tb.tail, |tb.data|) != tb.localFront ==> Count(tb) < Full(tb)
  {
    MaskedSuccessor(tb.tail, |tb.data|);
    if Succ(tb.tail, |tb.data|) != tb.localFront {
      ShadowFrontShowsRoom(tb);
    }
  }

  lemma HeldAtLeastTailBlock<T>(s: State<T>, ring: seq<nat>, off: seq<nat>)
    requires Ring(s, ring, off) && Offsets(s, ring, off)
    ensures Held(s) >= Count(s.blocks[s.tailBlock])
  {
    hide BlockOk, Count;
    OffsetsGrow(s, ring, off, 0, |off| - 2);
    assert off[|off| - 1] == off[|off| - 2] + Count(s.blocks[ring[|off| - 2]]);
  }

  lemma LoadFrontKeeps<T>(s: State<T>, ring: seq<nat>, off: seq<nat>)
    requires Inv(s, ring, off) && s.prod.LoadFront? && ProducerSafe(s)
    ensures Inv(Observe(s, StepProducer(s)), ring, off)
  {
    hide Linked, Offsets, Slots, Capacity, PeekInv, ConsumerInv;
    var s' := Observe(s, StepProducer(s));
    assert BlockOk(s.blocks[s.tailBlock]);
    assert BlockOk(s'.blocks[s.tailBlock]);
    HeldAtLeastTailBlock(s, ring, off);
    ProducerLoad(s, s', ring, off);
  }

  lemma LoadNextKeeps<T>(s: State<T>, ring: seq<nat>, off: seq<nat>)
    requires Inv(s, ring, off) && s.prod.LoadNext? && ProducerSafe(s)
    ensures Inv(Observe(s, StepProducer(s)), ring, off)
  {
    assert s.blocks[ring[|off| - 2]].next == ring[Succ(|off| - 2, |ring|)];
    hide Linked, Offsets, Slots, Capacity, PeekInv, ConsumerInv;
    ProducerLoad(s, Observe(s, StepProducer(s)), ring, off);
  }

  lemma ReloadNextKeeps<T>(s: State<T>, ring: seq<nat>, off: seq<nat>)
    requires Inv(s, ring, off) && s.prod.ReloadNext? && ProducerSafe(s)
    ensures Inv(Observe(s, StepProducer(s)), ring, off)
  {
    assert s.blocks[ring[|off| - 2]].next == ring[Succ(|off| - 2, |ring|)];
    hide Linked, Offsets, Slots, Capacity, PeekInv, ConsumerInv;
    ProducerLoad(s, Observe(s, StepProducer(s)), ring, off);
  }

  lemma LoadNextFrontKeeps<T>(s: State<T>, ring: seq<nat>, off: seq<nat>)
    requires Inv(s, ring, off) && s.prod.LoadNextFront? && ProducerSafe(s)
    ensures Inv(Observe(s, StepProducer(s)), ring, off)
  {
    hide Linked, Offsets, Slots, Capacity, PeekInv, ConsumerInv;
    var s' := Observe(s, StepProducer(s));
    assert BlockOk(s'.blocks[s.prod.nx]);
    ProducerLoad(s, s', ring, off);
  }

  lemma LoadNextTailKeeps<T>(s: State<T>, ring: seq<nat>, off: seq<nat>)
    requires Inv(s, ring, off) && s.prod.LoadNextTail? && ProducerSafe(s)
    ensures Inv(Observe(s, StepProducer(s)), ring, off)
  {
    hide Linked, Offsets, Slots, Capacity, PeekInv, ConsumerInv;
    var s' := Observe(s, StepProducer(s));
    assert BlockOk(s'.blocks[s.prod.nx]);
    ProducerLoad(s, s', ring, off);
  }

  // ---- producer: the capacity argument --------------------------------------

  /** The elements in the first `j` blocks after the front block, when all of those are full. */
  lemma {:induction false} FullBlocksHold<T>(s: State<T>, ring: seq<nat>, off: seq<nat>, j: nat, m: nat)
    requires Ring(s, ring, off) && 1 <= j < |off|
    requires forall i {:trigger s.blocks[ring[i]]} :: 0 <= i < |off| - 1 ==>
               off[i + 1] == off[i] + Count(s.blocks[ring[i]])
    requires forall i {:trigger s.blocks[ring[i]]} :: 1 <= i < |off| - 1 ==> Count(s.blocks[ring[i]]) >= m
    ensures off[j] - off[1] >= (j - 1) * m
  {
    hide Count, BlockOk;
    if j > 1 {
      FullBlocksHold(s, ring, off, j - 1, m);
      assert off[j] == off[j - 1] + Count(s.blocks[ring[j - 1]]);
      assert (j - 1) * m == (j - 2) * m + m;
    }
  }

  /** When the tail block was full and is followed by the front block, the queue held `size` elements. */
  lemma NoRoomMeansFull<T>(s: State<T>, ring: seq<nat>, off: seq<nat>)
    requires Ring(s, ring, off) && Offsets(s, ring, off) && Capacity(s, ring)
    requires |off| - 1 == |ring| && s.peak >= Full(s.blocks[s.tailBlock])
    requires |off| > 2 ==> Count(s.blocks[s.tailBlock]) == Full(s.blocks[s.tailBlock])
    ensures s.peak >= s.cfg.size || Held(s) >= s.cfg.size
  {
    var last := |off| - 2;
    if forall b :: 0 <= b < |s.blocks| ==> Full(s.blocks[b]) >= s.cfg.size {
      assert Full(s.blocks[s.tailBlock]) >= s.cfg.size;
    } else {
      var m := s.cfg.maxBlock - 1;
      assert (|ring| - 1) * m >= s.cfg.size;
      forall i {:trigger s.blocks[ring[i]]} | 1 <= i < |off| - 1
        ensures Count(s.blocks[ring[i]]) >= m
      {
        assert Count(s.blocks[ring[i]]) == Full(s.blocks[ring[i]]);
      }
      FullBlocksHold(s, ring, off, |off| - 1, m);
      OffsetsGrow(s, ring, off, 0, 1);
    }
  }

  /** The block after the tail block is the front block exactly when the ring is used up. */
  lemma NextIsFront<T>(s: State<T>, ring: seq<nat>, off: seq<nat>)
    requires Ring(s, ring, off) && ProducerInv(s, ring, off) && s.prod.CheckFrontBlock?
    ensures s.prod.nx == s.frontBlock <==> |off| - 1 == |ring|
  {
    hide BlockOk, Count;
  }

  lemma CheckFrontBlockKeeps<T>(s: State<T>, ring: seq<nat>, off: seq<nat>)
    requires Inv(s, ring, off) && s.prod.CheckFrontBlock? && ProducerSafe(s)
    ensures Inv(Observe(s, StepProducer(s)), ring, off)
  {
    hide Linked, Offsets, Slots, Capacity, PeekInv, ConsumerInv, BlockOk, Count;
    NextIsFront(s, ring, off);
    if s.prod.nx == s.frontBlock {
      NoRoomMeansFull(s, ring, off);
    }
    ProducerLoad(s, Observe(s, StepProducer(s)), ring, off);
  }

  lemma AllocationFailsKeeps<T>(s: State<T>, ring: seq<nat>, off: seq<nat>)
    requires Inv(s, ring, off) && s.prod.Allocate?
    ensures Inv(Observe(s, s.(prod := PDone(false))), ring, off)
  {
    hide Linked, Offsets, Slots, Capacity, PeekInv, ConsumerInv;
    ProducerLoad(s, Observe(s, s.(prod := PDone(false))), ring, off);
  }

  // ---- producer: constructing a slot ------------------------------------------

  /** `s'` is `s` with `x` constructed in slot `t` of block `b`, in the producer's hands. */
  ghost predicate Constructs<T>(s: State<T>, s': State<T>, b: nat, t: nat, x: T) {
    && b < |s.blocks| && t < |s.blocks[b].data| && s'.enq == s.enq
    && s'.blocks == s.blocks[b := s.blocks[b].(data := s.blocks[b].data[t := Some(x)])]
    && s'.cons == s.cons && PendingOf(s.prod) == NoPending && PendingOf(s'.prod) == Pending(b, t, x)
    && !IsTaken(s.cons, b, t)
  }

  lemma ConstructSlots<T>(s: State<T>, s': State<T>, ring: seq<nat>, off: seq<nat>, b: nat, t: nat, x: T)
    requires Constructs(s, s', b, t, x)
    requires Ring(s, ring, off) && Slots(s, ring, off) && Ring(s', ring, off)
    ensures Slots(s', ring, off)
  {
    hide BlockOk;
    forall j, i | 0 <= j < |ring| && 0 <= i < |s'.blocks[ring[j]].data|
      ensures s'.blocks[ring[j]].data[i]
              == Expected(s', ring[j], i, j < |off| - 1, if j < |off| then off[j] else 0)
    {
      assert s.blocks[ring[j]].data[i]
             == Expected(s, ring[j], i, j < |off| - 1, if j < |off| then off[j] else 0);
    }
  }

  lemma ConstructsKeeps<T>(s: State<T>, s': State<T>, ring: seq<nat>, off: seq<nat>, b: nat, t: nat, x: T)
    requires Inv(s, ring, off) && Constructs(s, s', b, t, x) && SameIndices(s, s')
    requires s'.peeked == s.peeked && (s.sawEmpty ==> s'.sawEmpty)
    requires Ring(s', ring, off) ==> ProducerInv(s', ring, off)
    ensures Inv(s', ring, off)
  {
    hide Ring, Linked, Offsets, Slots, Capacity, ProducerInv, ConsumerInv, PeekInv;
    SameIndicesKeeps(s, s', ring, off);
    ConstructSlots(s, s', ring, off, b, t, x);
    ProducerLoadConsumer(s, s', ring, off);
  }

  lemma ConstructKeeps<T>(s: State<T>, ring: seq<nat>, off: seq<nat>)
    requires Inv(s, ring, off) && s.prod.Construct? && ProducerSafe(s)
    ensures Inv(Observe(s, StepProducer(s)), ring, off)
  {
    hide Linked, Offsets, Slots, Capacity, PeekInv;
    var s' := Observe(s, StepProducer(s));
    var p := s.prod;
    assert BlockOk(s.blocks[p.b]);
    assert !IsTaken(s.cons, p.b, p.t);
    hide ConsumerInv;
    assert BlockOk(s'.blocks[p.b]);
    ConstructsKeeps(s, s', ring, off, p.b, p.t, p.x);
  }

  lemma ConstructNextKeeps<T>(s: State<T>, ring: seq<nat>, off: seq<nat>)
    requires Inv(s, ring, off) && s.prod.ConstructNext? && ProducerSafe(s)
    ensures Inv(Observe(s, StepProducer(s)), ring, off)
  {
    hide Linked, Offsets, Slots, Capacity, PeekInv;
    var s' := Observe(s, StepProducer(s));
    var p := s.prod;
    assert BlockOk(s.blocks[p.nx]);
    assert ring[0] != ring[|off| - 1];
    assert !IsTaken(s.cons, p.nx, p.t);
    hide ConsumerInv;
    assert BlockOk(s'.blocks[p.nx]);
    ConstructsKeeps(s, s', ring, off, p.nx, p.t, p.x);
  }

  // ---- producer: advancing `tail` in the tail block ---------------------------

  /** `s'` is `s` after the element constructed at the tail block's `tail` has been counted. */
  ghost predicate StoresTail<T>(s: State<T>, s': State<T>, n: nat, x: T) {
    && s.tailBlock < |s.blocks| && s'.tailBlock == s.tailBlock && s'.frontBlock == s.frontBlock
    && s'.blocks == s.blocks[s.tailBlock := s.blocks[s.tailBlock].(tail := n)]
    && s'.enq == s.enq + [x] && s'.deq == s.deq && s'.cons == s.cons
    && PendingOf(s.prod) == Pending(s.tailBlock, s.blocks[s.tailBlock].tail, x)
    && PendingOf(s'.prod) == NoPending && !s.prod.Publish? && !s'.prod.Publish?
    && var tb := s.blocks[s.tailBlock];
       BlockOk(tb) && n == Succ(tb.tail, |tb.data|) && n != tb.localFront && Count(tb) < Full(tb)
  }

  lemma StoreTailRing<T>(s: State<T>, s': State<T>, n: nat, x: T, ring: seq<nat>, off: seq<nat>, off': seq<nat>)
    requires Ring(s, ring, off) && Linked(s, ring) && StoresTail(s, s', n, x) && |off'| == |off|
    ensures Ring(s', ring, off') && Linked(s', ring)
  {
    AdvanceTail(s.blocks[s.tailBlock]);
    hide BlockOk;
  }

  lemma StoreTailOffsets<T>(s: State<T>, s': State<T>, n: nat, x: T, ring: seq<nat>, off: seq<nat>, off': seq<nat>)
    requires Ring(s, ring, off) && Offsets(s, ring, off) && StoresTail(s, s', n, x)
    requires off' == off[|off| - 1 := |s.enq| + 1] && Ring(s', ring, off')
    ensures Offsets(s', ring, off')
  {
    hide BlockOk, Dist, Count;
    AdvanceTail(s.blocks[s.tailBlock]);
    var last := |off| - 2;
    assert Count(s'.blocks[ring[last]]) == Count(s.blocks[ring[last]]) + 1;
    assert forall j {:trigger s'.blocks[ring[j]]} :: 0 <= j < |ring| && j != last ==>
        s'.blocks[ring[j]] == s.blocks[ring[j]];
    assert forall j :: 0 <= j <= last ==> off'[j] == off[j];
    forall j {:trigger s'.blocks[ring[j]]} | 0 <= j < |off'| - 1
      ensures off'[j + 1] == off'[j] + Count(s'.blocks[ring[j]])
    {
      assert off[j + 1] == off[j] + Count(s.blocks[ring[j]]);
    }
    hide Ring, StoresTail;
  }

  lemma StoreTailSlot<T>(s: State<T>, s': State<T>, n: nat, x: T, i: nat, base: nat)
    requires StoresTail(s, s', n, x) && i < |s.blocks[s.tailBlock].data|
    requires !IsTaken(s.cons, s.tailBlock, s.blocks[s.tailBlock].tail)
    requires s.blocks[s.tailBlock].data[i] == Expected(s, s.tailBlock, i, true, base)
    requires base + Count(s.blocks[s.tailBlock]) == |s.enq|
    ensures s'.blocks[s.tailBlock].data[i] == Expected(s', s.tailBlock, i, true, base)
  {
    var blk := s.blocks[s.tailBlock];
    AdvanceTail(blk);
    assert s'.blocks[s.tailBlock] == blk.(tail := n);
    if i == blk.tail {
      assert s'.enq[|s.enq|] == x;
    }
  }

  lemma StoreTailSlots<T>(s: State<T>, s': State<T>, n: nat, x: T, ring: seq<nat>, off: seq<nat>, off': seq<nat>)
    requires Ring(s, ring, off) && Offsets(s, ring, off) && Slots(s, ring, off) && StoresTail(s, s', n, x)
    requires off' == off[|off| - 1 := |s.enq| + 1] && Ring(s', ring, off')
    requires !IsTaken(s.cons, s.tailBlock, s.blocks[s.tailBlock].tail)
    ensures Slots(s', ring, off')
  {
    var last := |off| - 2;
    OffsetsBounded(s, ring, off);
    assert off[last + 1] == off[last] + Count(s.blocks[ring[last]]);
    forall j, i | 0 <= j < |ring| && 0 <= i < |s'.blocks[ring[j]].data|
      ensures s'.blocks[ring[j]].data[i]
              == Expected(s', ring[j], i, j < |off'| - 1, if j < |off'| then off'[j] else 0)
    {
      assert s.blocks[ring[j]].data[i]
             == Expected(s, ring[j], i, j < |off| - 1, if j < |off| then off[j] else 0);
      if j == last {
        StoreTailSlot(s, s', n, x, i, off[last]);
      } else {
        assert s'.blocks[ring[j]] == s.blocks[ring[j]] && BlockOk(s.blocks[ring[j]]);
        if j < last {
          assert off[j + 1] == off[j] + Count(s.blocks[ring[j]]);
        }
      }
    }
  }

  lemma StoreTailConsumer<T>(s: State<T>, s': State<T>, n: nat, x: T, ring: seq<nat>, off: seq<nat>, off': seq<nat>)
    requires Ring(s, ring, off) && ConsumerInv(s, ring, off) && PeekInv(s, ring, off) && StoresTail(s, s', n, x)
    requires |off'| == |off| && Ring(s', ring, off') && s'.peeked == s.peeked && (s.sawEmpty ==> s'.sawEmpty)
    ensures ConsumerInv(s', ring, off') && PeekInv(s', ring, off')
  {
    hide ConsumerInv, PeekInv;
    AdvanceTail(s.blocks[s.tailBlock]);
    assert |off| > 2 ==> ring[0] != ring[|off| - 2];
    ConsumerFrame(s, s', ring, off, ring, off');
  }

  lemma StoreTailKeeps<T>(s: State<T>, ring: seq<nat>, off: seq<nat>) returns (off': seq<nat>)
    requires Inv(s, ring, off) && s.prod.StoreTail? && ProducerSafe(s)
    ensures Inv(Observe(s, StepProducer(s)), ring, off')
  {
    hide Linked, Slots, Capacity, PeekInv;
    var s' := Observe(s, StepProducer(s));
    off' := off[|off| - 1 := |s.enq| + 1];
    hide Offsets;
    var n, x := s.prod.n, s.prod.x;
    assert StoresTail(s, s', n, x);
    assert !IsTaken(s.cons, s.tailBlock, s.blocks[s.tailBlock].tail);
    hide Ring, ConsumerInv, BlockOk, Count, StoresTail;
    StoreTailRing(s, s', n, x, ring, off, off');
    StoreTailOffsets(s, s', n, x, ring, off, off');
    StoreTailSlots(s, s', n, x, ring, off, off');
    StoreTailConsumer(s, s', n, x, ring, off, off');
    SameSizesKeepCapacity(s, s', ring);
  }

  // ---- producer: moving to the next block ------------------------------------

  /** `s'` is `s` after the element constructed in the empty block `b`, which follows the tail
      block, has been counted there. */
  ghost predicate StoresNextTail<T>(s: State<T>, s': State<T>, b: nat, x: T) {
    && b < |s.blocks| && s'.tailBlock == s.tailBlock && s'.frontBlock == s.frontBlock
    && s'.blocks == s.blocks[b := s.blocks[b].(tail := Succ(s.blocks[b].tail, |s.blocks[b].data|))]
    && s'.enq == s.enq && s'.deq == s.deq && s'.cons == s.cons
    && PendingOf(s.prod) == PendingOf(s'.prod) == Pending(b, s.blocks[b].tail, x)
    && !s.prod.Publish? && s'.prod.Publish? && s'.prod.nx == b
    && var nb := s.blocks[b]; BlockOk(nb) && nb.tail == nb.front == nb.localFront
  }

  lemma StoreNextTailRing<T>(s: State<T>, s': State<T>, b: nat, x: T, ring: seq<nat>, off: seq<nat>)
    requires Ring(s, ring, off) && Linked(s, ring) && StoresNextTail(s, s', b, x)
    ensures Ring(s', ring, off) && Linked(s', ring)
  {
    AdvanceTail(s.blocks[b]);
    hide BlockOk;
  }

  lemma StoreNextTailOffsets<T>(s: State<T>, s': State<T>, b: nat, x: T, ring: seq<nat>, off: seq<nat>)
    requires Ring(s, ring, off) && Offsets(s, ring, off) && StoresNextTail(s, s', b, x)
    requires |off| - 1 < |ring| && b == ring[|off| - 1] && Ring(s', ring, off)
    ensures Offsets(s', ring, off)
  {
    AdvanceTail(s.blocks[b]);
    assert Count(s.blocks[b]) == 0;
    hide BlockOk, Dist, Count;
    assert forall j {:trigger s'.blocks[ring[j]]} :: 0 <= j < |ring| && j != |off| - 1 ==>
        s'.blocks[ring[j]] == s.blocks[ring[j]] && ring[j] != b;
  }

  lemma StoreNextTailSlots<T>(s: State<T>, s': State<T>, b: nat, x: T, ring: seq<nat>, off: seq<nat>)
    requires Ring(s, ring, off) && Slots(s, ring, off) && StoresNextTail(s, s', b, x)
    requires |off| - 1 < |ring| && b == ring[|off| - 1] && Ring(s', ring, off)
    ensures Slots(s', ring, off)
  {
    hide BlockOk;
    forall j, i | 0 <= j < |ring| && 0 <= i < |s'.blocks[ring[j]].data|
      ensures s'.blocks[ring[j]].data[i]
              == Expected(s', ring[j], i, j < |off| - 1, if j < |off| then off[j] else 0)
    {
      assert s.blocks[ring[j]].data[i]
             == Expected(s, ring[j], i, j < |off| - 1, if j < |off| then off[j] else 0);
      if j != |off| - 1 {
        assert s'.blocks[ring[j]] == s.blocks[ring[j]];
      }
    }
  }

  lemma StoreNextTailConsumer<T>(s: State<T>, s': State<T>, b: nat, x: T, ring: seq<nat>, off: seq<nat>)
    requires Ring(s, ring, off) && ConsumerInv(s, ring, off) && PeekInv(s, ring, off) && StoresNextTail(s, s', b, x)
    requires |off| - 1 < |ring| && b == ring[|off| - 1]
    requires Ring(s', ring, off) && s'.peeked == s.peeked && (s.sawEmpty ==> s'.sawEmpty)
    ensures ConsumerInv(s', ring, off) && PeekInv(s', ring, off)
  {
    hide ConsumerInv, PeekInv, BlockOk;
    assert ring[0] != ring[|off| - 1];
    assert |off| > 2 ==> ring[1] != ring[|off| - 1];
    ConsumerFrame(s, s', ring, off, ring, off);
  }

  lemma StoreNextTailKeeps<T>(s: State<T>, ring: seq<nat>, off: seq<nat>)
    requires Inv(s, ring, off) && s.prod.StoreNextTail? && ProducerSafe(s)
    ensures Inv(Observe(s, StepProducer(s)), ring, off)
  {
    hide Linked, Offsets, Slots, Capacity, PeekInv, ConsumerInv;
    var s' := Observe(s, StepProducer(s));
    var b, x := s.prod.nx, s.prod.x;
    assert BlockOk(s.blocks[b]);
    MaskedSuccessor(s.prod.t, |s.blocks[b].data|);
    assert StoresNextTail(s, s', b, x);
    assert ring[|off| - 2] != b;
    assert s'.blocks[s.tailBlock] == s.blocks[s.tailBlock];
    hide Ring, BlockOk, StoresNextTail, And;
    StoreNextTailRing(s, s', b, x, ring, off);
    StoreNextTailOffsets(s, s', b, x, ring, off);
    StoreNextTailSlots(s, s', b, x, ring, off);
    StoreNextTailConsumer(s, s', b, x, ring, off);
    SameSizesKeepCapacity(s, s', ring);
  }

  /** `s'` is `s` after `tailBlock` has been moved on to `b`, which holds just the new element. */
  ghost predicate Publishes<T>(s: State<T>, s': State<T>, b: nat, x: T) {
    && b < |s.blocks| && s'.tailBlock == b && s'.frontBlock == s.frontBlock && s'.blocks == s.blocks
    && s'.enq == s.enq + [x] && s'.deq == s.deq && s'.cons == s.cons
    && PendingOf(s.prod) == Pending(b, s.blocks[b].front, x) && PendingOf(s'.prod) == NoPending
    && s.prod.Publish? && s.prod.nx == b && !s'.prod.Publish?
  }

  lemma PublishOffsets<T>(s: State<T>, s': State<T>, b: nat, x: T, ring: seq<nat>, off: seq<nat>, off': seq<nat>)
    requires Ring(s, ring, off) && Offsets(s, ring, off) && Publishes(s, s', b, x)
    requires |off| - 1 < |ring| && b == ring[|off| - 1] && off' == off + [|s.enq| + 1] && Ring(s', ring, off')
    requires |off| > 2 ==> Count(s.blocks[s.tailBlock]) == Full(s.blocks[s.tailBlock])
    ensures Offsets(s', ring, off')
  {
    hide BlockOk, Dist, Count;
    assert Count(s.blocks[ring[|off| - 1]]) == 1;
    assert forall j :: |off| <= j < |ring| ==> ring[j] != ring[|off| - 1];
  }

  lemma PublishSlot<T>(s: State<T>, s': State<T>, b: nat, x: T, i: nat, base: nat)
    requires Publishes(s, s', b, x) && i < |s.blocks[b].data| && !IsTaken(s.cons, b, i)
    requires BlockOk(s.blocks[b]) && Count(s.blocks[b]) == 1
    requires s.blocks[b].data[i] == Expected(s, b, i, false, base)
    ensures s'.blocks[b].data[i] == Expected(s', b, i, true, |s.enq|)
  {
    assert s'.enq[|s.enq|] == x;
  }

  lemma PublishSlots<T>(s: State<T>, s': State<T>, b: nat, x: T, ring: seq<nat>, off: seq<nat>, off': seq<nat>)
    requires Ring(s, ring, off) && Offsets(s, ring, off) && Slots(s, ring, off) && Publishes(s, s', b, x)
    requires |off| - 1 < |ring| && b == ring[|off| - 1] && off' == off + [|s.enq| + 1] && Ring(s', ring, off')
    requires forall i :: !IsTaken(s.cons, b, i)
    ensures Slots(s', ring, off')
  {
    var next := |off| - 1;
    OffsetsBounded(s, ring, off);
    assert Count(s.blocks[ring[next]]) == 1;
    hide BlockOk;
    forall j, i | 0 <= j < |ring| && 0 <= i < |s'.blocks[ring[j]].data|
      ensures s'.blocks[ring[j]].data[i]
              == Expected(s', ring[j], i, j < |off'| - 1, if j < |off'| then off'[j] else 0)
    {
      assert s.blocks[ring[j]].data[i]
             == Expected(s, ring[j], i, j < |off| - 1, if j < |off| then off[j] else 0);
      if j == next {
        PublishSlot(s, s', b, x, i, off[j]);
      } else if j < next {
        assert off[j + 1] == off[j] + Count(s.blocks[ring[j]]);
        assert ring[j] != b;
      }
    }
  }

  lemma PublishConsumer<T>(s: State<T>, s': State<T>, b: nat, x: T, ring: seq<nat>, off: seq<nat>, off': seq<nat>)
    requires Ring(s, ring, off) && ConsumerInv(s, ring, off) && PeekInv(s, ring, off) && Publishes(s, s', b, x)
    requires |off'| == |off| + 1 && Ring(s', ring, off') && s'.peeked == s.peeked && (s.sawEmpty ==> s'.sawEmpty)
    ensures ConsumerInv(s', ring, off') && PeekInv(s', ring, off')
  {
    hide ConsumerInv, PeekInv, BlockOk, Count;
    ConsumerFrame(s, s', ring, off, ring, off');
  }

  lemma PublishKeeps<T>(s: State<T>, ring: seq<nat>, off: seq<nat>) returns (off': seq<nat>)
    requires Inv(s, ring, off) && s.prod.Publish? && ProducerSafe(s)
    ensures Inv(Observe(s, StepProducer(s)), ring, off')
  {
    hide Linked, Offsets, Slots, Capacity, PeekInv;
    var s' := Observe(s, StepProducer(s));
    off' := off + [|s.enq| + 1];
    var b, x := s.prod.nx, s.prod.x;
    assert Publishes(s, s', b, x);
    assert ring[0] != ring[|off| - 1];
    assert forall i :: !IsTaken(s.cons, b, i);
    assert Ring(s', ring, off');
    hide Ring, BlockOk, Publishes, ConsumerInv, Count;
    assert Linked(s', ring) by { PublishLinked(s, s', ring); }
    PublishOffsets(s, s', b, x, ring, off, off');
    PublishSlots(s, s', b, x, ring, off, off');
    PublishConsumer(s, s', b, x, ring, off, off');
    SameSizesKeepCapacity(s, s', ring);
  }

  lemma PublishLinked<T>(s: State<T>, s': State<T>, ring: seq<nat>)
    requires s'.blocks == s.blocks && (forall j :: 0 <= j < |ring| ==> ring[j] < |s.blocks|) && Linked(s, ring)
    ensures Linked(s', ring)
  {
  }

  // ---- producer: adding a block ---------------------------------------------

  /** `s'` agrees with `s` on the ring; only the producer's own state and blocks nobody can reach
      may differ. */
  ghost predicate OutsideRing<T>(s: State<T>, s': State<T>, ring: seq<nat>) {
    && s'.frontBlock == s.frontBlock && s'.tailBlock == s.tailBlock
    && s'.enq == s.enq && s'.deq == s.deq && s'.cons == s.cons && |s'.blocks| >= |s.blocks|
    && (forall j {:trigger s'.blocks[ring[j]]} :: 0 <= j < |ring| ==>
          ring[j] < |s.blocks| && s'.blocks[ring[j]] == s.blocks[ring[j]])
    && (forall b :: 0 <= b < |s'.blocks| ==> BlockOk(s'.blocks[b]))
    && PendingOf(s'.prod) == NoPending && PendingOf(s.prod) == NoPending
    && !s'.prod.Publish? && !s.prod.Publish?
  }

  lemma OutsideRingRing<T>(s: State<T>, s': State<T>, ring: seq<nat>, off: seq<nat>)
    requires OutsideRing(s, s', ring) && Ring(s, ring, off) && Linked(s, ring)
    ensures Ring(s', ring, off) && Linked(s', ring)
  {
    hide BlockOk;
    forall j {:trigger s'.blocks[ring[j]].next} | 0 <= j < |ring|
      ensures s'.blocks[ring[j]].next == ring[Succ(j, |ring|)]
    {
      assert s'.blocks[ring[j]] == s.blocks[ring[j]];
    }
  }

  lemma OutsideRingOffsets<T>(s: State<T>, s': State<T>, ring: seq<nat>, off: seq<nat>)
    requires OutsideRing(s, s', ring) && Ring(s, ring, off) && Offsets(s, ring, off) && Ring(s', ring, off)
    ensures Offsets(s', ring, off)
  {
    hide BlockOk, Dist, Count;
    assert forall j {:trigger s'.blocks[ring[j]]} :: 0 <= j < |ring| ==> s'.blocks[ring[j]] == s.blocks[ring[j]];
  }

  lemma OutsideRingSlots<T>(s: State<T>, s': State<T>, ring: seq<nat>, off: seq<nat>)
    requires OutsideRing(s, s', ring) && Ring(s, ring, off) && Slots(s, ring, off) && Ring(s', ring, off)
    ensures Slots(s', ring, off)
  {
    hide BlockOk;
    forall j, i | 0 <= j < |ring| && 0 <= i < |s'.blocks[ring[j]].data|
      ensures s'.blocks[ring[j]].data[i]
              == Expected(s', ring[j], i, j < |off| - 1, if j < |off| then off[j] else 0)
    {
      assert s'.blocks[ring[j]] == s.blocks[ring[j]];
      assert s.blocks[ring[j]].data[i]
             == Expected(s, ring[j], i, j < |off| - 1, if j < |off| then off[j] else 0);
    }
  }

  lemma OutsideRingConsumer<T>(s: State<T>, s': State<T>, ring: seq<nat>, off: seq<nat>)
    requires OutsideRing(s, s', ring) && Ring(s, ring, off) && Ring(s', ring, off)
    requires ConsumerInv(s, ring, off) && PeekInv(s, ring, off)
    requires s'.peeked == s.peeked && (s.sawEmpty ==> s'.sawEmpty)
    ensures ConsumerInv(s', ring, off) && PeekInv(s', ring, off)
  {
    hide BlockOk, ConsumerInv, PeekInv, Count;
    assert s'.blocks[ring[0]] == s.blocks[ring[0]];
    assert |off| > 2 ==> s'.blocks[ring[1]] == s.blocks[ring[1]];
    ConsumerFrame(s, s', ring, off, ring, off);
  }

  lemma OutsideRingKeeps<T>(s: State<T>, s': State<T>, ring: seq<nat>, off: seq<nat>)
    requires Inv(s, ring, off) && OutsideRing(s, s', ring) && Capacity(s', ring)
    requires s'.peeked == s.peeked && (s.sawEmpty ==> s'.sawEmpty)
    requires Ring(s', ring, off) ==> ProducerInv(s', ring, off)
    ensures Inv(s', ring, off)
  {
    hide Ring, Linked, Offsets, Slots, ProducerInv, ConsumerInv, Capacity, PeekInv, OutsideRing;
    OutsideRingRing(s, s', ring, off);
    OutsideRingOffsets(s, s', ring, off);
    OutsideRingSlots(s, s', ring, off);
    OutsideRingConsumer(s, s', ring, off);
  }

  lemma DoubledIsPow2(x: nat)
    requires IsPow2(x)
    ensures IsPow2(2 * x)
  {
    var n: nat :| x == Pow2(n);
    assert Pow2(n + 1) == 2 * x;
  }

  function NewBlockSize<T>(s: State<T>): nat {
    if s.largest >= s.cfg.maxBlock then s.largest else s.largest * 2
  }

  lemma AllocateCapacity<T>(s: State<T>, s': State<T>, ring: seq<nat>)
    requires Capacity(s, ring) && s'.cfg == s.cfg && s'.largest == NewBlockSize(s)
    requires s'.blocks == s.blocks + [MakeBlock(NewBlockSize(s), 0)]
    ensures Capacity(s', ring) && BlockOk(s'.blocks[|s.blocks|])
  {
    DoubledIsPow2(s.largest);
    assert forall b :: 0 <= b < |s.blocks| ==> s'.blocks[b] == s.blocks[b];
  }

  lemma AllocateKeeps<T>(s: State<T>, ring: seq<nat>, off: seq<nat>)
    requires Inv(s, ring, off) && s.prod.Allocate? && ProducerSafe(s)
    ensures Inv(Observe(s, StepProducer(s)), ring, off)
  {
    hide Linked, Offsets, Slots, PeekInv, ConsumerInv, Capacity;
    var s' := Observe(s, StepProducer(s));
    AllocateCapacity(s, s', ring);
    assert forall b :: 0 <= b < |s.blocks| ==> s'.blocks[b] == s.blocks[b];
    hide BlockOk, Count;
    OutsideRingKeeps(s, s', ring, off);
  }

  /** `s'` is `s` with the unlinked block `nx` replaced. */
  lemma ReplaceUnlinked<T>(s: State<T>, s': State<T>, ring: seq<nat>, off: seq<nat>, nx: nat, blk: Block<T>)
    requires Ring(s, ring, off) && Capacity(s, ring)
    requires nx < |s.blocks| && BlockOk(blk) && |blk.data| == |s.blocks[nx].data|
    requires forall j :: 0 <= j < |ring| ==> ring[j] != nx
    requires s'.cfg == s.cfg && s'.frontBlock == s.frontBlock && s'.tailBlock == s.tailBlock
    requires s'.enq == s.enq && s'.deq == s.deq && s'.cons == s.cons
    requires s'.largest == s.largest && s'.blocks == s.blocks[nx := blk]
    requires PendingOf(s'.prod) == NoPending && PendingOf(s.prod) == NoPending
    requires !s'.prod.Publish? && !s.prod.Publish?
    ensures OutsideRing(s, s', ring) && Capacity(s', ring)
  {
    hide Capacity;
    assert forall b :: 0 <= b < |s.blocks| && b != nx ==> s'.blocks[b] == s.blocks[b];
    SameSizesKeepCapacity(s, s', ring);
  }

  lemma InitBlockKeeps<T>(s: State<T>, ring: seq<nat>, off: seq<nat>)
    requires Inv(s, ring, off) && s.prod.InitBlock? && ProducerSafe(s)
    ensures Inv(Observe(s, StepProducer(s)), ring, off)
  {
    hide Linked, Offsets, Slots, PeekInv, ConsumerInv, Capacity;
    var s' := Observe(s, StepProducer(s));
    var nx := s.prod.nx;
    assert BlockOk(s.blocks[nx]);
    assert FreshBlock(s'.blocks[nx], s.prod.x);
    ReplaceUnlinked(s, s', ring, off, nx, s'.blocks[nx]);
    assert s'.blocks[s.tailBlock] == s.blocks[s.tailBlock];
    hide BlockOk, OutsideRing, FreshBlock, Count;
    OutsideRingKeeps(s, s', ring, off);
  }

  lemma LinkNewKeeps<T>(s: State<T>, ring: seq<nat>, off: seq<nat>)
    requires Inv(s, ring, off) && s.prod.LinkNew? && ProducerSafe(s)
    ensures Inv(Observe(s, StepProducer(s)), ring, off)
  {
    assert s.blocks[ring[|off| - 2]].next == ring[Succ(|off| - 2, |ring|)];
    hide Linked, Offsets, Slots, PeekInv, ConsumerInv, Capacity;
    var s' := Observe(s, StepProducer(s));
    var nx := s.prod.nx;
    assert BlockOk(s.blocks[nx]);
    assert FreshBlock(s'.blocks[nx], s.prod.x);
    ReplaceUnlinked(s, s', ring, off, nx, s'.blocks[nx]);
    assert s'.blocks[s.tailBlock] == s.blocks[s.tailBlock];
    hide BlockOk, OutsideRing, FreshBlock, Count;
    OutsideRingKeeps(s, s', ring, off);
  }

  /** `s'` is `s` with the unlinked block `nx`, holding just `x`, linked in after the tail block. */
  ghost predicate LinksTail<T>(s: State<T>, s': State<T>, nx: nat, x: T) {
    && nx < |s.blocks| && s.tailBlock < |s.blocks| && nx != s.tailBlock
    && s'.frontBlock == s.frontBlock && s'.tailBlock == s.tailBlock
    && s'.blocks == s.blocks[s.tailBlock := s.blocks[s.tailBlock].(next := nx)]
    && s'.enq == s.enq && s'.deq == s.deq && s'.cons == s.cons
    && PendingOf(s.prod) == NoPending && PendingOf(s'.prod) == Pending(nx, 0, x)
    && !s.prod.Publish? && s'.prod.Publish? && s'.prod.nx == nx
    && FreshBlock(s.blocks[nx], x)
  }

  /** `ring'` is `ring` with `nx` inserted after position `at - 1`. */
  ghost predicate Inserted(ring: seq<nat>, ring': seq<nat>, at: nat, nx: nat) {
    && 1 <= at <= |ring| && |ring'| == |ring| + 1
    && (forall j :: 0 <= j < |ring| ==> ring[j] != nx)
    && (forall j {:trigger ring'[j]} :: 0 <= j < |ring'| ==>
          ring'[j] == if j < at then ring[j] else if j == at then nx else ring[j - 1])
  }

  lemma LinkTailRing<T>(s: State<T>, s': State<T>, nx: nat, x: T, ring: seq<nat>, off: seq<nat>, ring': seq<nat>)
    requires Ring(s, ring, off) && LinksTail(s, s', nx, x) && Inserted(ring, ring', |off| - 1, nx)
    ensures Ring(s', ring', off)
  {
    var tb := s.tailBlock;
    assert BlockOk(s.blocks[tb]);
    assert BlockOk(s'.blocks[tb]);
    hide BlockOk;
  }

  lemma LinkTailLinked<T>(s: State<T>, s': State<T>, nx: nat, x: T, ring: seq<nat>, off: seq<nat>, ring': seq<nat>)
    requires Ring(s, ring, off) && Linked(s, ring) && LinksTail(s, s', nx, x)
    requires Inserted(ring, ring', |off| - 1, nx) && Ring(s', ring', off)
    requires s.blocks[nx].next == ring[Succ(|off| - 2, |ring|)]
    ensures Linked(s', ring')
  {
    hide BlockOk;
    var at := |off| - 1;
    assert ring'[at - 1] == s.tailBlock;
    forall j {:trigger s'.blocks[ring'[j]].next} | 0 <= j < |ring'|
      ensures s'.blocks[ring'[j]].next == ring'[Succ(j, |ring'|)]
    {
      if j < at - 1 {
        assert s.blocks[ring[j]].next == ring[Succ(j, |ring|)];
      } else if j > at {
        assert s.blocks[ring[j - 1]].next == ring[Succ(j - 1, |ring|)];
      }
    }
  }

  lemma LinkTailOffsets<T>(s: State<T>, s': State<T>, nx: nat, x: T, ring: seq<nat>, off: seq<nat>, ring': seq<nat>)
    requires Ring(s, ring, off) && Offsets(s, ring, off) && LinksTail(s, s', nx, x)
    requires Inserted(ring, ring', |off| - 1, nx) && Ring(s', ring', off)
    ensures Offsets(s', ring', off)
  {
    var at := |off| - 1;
    assert Count(s.blocks[nx]) == 1;
    assert forall b :: 0 <= b < |s.blocks| ==>
        Count(s'.blocks[b]) == Count(s.blocks[b]) && Full(s'.blocks[b]) == Full(s.blocks[b]);
    hide BlockOk, Dist, Count, Full, FreshBlock;
    forall j {:trigger s'.blocks[ring'[j]]} | at <= j < |ring'|
      ensures Count(s'.blocks[ring'[j]]) == if ring'[j] == nx then 1 else 0
    {
      if j > at {
        assert Count(s.blocks[ring[j - 1]]) == 0;
      }
    }
    assert forall j {:trigger s'.blocks[ring'[j]]} :: 0 <= j < at ==>
        ring'[j] == ring[j] && Count(s'.blocks[ring'[j]]) == Count(s.blocks[ring[j]])
        && Full(s'.blocks[ring'[j]]) == Full(s.blocks[ring[j]]);
    hide Ring, LinksTail;
  }

  lemma LinkTailSlots<T>(s: State<T>, s': State<T>, nx: nat, x: T, ring: seq<nat>, off: seq<nat>, ring': seq<nat>)
    requires Ring(s, ring, off) && Slots(s, ring, off) && LinksTail(s, s', nx, x)
    requires Inserted(ring, ring', |off| - 1, nx) && Ring(s', ring', off)
    requires forall i :: !IsTaken(s.cons, nx, i)
    ensures Slots(s', ring', off)
  {
    var at := |off| - 1;
    hide BlockOk;
    forall j, i | 0 <= j < |ring'| && 0 <= i < |s'.blocks[ring'[j]].data|
      ensures s'.blocks[ring'[j]].data[i]
              == Expected(s', ring'[j], i, j < |off| - 1, if j < |off| then off[j] else 0)
    {
      if j < at {
        assert ring'[j] == ring[j];
        assert s.blocks[ring[j]].data[i] == Expected(s, ring[j], i, true, off[j]);
      } else if j > at {
        assert ring'[j] == ring[j - 1];
        assert s.blocks[ring[j - 1]].data[i]
               == Expected(s, ring[j - 1], i, false, if j - 1 < |off| then off[j - 1] else 0);
      }
    }
  }

  lemma LinkTailConsumer<T>(s: State<T>, s': State<T>, nx: nat, x: T, ring: seq<nat>, off: seq<nat>, ring': seq<nat>)
    requires Ring(s, ring, off) && ConsumerInv(s, ring, off) && PeekInv(s, ring, off) && LinksTail(s, s', nx, x)
    requires Inserted(ring, ring', |off| - 1, nx) && Ring(s', ring', off)
    requires s'.peeked == s.peeked && (s.sawEmpty ==> s'.sawEmpty)
    ensures ConsumerInv(s', ring', off) && PeekInv(s', ring', off)
  {
    hide BlockOk, ConsumerInv, PeekInv;
    ConsumerFrame(s, s', ring, off, ring', off);
  }

  lemma LinkTailCapacity<T>(s: State<T>, s': State<T>, ring: seq<nat>, ring': seq<nat>)
    requires Capacity(s, ring) && |ring'| == |ring| + 1 && s'.cfg == s.cfg && s'.largest == s.largest
    requires |s'.blocks| == |s.blocks|
    requires forall b :: 0 <= b < |s.blocks| ==> |s'.blocks[b].data| == |s.blocks[b].data|
    ensures Capacity(s', ring')
  {
    assert (|ring'| - 1) * (s.cfg.maxBlock - 1) == (|ring| - 1) * (s.cfg.maxBlock - 1) + (s.cfg.maxBlock - 1);
  }

  lemma NewBlockUntouched<T>(s: State<T>, ring: seq<nat>, off: seq<nat>)
    requires Inv(s, ring, off) && s.prod.LinkTail? && ProducerSafe(s)
    ensures var (s', nx) := (Observe(s, StepProducer(s)), s.prod.nx);
            && nx < |s.blocks| == |s'.blocks| && s'.blocks[nx] == s.blocks[nx] && s.blocks[nx].front == 0
            && s.tailBlock < |s.blocks| && Count(s'.blocks[s.tailBlock]) == Count(s.blocks[s.tailBlock])
    ensures forall i :: !IsTaken(s.cons, s.prod.nx, i)
  {
    hide Linked, Offsets, Slots, Capacity, PeekInv;
  }

  lemma LinkTailKeeps<T>(s: State<T>, ring: seq<nat>, off: seq<nat>) returns (ring': seq<nat>)
    requires Inv(s, ring, off) && s.prod.LinkTail? && ProducerSafe(s)
    ensures Inv(Observe(s, StepProducer(s)), ring', off)
  {
    hide Linked, Offsets, Slots, Capacity, PeekInv, ConsumerInv, BlockOk, FreshBlock, Count;
    var s' := Observe(s, StepProducer(s));
    var nx, x, at := s.prod.nx, s.prod.x, |off| - 1;
    ring' := ring[..at] + [nx] + ring[at..];
    assert Inserted(ring, ring', at, nx);
    NewBlockUntouched(s, ring, off);
    assert LinksTail(s, s', nx, x);
    LinkTailRing(s, s', nx, x, ring, off, ring');
    hide Ring, Inserted, LinksTail;
    LinkTailLinked(s, s', nx, x, ring, off, ring');
    LinkTailOffsets(s, s', nx, x, ring, off, ring');
    LinkTailSlots(s, s', nx, x, ring, off, ring');
    LinkTailConsumer(s, s', nx, x, ring, off, ring');
    LinkTailCapacity(s, s', ring, ring');
  }
}
