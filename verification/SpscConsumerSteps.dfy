/** Every step of the consumer preserves the queue's invariant. */
module SpscConsumerSteps {
  import opened Options
  import opened Bits
  import opened Spsc
  import opened SpscInvariant
  import opened SpscSteps

  // ---- loads -----------------------------------------------------------------

  /** `s'` is `s` but for the consumer's own state and the observations. */
  ghost predicate OnlyConsumer<T>(s: State<T>, s': State<T>) {
    && s'.cfg == s.cfg && s'.frontBlock == s.frontBlock && s'.tailBlock == s.tailBlock
    && s'.largest == s.largest && s'.enq == s.enq && s'.deq == s.deq && s'.prod == s.prod
    && s'.peak >= s.peak && !s.cons.CStoreFront? && !s'.cons.CStoreFront?
  }

  /** A consumer step that changes nothing shared; what remains is the consumer's own knowledge. */
  lemma ConsumerLoad<T>(s: State<T>, s': State<T>, ring: seq<nat>, off: seq<nat>)
    requires Inv(s, ring, off) && OnlyConsumer(s, s') && s'.blocks == s.blocks
    requires Ring(s', ring, off) ==> ConsumerInv(s', ring, off) && PeekInv(s', ring, off)
    ensures Inv(s', ring, off)
  {
    hide Linked, Offsets, Slots, Capacity, ProducerInv, ConsumerInv, PeekInv;
    assert s'.blocks[ring[0]].(localTail := s'.blocks[ring[0]].localTail) == s'.blocks[ring[0]];
    assert s.blocks[ring[0] := s.blocks[ring[0]]] == s.blocks;
    ConsumerRefresh(s, s', ring, off, 0, s.blocks[ring[0]].localTail);
  }

  lemma RefreshSameIndices<T>(s: State<T>, s': State<T>, ring: seq<nat>, off: seq<nat>, c: nat, lt: nat)
    requires Ring(s, ring, off) && OnlyConsumer(s, s') && c < |ring|
    requires lt == s.blocks[ring[c]].localTail || lt == s.blocks[ring[c]].tail
    requires s'.blocks == s.blocks[ring[c] := s.blocks[ring[c]].(localTail := lt)]
    ensures SameIndices(s, s') && SameSlots(s, s')
  {
    assert BlockOk(s.blocks[ring[c]]);
    assert BlockOk(s.blocks[ring[c]].(localTail := lt));
    hide BlockOk;
  }

  lemma RefreshProducer<T>(s: State<T>, s': State<T>, ring: seq<nat>, off: seq<nat>, c: nat, lt: nat)
    requires Ring(s, ring, off) && ProducerInv(s, ring, off) && Ring(s', ring, off)
    requires OnlyConsumer(s, s') && c < |ring|
    requires s'.blocks == s.blocks[ring[c] := s.blocks[ring[c]].(localTail := lt)]
    ensures ProducerInv(s', ring, off)
  {
    hide BlockOk, ProducerInv;
    ProducerFrame(s, s', ring, off, ring, off);
  }

  /** A consumer step that at most refreshes the shadow copy of `tail` in block `ring[c]`. */
  lemma ConsumerRefresh<T>(s: State<T>, s': State<T>, ring: seq<nat>, off: seq<nat>, c: nat, lt: nat)
    requires Inv(s, ring, off) && OnlyConsumer(s, s') && c < |ring|
    requires lt == s.blocks[ring[c]].localTail || lt == s.blocks[ring[c]].tail
    requires s'.blocks == s.blocks[ring[c] := s.blocks[ring[c]].(localTail := lt)]
    requires Ring(s', ring, off) ==> ConsumerInv(s', ring, off) && PeekInv(s', ring, off)
    ensures Inv(s', ring, off)
  {
    hide Ring, Linked, Offsets, Slots, Capacity, ProducerInv, ConsumerInv, PeekInv, SameSlots;
    RefreshSameIndices(s, s', ring, off, c, lt);
    SameIndicesKeeps(s, s', ring, off);
    SameSlotsKeeps(s, s', ring, off);
    RefreshProducer(s, s', ring, off, c, lt);
  }

  lemma CallConsumerKeeps<T>(s: State<T>, k: Kind, ring: seq<nat>, off: seq<nat>)
    requires Inv(s, ring, off) && !s.cons.Active()
    ensures Inv(Observe(s, s.(cons := CLoadFrontBlock(k))), ring, off)
  {
    hide Linked, Offsets, Slots, Capacity, ProducerInv;
    ConsumerLoad(s, Observe(s, s.(cons := CLoadFrontBlock(k))), ring, off);
  }

  lemma CLoadFrontBlockKeeps<T>(s: State<T>, ring: seq<nat>, off: seq<nat>)
    requires Inv(s, ring, off) && s.cons.CLoadFrontBlock? && ConsumerSafe(s)
    ensures Inv(Observe(s, StepConsumer(s)), ring, off)
  {
    hide Linked, Offsets, Slots, Capacity, ProducerInv;
    ConsumerLoad(s, Observe(s, StepConsumer(s)), ring, off);
  }

  lemma CLoadFrontKeeps<T>(s: State<T>, ring: seq<nat>, off: seq<nat>)
    requires Inv(s, ring, off) && s.cons.CLoadFront? && ConsumerSafe(s)
    ensures Inv(Observe(s, StepConsumer(s)), ring, off)
  {
    hide Linked, Offsets, Slots, Capacity, ProducerInv;
    var fb := s.blocks[s.frontBlock];
    assert BlockOk(fb);
    if fb.front != fb.localTail {
      ShadowTailShowsElement(fb);
    }
    hide BlockOk, Dist, Count;
    ConsumerLoad(s, Observe(s, StepConsumer(s)), ring, off);
  }

  /** An empty front block that is also the tail block means an empty queue. */
  lemma EmptyQueue<T>(s: State<T>, ring: seq<nat>, off: seq<nat>)
    requires Ring(s, ring, off) && Offsets(s, ring, off)
    requires |off| == 2 && Count(s.blocks[ring[0]]) == 0
    ensures Held(s) == 0
  {
  }

  lemma CLoadTailKeeps<T>(s: State<T>, ring: seq<nat>, off: seq<nat>)
    requires Inv(s, ring, off) && s.cons.CLoadTail? && ConsumerSafe(s)
    ensures Inv(Observe(s, StepConsumer(s)), ring, off)
  {
    hide Linked, Offsets, Slots, Capacity, ProducerInv;
    var s' := Observe(s, StepConsumer(s));
    var fb := s.blocks[ring[0]];
    assert BlockOk(fb);
    if |off| == 2 && Count(fb) == 0 {
      EmptyQueue(s, ring, off);
    }
    CLoadTailKnows(s, s', ring, off);
    hide BlockOk, Count, ConsumerInv, PeekInv, Ring;
    ConsumerRefresh(s, s', ring, off, 0, fb.tail);
  }

  lemma CLoadTailKnows<T>(s: State<T>, s': State<T>, ring: seq<nat>, off: seq<nat>)
    requires Ring(s, ring, off) && ConsumerInv(s, ring, off) && PeekInv(s, ring, off)
    requires s.cons.CLoadTail? && ConsumerSafe(s) && s' == Observe(s, StepConsumer(s))
    requires |off| == 2 && Count(s.blocks[ring[0]]) == 0 ==> Held(s) == 0
    ensures Ring(s', ring, off) ==> ConsumerInv(s', ring, off) && PeekInv(s', ring, off)
  {
    var fb, fb' := s.blocks[ring[0]], s'.blocks[ring[0]];
    assert BlockOk(fb);
    assert (Count(fb) >= 1 || Count(fb) == 0) && (Count(fb) == 0 <==> fb.front == fb.tail);
    assert fb' == fb.(localTail := fb.tail);
    assert Count(fb') == Count(fb);
    if |off| > 2 {
      assert ring[0] != ring[1] && s'.blocks[ring[1]] == s.blocks[ring[1]];
    }
    hide BlockOk, Count;
  }

  lemma CLoadTailBlockKeeps<T>(s: State<T>, ring: seq<nat>, off: seq<nat>)
    requires Inv(s, ring, off) && s.cons.CLoadTailBlock? && ConsumerSafe(s)
    ensures Inv(Observe(s, StepConsumer(s)), ring, off)
  {
    hide Linked, Offsets, Slots, Capacity, ProducerInv, BlockOk, Count;
    assert |off| > 2 ==> ring[0] != ring[|off| - 2];
    ConsumerLoad(s, Observe(s, StepConsumer(s)), ring, off);
  }

  lemma CReloadFrontBlockKeeps<T>(s: State<T>, ring: seq<nat>, off: seq<nat>)
    requires Inv(s, ring, off) && s.cons.CReloadFrontBlock? && ConsumerSafe(s)
    ensures Inv(Observe(s, StepConsumer(s)), ring, off)
  {
    hide Linked, Offsets, Slots, Capacity, ProducerInv, BlockOk, Count;
    ConsumerLoad(s, Observe(s, StepConsumer(s)), ring, off);
  }

  lemma CReloadTailKeeps<T>(s: State<T>, ring: seq<nat>, off: seq<nat>)
    requires Inv(s, ring, off) && s.cons.CReloadTail? && ConsumerSafe(s)
    ensures Inv(Observe(s, StepConsumer(s)), ring, off)
  {
    hide Linked, Offsets, Slots, Capacity, ProducerInv;
    var s' := Observe(s, StepConsumer(s));
    assert Count(s'.blocks[ring[0]]) == Count(s.blocks[ring[0]]);
    assert ring[0] != ring[1];
    hide BlockOk, Count;
    ConsumerRefresh(s, s', ring, off, 0, s.blocks[ring[0]].tail);
  }

  lemma CReloadFrontKeeps<T>(s: State<T>, ring: seq<nat>, off: seq<nat>)
    requires Inv(s, ring, off) && s.cons.CReloadFront? && ConsumerSafe(s)
    ensures Inv(Observe(s, StepConsumer(s)), ring, off)
  {
    hide Linked, Offsets, Slots, Capacity, ProducerInv;
    var fb := s.blocks[ring[0]];
    assert BlockOk(fb);
    assert (Count(fb) >= 1 || Count(fb) == 0) && (Count(fb) == 0 <==> fb.front == fb.tail);
    hide BlockOk, Count;
    ConsumerLoad(s, Observe(s, StepConsumer(s)), ring, off);
  }

  lemma CLoadNextKeeps<T>(s: State<T>, ring: seq<nat>, off: seq<nat>)
    requires Inv(s, ring, off) && s.cons.CLoadNext? && ConsumerSafe(s)
    ensures Inv(Observe(s, StepConsumer(s)), ring, off)
  {
    assert s.blocks[ring[0]].next == ring[Succ(0, |ring|)];
    hide Linked, Offsets, Slots, Capacity, ProducerInv, BlockOk, Count;
    ConsumerLoad(s, Observe(s, StepConsumer(s)), ring, off);
  }

  lemma CLoadNextFrontKeeps<T>(s: State<T>, ring: seq<nat>, off: seq<nat>)
    requires Inv(s, ring, off) && s.cons.CLoadNextFront? && ConsumerSafe(s)
    ensures Inv(Observe(s, StepConsumer(s)), ring, off)
  {
    hide Linked, Offsets, Slots, Capacity, ProducerInv, BlockOk, Count;
    ConsumerLoad(s, Observe(s, StepConsumer(s)), ring, off);
  }

  lemma CLoadNextTailKeeps<T>(s: State<T>, ring: seq<nat>, off: seq<nat>)
    requires Inv(s, ring, off) && s.cons.CLoadNextTail? && ConsumerSafe(s)
    ensures Inv(Observe(s, StepConsumer(s)), ring, off)
  {
    hide Linked, Offsets, Slots, Capacity, ProducerInv;
    var s' := Observe(s, StepConsumer(s));
    assert ring[0] != ring[1] && s'.blocks[ring[0]] == s.blocks[ring[0]];
    assert Count(s'.blocks[ring[1]]) == Count(s.blocks[ring[1]]);
    hide BlockOk, Count;
    if s.cons.k == Peek {
      ConsumerLoad(s, s', ring, off);
    } else {
      ConsumerRefresh(s, s', ring, off, 1, s.blocks[ring[1]].tail);
    }
  }

  // ---- moving to the next block ----------------------------------------------

  /** `ring'` is `ring` turned by one. */
  ghost predicate Rotated(ring: seq<nat>, ring': seq<nat>) {
    && |ring'| == |ring| >= 2
    && (forall j {:trigger ring'[j]} :: 0 <= j < |ring'| ==>
          ring'[j] == if j + 1 < |ring| then ring[j + 1] else ring[0])
  }

  /** `s'` is `s` after the consumer has left its empty front block. */
  ghost predicate StoresFrontBlock<T>(s: State<T>, s': State<T>, b: nat) {
    && s'.frontBlock == b && s'.tailBlock == s.tailBlock && s'.blocks == s.blocks
    && s'.enq == s.enq && s'.deq == s.deq && s'.prod == s.prod
    && !s.cons.CStoreFront? && !s'.cons.CStoreFront?
  }

  lemma RotateRing<T>(s: State<T>, s': State<T>, b: nat, ring: seq<nat>, off: seq<nat>, ring': seq<nat>, off': seq<nat>)
    requires Ring(s, ring, off) && Linked(s, ring) && StoresFrontBlock(s, s', b)
    requires Rotated(ring, ring') && |off| > 2 && |off'| == |off| - 1 && b == ring[1]
    ensures Ring(s', ring', off') && Linked(s', ring')
  {
    hide BlockOk;
    assert Ring(s', ring', off');
    forall j {:trigger s'.blocks[ring'[j]].next} | 0 <= j < |ring'|
      ensures s'.blocks[ring'[j]].next == ring'[Succ(j, |ring'|)]
    {
      if j + 1 < |ring| {
        assert s.blocks[ring[j + 1]].next == ring[Succ(j + 1, |ring|)];
      } else {
        assert s.blocks[ring[0]].next == ring[Succ(0, |ring|)];
      }
    }
  }

  lemma RotateOffsets<T>(s: State<T>, s': State<T>, b: nat, ring: seq<nat>, off: seq<nat>, ring': seq<nat>, off': seq<nat>)
    requires Ring(s, ring, off) && Offsets(s, ring, off) && StoresFrontBlock(s, s', b)
    requires Rotated(ring, ring') && |off| > 2 && off' == off[1..] && Ring(s', ring', off')
    requires Count(s.blocks[ring[0]]) == 0
    requires s.prod.Publish? ==> s.prod.nx != ring[0]
    ensures Offsets(s', ring', off')
  {
    hide BlockOk, Dist, Count;
    assert off[0 + 1] == off[0] + Count(s.blocks[ring[0]]);
    forall j {:trigger s'.blocks[ring'[j]]} | 0 <= j < |off'| - 1
      ensures off'[j + 1] == off'[j] + Count(s'.blocks[ring'[j]])
    {
      assert off[j + 1 + 1] == off[j + 1] + Count(s.blocks[ring[j + 1]]);
    }
    forall j {:trigger s'.blocks[ring'[j]]} | 1 <= j < |off'| - 2
      ensures Count(s'.blocks[ring'[j]]) == Full(s'.blocks[ring'[j]])
    {
      assert Count(s.blocks[ring[j + 1]]) == Full(s.blocks[ring[j + 1]]);
    }
    forall j {:trigger s'.blocks[ring'[j]]} | |off'| - 1 <= j < |ring'|
      ensures Count(s'.blocks[ring'[j]]) == if s'.prod.Publish? && ring'[j] == s'.prod.nx then 1 else 0
    {
      if j + 1 < |ring| {
        assert Count(s.blocks[ring[j + 1]]) == if s.prod.Publish? && ring[j + 1] == s.prod.nx then 1 else 0;
      }
    }
  }

  lemma RotateSlots<T>(s: State<T>, s': State<T>, b: nat, ring: seq<nat>, off: seq<nat>, ring': seq<nat>, off': seq<nat>)
    requires Ring(s, ring, off) && Slots(s, ring, off) && StoresFrontBlock(s, s', b)
    requires Rotated(ring, ring') && |off| > 2 && off' == off[1..] && Ring(s', ring', off')
    requires Count(s.blocks[ring[0]]) == 0
    ensures Slots(s', ring', off')
  {
    hide BlockOk;
    forall j, i | 0 <= j < |ring'| && 0 <= i < |s'.blocks[ring'[j]].data|
      ensures s'.blocks[ring'[j]].data[i]
              == Expected(s', ring'[j], i, j < |off'| - 1, if j < |off'| then off'[j] else 0)
    {
      if j + 1 < |ring| {
        assert s.blocks[ring[j + 1]].data[i]
               == Expected(s, ring[j + 1], i, j + 1 < |off| - 1, if j + 1 < |off| then off[j + 1] else 0);
      } else {
        assert s.blocks[ring[0]].data[i] == Expected(s, ring[0], i, true, off[0]);
      }
    }
  }

  lemma RotateProducer<T>(s: State<T>, s': State<T>, b: nat, ring: seq<nat>, off: seq<nat>, ring': seq<nat>, off': seq<nat>)
    requires Ring(s, ring, off) && ProducerInv(s, ring, off) && StoresFrontBlock(s, s', b)
    requires Rotated(ring, ring') && |off| > 2 && |off'| == |off| - 1 && Ring(s', ring', off')
    requires s'.cfg == s.cfg && s'.peak >= s.peak
    ensures ProducerInv(s', ring', off')
  {
    hide BlockOk, Count, ProducerInv;
    ProducerFrame(s, s', ring, off, ring', off');
  }

  lemma RotateConsumer<T>(s: State<T>, s': State<T>, ring: seq<nat>, off: seq<nat>, ring': seq<nat>, off': seq<nat>)
    requires Ring(s, ring, off) && Offsets(s, ring, off) && ConsumerInv(s, ring, off) && PeekInv(s, ring, off)
    requires s.cons.CStoreFrontBlock? && ConsumerSafe(s) && s' == Observe(s, StepConsumer(s))
    requires Rotated(ring, ring') && |off'| == |off| - 1 && Ring(s', ring', off')
    ensures ConsumerInv(s', ring', off') && PeekInv(s', ring', off')
  {
    assert BlockOk(s.blocks[ring[1]]);
    assert Count(s.blocks[ring[1]]) >= 1;
    assert ring'[0] == ring[1];
    hide BlockOk, Offsets;
  }

  lemma CStoreFrontBlockKeeps<T>(s: State<T>, ring: seq<nat>, off: seq<nat>) returns (ring': seq<nat>, off': seq<nat>)
    requires Inv(s, ring, off) && s.cons.CStoreFrontBlock? && ConsumerSafe(s)
    ensures Inv(Observe(s, StepConsumer(s)), ring', off')
  {
    hide Linked, Offsets, Slots, Capacity, PeekInv, BlockOk, Count;
    var s' := Observe(s, StepConsumer(s));
    ring' := ring[1..] + [ring[0]];
    off' := off[1..];
    var b := s.cons.nx;
    assert StoresFrontBlock(s, s', b) && Rotated(ring, ring');
    assert s.prod.Publish? ==> s.prod.nx != ring[0];
    hide Ring, ProducerInv, StoresFrontBlock, Rotated;
    RotateRing(s, s', b, ring, off, ring', off');
    RotateOffsets(s, s', b, ring, off, ring', off');
    RotateSlots(s, s', b, ring, off, ring', off');
    RotateProducer(s, s', b, ring, off, ring', off');
    RotateConsumer(s, s', ring, off, ring', off');
    RotateCapacity(s, s', ring, ring');
  }

  lemma RotateCapacity<T>(s: State<T>, s': State<T>, ring: seq<nat>, ring': seq<nat>)
    requires Capacity(s, ring) && |ring'| == |ring| && s'.cfg == s.cfg && s'.largest == s.largest
    requires s'.blocks == s.blocks
    ensures Capacity(s', ring')
  {
  }

  // ---- taking the element ------------------------------------------------------

  /** `s'` is `s` after the consumer has moved the element out of slot `f` of the front block. */
  ghost predicate Takes<T>(s: State<T>, s': State<T>, f: nat) {
    && s.frontBlock < |s.blocks| && f < |s.blocks[s.frontBlock].data|
    && s'.blocks == s.blocks[s.frontBlock :=
                               s.blocks[s.frontBlock].(data := s.blocks[s.frontBlock].data[f := None])]
    && s'.enq == s.enq && s'.deq == s.deq && s'.prod == s.prod
    && !s.cons.CStoreFront? && s'.cons.CStoreFront? && s'.cons.b == s.frontBlock && s'.cons.f == f
  }

  lemma TakeSlots<T>(s: State<T>, s': State<T>, f: nat, ring: seq<nat>, off: seq<nat>)
    requires Ring(s, ring, off) && Slots(s, ring, off) && Takes(s, s', f) && Ring(s', ring, off)
    ensures Slots(s', ring, off)
  {
    hide BlockOk;
    forall j, i | 0 <= j < |ring| && 0 <= i < |s'.blocks[ring[j]].data|
      ensures s'.blocks[ring[j]].data[i]
              == Expected(s', ring[j], i, j < |off| - 1, if j < |off| then off[j] else 0)
    {
      assert s.blocks[ring[j]].data[i]
             == Expected(s, ring[j], i, j < |off| - 1, if j < |off| then off[j] else 0);
    }
  }

  lemma TakeSameIndices<T>(s: State<T>, s': State<T>, f: nat, ring: seq<nat>, off: seq<nat>)
    requires Ring(s, ring, off) && Takes(s, s', f)
    requires s'.cfg == s.cfg && s'.frontBlock == s.frontBlock && s'.tailBlock == s.tailBlock
    requires s'.largest == s.largest
    ensures SameIndices(s, s')
  {
    assert BlockOk(s.blocks[s.frontBlock]);
    assert BlockOk(s'.blocks[s.frontBlock]);
    hide BlockOk;
  }

  lemma TakeProducer<T>(s: State<T>, s': State<T>, f: nat, ring: seq<nat>, off: seq<nat>)
    requires Ring(s, ring, off) && ProducerInv(s, ring, off) && Takes(s, s', f) && Ring(s', ring, off)
    requires s'.tailBlock == s.tailBlock && s'.cfg == s.cfg && s'.peak >= s.peak
    ensures ProducerInv(s', ring, off)
  {
    hide BlockOk, ProducerInv;
    ProducerFrame(s, s', ring, off, ring, off);
  }

  lemma TakeConsumer<T>(s: State<T>, s': State<T>, ring: seq<nat>, off: seq<nat>)
    requires Ring(s, ring, off) && ConsumerInv(s, ring, off) && PeekInv(s, ring, off)
    requires s.cons.CTake? && ConsumerSafe(s) && s' == Observe(s, StepConsumer(s)) && Ring(s', ring, off)
    requires |s.deq| < |s.enq| && s.blocks[s.cons.b].data[s.cons.f] == Some(s.enq[|s.deq|])
    ensures ConsumerInv(s', ring, off) && PeekInv(s', ring, off)
  {
    var fb, fb' := s.blocks[ring[0]], s'.blocks[ring[0]];
    assert fb' == fb.(data := fb.data[s.cons.f := None]);
    assert Count(fb') == Count(fb);
    assert |off| > 2 ==> ring[0] != ring[1];
    hide BlockOk, Count;
  }

  lemma CTakeKeeps<T>(s: State<T>, ring: seq<nat>, off: seq<nat>)
    requires Inv(s, ring, off) && s.cons.CTake? && ConsumerSafe(s)
    ensures Inv(Observe(s, StepConsumer(s)), ring, off)
  {
    var s' := Observe(s, StepConsumer(s));
    ConsumerCannotFail(s, ring, off);
    hide Ring, Linked, Offsets, Slots, Capacity, ProducerInv, PeekInv, Count;
    var f := s.cons.f;
    TakeSameIndices(s, s', f, ring, off);
    hide ConsumerInv, SameIndices, Takes;
    SameIndicesKeeps(s, s', ring, off);
    TakeSlots(s, s', f, ring, off);
    TakeProducer(s, s', f, ring, off);
    TakeConsumer(s, s', ring, off);
  }

  /** `s'` is `s` after the consumer has given up the emptied slot at `front` of the front block. */
  ghost predicate StoresFront<T>(s: State<T>, s': State<T>, v: T) {
    && s.frontBlock < |s.blocks| && s'.frontBlock == s.frontBlock && s'.tailBlock == s.tailBlock
    && s'.enq == s.enq && s'.deq == s.deq + [v] && s'.prod == s.prod
    && var fb := s.blocks[s.frontBlock];
       s'.blocks == s.blocks[s.frontBlock := fb.(front := Succ(fb.front, |fb.data|))]
       && BlockOk(fb) && fb.front != fb.localTail
       && s.cons.CStoreFront? && s.cons.b == s.frontBlock && s.cons.f == fb.front && !s'.cons.CStoreFront?
  }

  lemma StoreFrontRing<T>(s: State<T>, s': State<T>, v: T, ring: seq<nat>, off: seq<nat>, off': seq<nat>)
    requires Ring(s, ring, off) && Linked(s, ring) && StoresFront(s, s', v) && |off'| == |off|
    ensures Ring(s', ring, off') && Linked(s', ring)
  {
    AdvanceFront(s.blocks[s.frontBlock]);
    hide BlockOk;
  }

  lemma StoreFrontOffsets<T>(s: State<T>, s': State<T>, v: T, ring: seq<nat>, off: seq<nat>, off': seq<nat>)
    requires Ring(s, ring, off) && Offsets(s, ring, off) && StoresFront(s, s', v)
    requires off' == off[0 := off[0] + 1] && Ring(s', ring, off')
    ensures Offsets(s', ring, off')
  {
    AdvanceFront(s.blocks[s.frontBlock]);
    assert Count(s'.blocks[ring[0]]) == Count(s.blocks[ring[0]]) - 1;
    hide BlockOk, Dist, Count;
    assert forall j {:trigger s'.blocks[ring[j]]} :: 1 <= j < |ring| ==> s'.blocks[ring[j]] == s.blocks[ring[j]];
    assert forall j :: 1 <= j < |off| ==> off'[j] == off[j];
    forall j {:trigger s'.blocks[ring[j]]} | 0 <= j < |off'| - 1
      ensures off'[j + 1] == off'[j] + Count(s'.blocks[ring[j]])
    {
      assert off[j + 1] == off[j] + Count(s.blocks[ring[j]]);
    }
    hide Ring, StoresFront;
  }

  lemma StoreFrontSlot<T>(s: State<T>, s': State<T>, v: T, i: nat, base: nat)
    requires StoresFront(s, s', v) && i < |s.blocks[s.frontBlock].data|
    requires !IsPending(s.prod, s.frontBlock, s.blocks[s.frontBlock].front)
    requires s.blocks[s.frontBlock].data[i] == Expected(s, s.frontBlock, i, true, base)
    ensures s'.blocks[s.frontBlock].data[i] == Expected(s', s.frontBlock, i, true, base + 1)
  {
    var blk := s.blocks[s.frontBlock];
    AdvanceFront(blk);
    assert s'.blocks[s.frontBlock] == blk.(front := Succ(blk.front, |blk.data|));
  }

  lemma StoreFrontSlots<T>(s: State<T>, s': State<T>, v: T, ring: seq<nat>, off: seq<nat>, off': seq<nat>)
    requires Ring(s, ring, off) && Slots(s, ring, off) && StoresFront(s, s', v)
    requires off' == off[0 := off[0] + 1] && Ring(s', ring, off')
    requires !IsPending(s.prod, s.frontBlock, s.blocks[s.frontBlock].front)
    ensures Slots(s', ring, off')
  {
    hide BlockOk;
    forall j, i | 0 <= j < |ring| && 0 <= i < |s'.blocks[ring[j]].data|
      ensures s'.blocks[ring[j]].data[i]
              == Expected(s', ring[j], i, j < |off'| - 1, if j < |off'| then off'[j] else 0)
    {
      assert s.blocks[ring[j]].data[i]
             == Expected(s, ring[j], i, j < |off| - 1, if j < |off| then off[j] else 0);
      if j == 0 {
        StoreFrontSlot(s, s', v, i, off[0]);
      } else {
        assert s'.blocks[ring[j]] == s.blocks[ring[j]];
      }
    }
  }

  lemma StoreFrontProducer<T>(s: State<T>, s': State<T>, v: T, ring: seq<nat>, off: seq<nat>, off': seq<nat>)
    requires Ring(s, ring, off) && ProducerInv(s, ring, off) && StoresFront(s, s', v)
    requires |off'| == |off| && Ring(s', ring, off') && s'.cfg == s.cfg && s'.peak >= s.peak
    ensures ProducerInv(s', ring, off')
  {
    AdvanceFront(s.blocks[s.frontBlock]);
    hide BlockOk, ProducerInv;
    assert |off| > 2 ==> ring[0] != ring[|off| - 2];
    assert |off| - 1 < |ring| ==> ring[0] != ring[|off| - 1];
    ProducerFrame(s, s', ring, off, ring, off');
  }

  lemma CStoreFrontKeeps<T>(s: State<T>, ring: seq<nat>, off: seq<nat>) returns (off': seq<nat>)
    requires Inv(s, ring, off) && s.cons.CStoreFront? && ConsumerSafe(s)
    ensures Inv(Observe(s, StepConsumer(s)), ring, off')
  {
    hide Linked, Offsets, Slots, Capacity, PeekInv;
    var s' := Observe(s, StepConsumer(s));
    off' := off[0 := off[0] + 1];
    var v, fb := s.cons.v, s.blocks[ring[0]];
    assert BlockOk(fb);
    MaskedSuccessor(s.cons.f, |fb.data|);
    assert StoresFront(s, s', v);
    assert !IsPending(s.prod, s.frontBlock, fb.front);
    hide Ring, ProducerInv, StoresFront, And, BlockOk, Count;
    StoreFrontRing(s, s', v, ring, off, off');
    StoreFrontOffsets(s, s', v, ring, off, off');
    StoreFrontSlots(s, s', v, ring, off, off');
    StoreFrontProducer(s, s', v, ring, off, off');
    SameSizesKeepCapacity(s, s', ring);
    StoreFrontConsumer(s, s', ring, off');
  }

  lemma StoreFrontConsumer<T>(s: State<T>, s': State<T>, ring: seq<nat>, off': seq<nat>)
    requires s.cons.CStoreFront? && ConsumerSafe(s) && s' == Observe(s, StepConsumer(s))
    requires Ring(s', ring, off')
    ensures ConsumerInv(s', ring, off') && PeekInv(s', ring, off')
  {
  }
}
