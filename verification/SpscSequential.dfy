/** Whole calls of the queue when the other thread does not move: the same steps as in the
    transition system, described by their net effect on the blocks. */
module SpscSequential {
  import opened Options
  import opened Bits
  import opened Spsc
  import opened SpscInvariant
  import opened SpscTheorems

  /** One step, with the invariant carried along. */
  lemma Take<T>(s: State<T>, e: Event<T>, ring: seq<nat>, off: seq<nat>)
    returns (s': State<T>, ring': seq<nat>, off': seq<nat>)
    requires Inv(s, ring, off) && Enabled(s, e)
    ensures Safe(s) && s' == Observe(s, Act(s, e)) && Inv(s', ring', off') && Safe(s')
  {
    InvSafe(s, ring, off);
    hide Inv, Safe, Act, Observe;
    s' := Observe(s, Act(s, e));
    assert Next(s, e, s');
    ring', off' := StepKeepsInv(s, e, s', ring, off);
    InvSafe(s', ring', off');
  }

  /** `s` with the producer at `p`; nothing was enqueued, so the observations stand. */
  function AtPc<T>(s: State<T>, p: Producer<T>): State<T> {
    s.(prod := p, peak := Held(s), sawEmpty := s.sawEmpty || Held(s) == 0)
  }

  function Put<T>(s: State<T>, b: nat, blk: Block<T>): State<T>
    requires b < |s.blocks|
  {
    s.(blocks := s.blocks[b := blk])
  }

  // ---- enqueue -----------------------------------------------------------------

  lemma BeginEnqueue<T>(s: State<T>, x: T, alloc: bool, ring: seq<nat>, off: seq<nat>)
    returns (s': State<T>, ring': seq<nat>, off': seq<nat>)
    requires Inv(s, ring, off) && !s.prod.Active()
    ensures s' == AtPc(s, LoadTail(x, alloc, s.tailBlock)) && Inv(s', ring', off')
    ensures s.tailBlock < |s.blocks| && |s.blocks[s.tailBlock].data| > 0
  {
    hide Inv;
    var s1, r1, o1 := Take(s, CallEnqueue(x, alloc), ring, off);
    s', ring', off' := Take(s1, ProducerStep, r1, o1);
  }

  lemma DoLoadTail<T>(s: State<T>, ring: seq<nat>, off: seq<nat>)
    returns (s': State<T>, ring': seq<nat>, off': seq<nat>)
    requires Inv(s, ring, off) && s.prod.LoadTail? && s.peak == Held(s)
    ensures Inv(s', ring', off') && s.prod.b < |s.blocks| && |s.blocks[s.prod.b].data| > 0
    ensures var blk := s.blocks[s.prod.b];
            var n := And(blk.tail + 1, |blk.data| - 1);
            s' == AtPc(s, if n != blk.localFront then Construct(s.prod.x, s.prod.b, blk.tail, n)
                        else LoadFront(s.prod.x, s.prod.alloc, s.prod.b, blk.tail, n))
  {
    hide Inv;
    s', ring', off' := Take(s, ProducerStep, ring, off);
  }

  lemma DoLoadFront<T>(s: State<T>, ring: seq<nat>, off: seq<nat>)
    returns (s': State<T>, ring': seq<nat>, off': seq<nat>)
    requires Inv(s, ring, off) && s.prod.LoadFront? && s.peak == Held(s)
    ensures Inv(s', ring', off') && s.prod.b < |s.blocks|
    ensures var (p, blk) := (s.prod, s.blocks[s.prod.b]);
            s' == AtPc(Put(s, p.b, blk.(localFront := blk.front)),
                     if p.n != blk.front then Construct(p.x, p.b, p.t, p.n) else LoadNext(p.x, p.alloc, p.b))
  {
    hide Inv;
    s', ring', off' := Take(s, ProducerStep, ring, off);
  }

  /** The test for room in the tail block, refreshing `localFront` when the shadow copy says no. */
  lemma FindRoom<T>(s: State<T>, x: T, alloc: bool, ring: seq<nat>, off: seq<nat>)
    returns (s': State<T>, ring': seq<nat>, off': seq<nat>)
    requires Inv(s, ring, off) && !s.prod.Active()
    ensures s.tailBlock < |s.blocks| && |s.blocks[s.tailBlock].data| > 0 && Inv(s', ring', off')
    ensures var (b, blk) := (s.tailBlock, s.blocks[s.tailBlock]);
            var n := And(blk.tail + 1, |blk.data| - 1);
            var f := if n != blk.localFront then blk.localFront else blk.front;
            s' == AtPc(Put(s, b, blk.(localFront := f)),
                     if n != f then Construct(x, b, blk.tail, n) else LoadNext(x, alloc, b))
  {
    hide Inv, And, Safe, Act;
    var s1, r1, o1 := BeginEnqueue(s, x, alloc, ring, off);
    var blk := s.blocks[s.tailBlock];
    s', ring', off' := DoLoadTail(s1, r1, o1);
    if s'.prod.LoadFront? {
      s', ring', off' := DoLoadFront(s', ring', off');
    } else {
      assert s.blocks[s.tailBlock := blk.(localFront := blk.localFront)] == s.blocks;
    }
  }

  /** Filling the slot found in the tail block. */
  lemma FillSlot<T>(s: State<T>, ring: seq<nat>, off: seq<nat>)
    returns (s': State<T>, ring': seq<nat>, off': seq<nat>)
    requires Inv(s, ring, off) && s.prod.Construct?
    ensures Inv(s', ring', off') && s.prod.b < |s.blocks| && s.prod.t < |s.blocks[s.prod.b].data|
    ensures var (p, blk) := (s.prod, s.blocks[s.prod.b]);
            s' == Put(s, p.b, blk.(data := blk.data[p.t := Some(p.x)], tail := p.n))
                    .(prod := PDone(true), enq := s.enq + [p.x], peak := s'.peak, sawEmpty := s'.sawEmpty)
  {
    hide Inv;
    var s1, r1, o1 := Take(s, ProducerStep, ring, off);
    s', ring', off' := Take(s1, ProducerStep, r1, o1);
  }

  /** The tail block is full: is the next block free? */
  lemma CheckNext<T>(s: State<T>, ring: seq<nat>, off: seq<nat>)
    returns (s': State<T>, ring': seq<nat>, off': seq<nat>)
    requires Inv(s, ring, off) && s.prod.LoadNext? && s.peak == Held(s)
    ensures Inv(s', ring', off') && s.prod.b < |s.blocks|
    ensures var p := s.prod;
            s' == AtPc(s, if s.blocks[p.b].next != s.frontBlock then ReloadNext(p.x, p.b)
                        else if p.alloc then Allocate(p.x, p.b) else PDone(false))
    ensures s'.prod == PDone(false) || s'.prod.Allocate? ==> Held(s) >= s.cfg.size
  {
    hide Inv;
    var s1, r1, o1 := Take(s, ProducerStep, ring, off);
    s', ring', off' := Take(s1, ProducerStep, r1, o1);
    if s'.prod == PDone(false) || s'.prod.Allocate? {
      RefusalMeansFull(s', ring', off');
    }
  }

  lemma RefusalMeansFull<T>(s: State<T>, ring: seq<nat>, off: seq<nat>)
    requires Inv(s, ring, off) && (s.prod == PDone(false) || s.prod.Allocate?)
    ensures s.peak >= s.cfg.size
  {
    hide Ring, Linked, Offsets, Slots, ConsumerInv, Capacity, PeekInv;
  }

  lemma UseNextLoads<T>(s: State<T>, ring: seq<nat>, off: seq<nat>)
    returns (s': State<T>, ring': seq<nat>, off': seq<nat>)
    requires Inv(s, ring, off) && s.prod.ReloadNext? && s.peak == Held(s)
    ensures Inv(s', ring', off') && s.prod.b < |s.blocks| && s.blocks[s.prod.b].next < |s.blocks|
    ensures var (p, nx) := (s.prod, s.blocks[s.prod.b].next);
            var blk := s.blocks[nx];
            blk.front == blk.tail
            && s' == AtPc(Put(s, nx, blk.(localFront := blk.front)), ConstructNext(p.x, nx, blk.tail))
  {
    hide Inv;
    var s1, r1, o1 := Take(s, ProducerStep, ring, off);
    var s2, r2, o2 := Take(s1, ProducerStep, r1, o1);
    s', ring', off' := Take(s2, ProducerStep, r2, o2);
  }

  lemma UseNextStores<T>(s: State<T>, ring: seq<nat>, off: seq<nat>)
    returns (s': State<T>, ring': seq<nat>, off': seq<nat>)
    requires Inv(s, ring, off) && s.prod.ConstructNext?
    ensures Inv(s', ring', off') && s.prod.nx < |s.blocks| && s.prod.t < |s.blocks[s.prod.nx].data|
    ensures var (p, blk) := (s.prod, s.blocks[s.prod.nx]);
            s' == Put(s, p.nx, blk.(data := blk.data[p.t := Some(p.x)], tail := And(p.t + 1, |blk.data| - 1)))
                    .(tailBlock := p.nx, prod := PDone(true), enq := s.enq + [p.x],
                      peak := s'.peak, sawEmpty := s'.sawEmpty)
  {
    hide Inv;
    var s1, r1, o1 := Take(s, ProducerStep, ring, off);
    var s2, r2, o2 := Take(s1, ProducerStep, r1, o1);
    s', ring', off' := Take(s2, ProducerStep, r2, o2);
  }

  function BlockHolding<T>(x: T, capacity: nat, next: nat): Block<T>
    requires capacity > 0
  {
    Block(MakeBlock<T>(capacity, 0).data[0 := Some(x)], 0, 1, 1, 0, next)
  }

  lemma AddBlockCreate<T>(s: State<T>, ring: seq<nat>, off: seq<nat>)
    returns (s': State<T>, ring': seq<nat>, off': seq<nat>)
    requires Inv(s, ring, off) && s.prod.Allocate? && s.peak == Held(s)
    ensures Inv(s', ring', off') && s.prod.b < |s.blocks|
    ensures var size := if s.largest >= s.cfg.maxBlock then s.largest else s.largest * 2;
            size > 0
            && s' == AtPc(s.(blocks := s.blocks + [BlockHolding(s.prod.x, size, s.blocks[s.prod.b].next)], largest := size),
                        LinkTail(s.prod.x, s.prod.b, |s.blocks|))
  {
    hide Inv, StepConsumer, BlockHolding;
    SameLength(s, ring, off);
    var s1, r1, o1 := CreateBlock(s, ring, off);
    s', ring', off' := Take(s1, ProducerStep, r1, o1);
    var size := s1.largest;
    Relink(s.prod.x, size, s.blocks[s.prod.b].next);
    assert s'.blocks == s.blocks + [BlockHolding(s.prod.x, size, s.blocks[s.prod.b].next)];
  }

  /** The new block with its first element, not yet linked. */
  lemma CreateBlock<T>(s: State<T>, ring: seq<nat>, off: seq<nat>)
    returns (s': State<T>, ring': seq<nat>, off': seq<nat>)
    requires Inv(s, ring, off) && s.prod.Allocate? && s.peak == Held(s)
    ensures Inv(s', ring', off')
    ensures var size := if s.largest >= s.cfg.maxBlock then s.largest else s.largest * 2;
            size > 0
            && s' == AtPc(s.(blocks := s.blocks + [BlockHolding(s.prod.x, size, 0)], largest := size),
                        LinkNew(s.prod.x, s.prod.b, |s.blocks|))
  {
    hide Inv, StepConsumer;
    var s1, r1, o1 := Take(s, ProducerStep, ring, off);
    s', ring', off' := Take(s1, ProducerStep, r1, o1);
    assert s'.blocks == s.blocks + [BlockHolding(s.prod.x, s1.largest, 0)];
  }

  lemma Relink<T>(x: T, capacity: nat, next: nat)
    requires capacity > 0
    ensures BlockHolding(x, capacity, 0).(next := next) == BlockHolding(x, capacity, next)
  {
  }

  lemma SameLength<T>(s: State<T>, ring: seq<nat>, off: seq<nat>)
    requires Inv(s, ring, off) && s.prod.Allocate?
    ensures s.prod.b < |s.blocks|
  {
    hide Linked, Offsets, Slots, ConsumerInv, Capacity, PeekInv;
  }

  lemma AddBlockLink<T>(s: State<T>, ring: seq<nat>, off: seq<nat>)
    returns (s': State<T>, ring': seq<nat>, off': seq<nat>)
    requires Inv(s, ring, off) && s.prod.LinkTail?
    ensures Inv(s', ring', off') && s.prod.b < |s.blocks|
    ensures s' == Put(s, s.prod.b, s.blocks[s.prod.b].(next := s.prod.nx))
                    .(tailBlock := s.prod.nx, prod := PDone(true), enq := s.enq + [s.prod.x],
                      peak := s'.peak, sawEmpty := s'.sawEmpty)
  {
    hide Inv;
    var s1, r1, o1 := Take(s, ProducerStep, ring, off);
    s', ring', off' := Take(s1, ProducerStep, r1, o1);
  }

  lemma AllocationRefused<T>(s: State<T>, ring: seq<nat>, off: seq<nat>)
    returns (s': State<T>, ring': seq<nat>, off': seq<nat>)
    requires Inv(s, ring, off) && s.prod.Allocate? && s.peak == Held(s)
    ensures Inv(s', ring', off') && s' == AtPc(s, PDone(false))
  {
    hide Inv;
    s', ring', off' := Take(s, AllocationFails, ring, off);
  }

  // ---- dequeue, pop and peek -------------------------------------------------------

  /** `s` with the consumer at `c`; nothing was removed, so the queue is empty now if it ever was
      during the call. */
  ghost predicate Reaches<T>(s: State<T>, s': State<T>) {
    s' == s.(cons := s'.cons, peeked := s'.peeked, peak := s'.peak, sawEmpty := Held(s) == 0)
  }

  lemma BeginDequeue<T>(s: State<T>, k: Kind, ring: seq<nat>, off: seq<nat>)
    returns (s': State<T>, ring': seq<nat>, off': seq<nat>)
    requires Inv(s, ring, off) && !s.cons.Active()
    ensures Reaches(s, s') && s'.cons == CLoadFront(k, s.frontBlock) && Inv(s', ring', off')
    ensures s'.peeked == s.peeked && s.frontBlock < |s.blocks|
  {
    hide Inv;
    var s1, r1, o1 := Take(s, CallConsumer(k), ring, off);
    s', ring', off' := Take(s1, ConsumerStep, r1, o1);
  }

  /** The test for an element in the front block, refreshing `localTail` when the shadow copy says no. */
  lemma FindFront<T>(s: State<T>, k: Kind, ring: seq<nat>, off: seq<nat>)
    returns (s': State<T>, ring': seq<nat>, off': seq<nat>)
    requires Inv(s, ring, off) && !s.cons.Active()
    ensures s.frontBlock < |s.blocks| && Inv(s', ring', off')
    ensures var (b, blk) := (s.frontBlock, s.blocks[s.frontBlock]);
            var t := if blk.front != blk.localTail then blk.localTail else blk.tail;
            Reaches(Put(s, b, blk.(localTail := t)), s')
            && s'.cons == (if blk.front == t then CLoadTailBlock(k, b)
                           else if k == Peek then CDone(At(b, blk.front)) else CTake(k, b, blk.front))
            && (s'.cons.CDone? ==> s'.peeked == Some((b, blk.front)))
  {
    hide Inv;
    var s1, r1, o1 := BeginDequeue(s, k, ring, off);
    var blk := s.blocks[s.frontBlock];
    s', ring', off' := Take(s1, ConsumerStep, r1, o1);
    if s'.cons.CLoadTail? {
      s', ring', off' := Take(s', ConsumerStep, ring', off');
    } else {
      assert s.blocks[s.frontBlock := blk.(localTail := blk.localTail)] == s.blocks;
    }
  }

  /** Front block empty and nowhere else to look: the queue is empty. */
  lemma NothingElsewhere<T>(s: State<T>, ring: seq<nat>, off: seq<nat>)
    returns (s': State<T>, ring': seq<nat>, off': seq<nat>)
    requires Inv(s, ring, off) && s.cons.CLoadTailBlock? && s.cons.b == s.tailBlock && s.sawEmpty == (Held(s) == 0)
    ensures Inv(s', ring', off') && Reaches(s, s') && s'.cons == CDone(Empty) && Held(s) == 0
  {
    hide Inv;
    s', ring', off' := Take(s, ConsumerStep, ring, off);
    EmptyMeansSawEmpty(s', ring', off');
  }

  lemma EmptyMeansSawEmpty<T>(s: State<T>, ring: seq<nat>, off: seq<nat>)
    requires Inv(s, ring, off) && s.cons == CDone(Empty)
    ensures s.sawEmpty
  {
    hide Ring, Linked, Offsets, Slots, ProducerInv, Capacity, PeekInv;
  }

  /** The tail block has moved on: look at the front block once more. */
  lemma LookAgain<T>(s: State<T>, ring: seq<nat>, off: seq<nat>)
    returns (s': State<T>, ring': seq<nat>, off': seq<nat>)
    requires Inv(s, ring, off) && s.cons.CLoadTailBlock? && s.cons.b != s.tailBlock && s.sawEmpty == (Held(s) == 0)
    ensures s.frontBlock < |s.blocks| && Inv(s', ring', off')
    ensures var (k, b, blk) := (s.cons.k, s.frontBlock, s.blocks[s.frontBlock]);
            Reaches(Put(s, b, blk.(localTail := blk.tail)), s')
            && s'.cons == (if blk.front == blk.tail then CLoadNext(k, b)
                           else if k == Peek then CDone(At(b, blk.front)) else CTake(k, b, blk.front))
            && (s'.cons.CDone? ==> s'.peeked == Some((b, blk.front)))
  {
    hide Inv;
    var s1, r1, o1 := Take(s, ConsumerStep, ring, off);
    var s2, r2, o2 := Take(s1, ConsumerStep, r1, o1);
    var s3, r3, o3 := Take(s2, ConsumerStep, r2, o2);
    s', ring', off' := Take(s3, ConsumerStep, r3, o3);
  }

  /** Front block drained and left behind. */
  lemma MoveToNext<T>(s: State<T>, ring: seq<nat>, off: seq<nat>)
    returns (s': State<T>, ring': seq<nat>, off': seq<nat>)
    requires Inv(s, ring, off) && s.cons.CLoadNext? && s.cons.k != Peek && s.sawEmpty == (Held(s) == 0)
    ensures s.cons.b < |s.blocks| && s.blocks[s.cons.b].next < |s.blocks| && Inv(s', ring', off')
    ensures var nx := s.blocks[s.cons.b].next;
            var blk := s.blocks[nx];
            blk.front != blk.tail
            && Reaches(Put(s, nx, blk.(localTail := blk.tail)).(frontBlock := nx), s')
            && s'.cons == CTake(s.cons.k, nx, blk.front)
  {
    hide Inv;
    var s1, r1, o1 := Take(s, ConsumerStep, ring, off);
    var s2, r2, o2 := Take(s1, ConsumerStep, r1, o1);
    var s3, r3, o3 := Take(s2, ConsumerStep, r2, o2);
    s', ring', off' := Take(s3, ConsumerStep, r3, o3);
  }

  lemma PeekNext<T>(s: State<T>, ring: seq<nat>, off: seq<nat>)
    returns (s': State<T>, ring': seq<nat>, off': seq<nat>)
    requires Inv(s, ring, off) && s.cons.CLoadNext? && s.cons.k == Peek && s.sawEmpty == (Held(s) == 0)
    ensures s.cons.b < |s.blocks| && s.blocks[s.cons.b].next < |s.blocks| && Inv(s', ring', off')
    ensures var nx := s.blocks[s.cons.b].next;
            s.blocks[nx].front != s.blocks[nx].tail
            && Reaches(s, s') && s'.cons == CDone(At(nx, s.blocks[nx].front))
            && s'.peeked == Some((nx, s.blocks[nx].front))
  {
    hide Inv;
    var s1, r1, o1 := Take(s, ConsumerStep, ring, off);
    var s2, r2, o2 := Take(s1, ConsumerStep, r1, o1);
    s', ring', off' := Take(s2, ConsumerStep, r2, o2);
  }

  /** Taking the element out of its slot and giving the slot up. */
  lemma RemoveElement<T>(s: State<T>, ring: seq<nat>, off: seq<nat>)
    returns (s': State<T>, ring': seq<nat>, off': seq<nat>)
    requires Inv(s, ring, off) && s.cons.CTake?
    ensures s.cons.b < |s.blocks| && s.cons.f < |s.blocks[s.cons.b].data| && Inv(s', ring', off')
    ensures |s.deq| < |s.enq| && s.blocks[s.cons.b].data[s.cons.f] == Some(s.enq[|s.deq|])
    ensures var (c, blk) := (s.cons, s.blocks[s.cons.b]);
            s' == Put(s, c.b, blk.(data := blk.data[c.f := None], front := And(c.f + 1, |blk.data| - 1)))
                    .(cons := s'.cons, deq := s.deq + [s.enq[|s.deq|]],
                      peeked := None, peak := s'.peak, sawEmpty := s'.sawEmpty)
            && !s'.cons.Active()
  {
    hide Inv;
    ConsumerCannotFail(s, ring, off);
    var s1, r1, o1 := Take(s, ConsumerStep, ring, off);
    s', ring', off' := Take(s1, ConsumerStep, r1, o1);
  }
}
