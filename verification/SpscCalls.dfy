/** The steps of whole calls, as the queue object takes them: what each part of a call does to the blocks,
    and that the ghost copy goes on fitting the object's fields. */
module SpscCalls {
  import opened Bits
  import opened Options
  import C = SpscCapacity
  import I = SpscInvariant
  import Q = SpscSequential
  import R = SpscTheorems
  import S = Spsc

  /** The ghost copy satisfies the invariant and has these block numbers and sizes. */
  ghost predicate Fits<T>(s: S.State<T>, ring: seq<nat>, off: seq<nat>, front: nat, tail: nat, largest: nat, maxBlock: nat) {
    && I.Inv(s, ring, off) && s.deq <= s.enq && s.frontBlock == front && s.tailBlock == tail
    && s.largest == largest && s.cfg.maxBlock == maxBlock
  }

  ghost predicate Quiet<T>(s: S.State<T>) {
    !s.prod.Active() && !s.cons.Active()
  }

  /** The producer's call is over, and its effect on the queue. */
  ghost predicate Ended<T>(s: S.State<T>, s': S.State<T>, xs: seq<T>) {
    && s'.prod == S.PDone(xs != []) && s'.cons == s.cons && s'.cfg == s.cfg
    && s'.enq == s.enq + xs && s'.deq == s.deq
  }

  /** Nothing has entered or left the queue. */
  ghost predicate SameQueue<T>(s: S.State<T>, s': S.State<T>) {
    s'.enq == s.enq && s'.deq == s.deq && s'.cfg == s.cfg
  }

  // ---- enqueue ---------------------------------------------------------------------

  /** The shadow index the test for room leaves behind. */
  function SeenFront<T>(b: S.Block<T>): nat
    requires |b.data| > 0
  {
    if And(b.tail + 1, |b.data| - 1) != b.localFront then b.localFront else b.front
  }

  lemma TestRoom<T>(s: S.State<T>, ring: seq<nat>, off: seq<nat>, x: T, alloc: bool,
                    front: nat, tail: nat, largest: nat, maxBlock: nat)
    returns (s': S.State<T>, ring': seq<nat>, off': seq<nat>)
    requires Fits(s, ring, off, front, tail, largest, maxBlock) && Quiet(s)
    ensures Fits(s', ring', off', front, tail, largest, maxBlock) && SameQueue(s, s') && s'.cons == s.cons
    ensures tail < |s.blocks| && |s.blocks[tail].data| > 0 && s'.peak == S.Held(s')
    ensures var b := s.blocks[tail];
            var n := And(b.tail + 1, |b.data| - 1);
            && s'.blocks == s.blocks[tail := b.(localFront := SeenFront(b))]
            && s'.prod == (if n != SeenFront(b) then S.Construct(x, tail, b.tail, n) else S.LoadNext(x, alloc, tail))
    ensures Tested(s, s') && C.TailFull(s') == s'.prod.LoadNext?
  {
    hide I.Inv, And, C.TailFull;
    s', ring', off' := Q.FindRoom(s, x, alloc, ring, off);
    C.RoomTest(s, ring, off);
    C.RoomTest(s', ring', off');
    if s'.prod.Construct? {
      C.ConstructHasRoom(s', ring', off');
      C.NotFull(s');
    }
  }

  lemma FillHere<T>(s: S.State<T>, ring: seq<nat>, off: seq<nat>, front: nat, tail: nat, largest: nat, maxBlock: nat)
    returns (s': S.State<T>, ring': seq<nat>, off': seq<nat>)
    requires Fits(s, ring, off, front, tail, largest, maxBlock) && s.prod.Construct?
    ensures Fits(s', ring', off', front, tail, largest, maxBlock) && Ended(s, s', [s.prod.x]) && C.TookHere(s, s')
    ensures tail < |s.blocks| && s.prod.t < |s.blocks[tail].data|
    ensures var b := s.blocks[tail];
            s'.blocks == s.blocks[tail := b.(data := b.data[s.prod.t := Some(s.prod.x)], tail := s.prod.n)]
  {
    hide I.Inv, C.TookHere;
    C.ConstructHasRoom(s, ring, off);
    s', ring', off' := Q.FillSlot(s, ring, off);
    C.HereTaken(s, ring, off, s', s'.blocks[tail]);
  }

  /** The tail block is full: is the block after it free, or may one be allocated? */
  lemma TestNext<T>(s: S.State<T>, ring: seq<nat>, off: seq<nat>, front: nat, tail: nat, largest: nat, maxBlock: nat)
    returns (s': S.State<T>, ring': seq<nat>, off': seq<nat>)
    requires Fits(s, ring, off, front, tail, largest, maxBlock) && s.prod.LoadNext? && s.prod.b == tail && s.peak == S.Held(s)
    ensures Fits(s', ring', off', front, tail, largest, maxBlock) && SameQueue(s, s') && s'.cons == s.cons
    ensures s'.blocks == s.blocks && tail < |s.blocks| && s'.peak == S.Held(s')
    ensures s'.tailBlock == s.tailBlock && s'.frontBlock == s.frontBlock
    ensures s'.prod == if s.blocks[tail].next != front then S.ReloadNext(s.prod.x, tail)
                       else if s.prod.alloc then S.Allocate(s.prod.x, tail) else S.PDone(false)
    ensures s.blocks[tail].next == front ==> S.Held(s) >= s.cfg.size && (C.TailFull(s) ==> C.NoneLeft(s, s'))
  {
    hide I.Inv;
    s', ring', off' := Q.CheckNext(s, ring, off);
  }

  /** The record of the next block once `x` is in it. */
  function Begun<T>(b: S.Block<T>, x: T): S.Block<T>
    requires b.tail < |b.data|
  {
    b.(localFront := b.front, data := b.data[b.tail := Some(x)], tail := And(b.tail + 1, |b.data| - 1))
  }

  lemma UseNext<T>(s: S.State<T>, ring: seq<nat>, off: seq<nat>, front: nat, tail: nat, largest: nat, maxBlock: nat, next: nat)
    returns (s': S.State<T>, ring': seq<nat>, off': seq<nat>)
    requires Fits(s, ring, off, front, tail, largest, maxBlock) && C.TailFull(s) && s.blocks[tail].next == next != front
    requires s.prod.ReloadNext? && s.prod.b == tail && s.peak == S.Held(s)
    ensures Fits(s', ring', off', front, next, largest, maxBlock) && Ended(s, s', [s.prod.x]) && C.TookNext(s, s')
    ensures next < |s.blocks| && s.blocks[next].tail == s.blocks[next].front < |s.blocks[next].data|
    ensures s'.blocks == s.blocks[next := Begun(s.blocks[next], s.prod.x)]
  {
    hide I.Inv, And, C.TookNext;
    var s1, r1, o1 := Q.UseNextLoads(s, ring, off);
    s', ring', off' := Q.UseNextStores(s1, r1, o1);
    C.NextTaken(s, ring, off, s', Begun(s.blocks[next], s.prod.x));
  }

  /** The size of the next block to allocate. */
  function NewSize(largest: nat, maxBlock: nat): nat {
    if largest >= maxBlock then largest else largest * 2
  }

  lemma UseNew<T>(s: S.State<T>, ring: seq<nat>, off: seq<nat>, front: nat, tail: nat, largest: nat, maxBlock: nat)
    returns (s': S.State<T>, ring': seq<nat>, off': seq<nat>)
    requires Fits(s, ring, off, front, tail, largest, maxBlock) && s.prod.Allocate? && s.prod.b == tail && s.peak == S.Held(s)
    ensures Fits(s', ring', off', front, |s.blocks|, NewSize(largest, maxBlock), maxBlock) && Ended(s, s', [s.prod.x])
    ensures tail < |s.blocks| && NewSize(largest, maxBlock) > 0
    ensures var b := s.blocks[tail];
            s'.blocks == s.blocks[tail := b.(next := |s.blocks|)]
                         + [Q.BlockHolding(s.prod.x, NewSize(largest, maxBlock), b.next)]
  {
    hide I.Inv, Q.BlockHolding;
    var s1, r1, o1 := Q.AddBlockCreate(s, ring, off);
    s', ring', off' := Q.AddBlockLink(s1, r1, o1);
  }

  lemma Refuse<T>(s: S.State<T>, ring: seq<nat>, off: seq<nat>, front: nat, tail: nat, largest: nat, maxBlock: nat)
    returns (s': S.State<T>, ring': seq<nat>, off': seq<nat>)
    requires Fits(s, ring, off, front, tail, largest, maxBlock) && s.prod.Allocate? && s.peak == S.Held(s)
    ensures Fits(s', ring', off', front, tail, largest, maxBlock) && Ended(s, s', []) && s'.blocks == s.blocks
  {
    hide I.Inv;
    s', ring', off' := Q.AllocationRefused(s, ring, off);
  }

  /** The queued elements, oldest first. */
  ghost function Queued<T>(s: S.State<T>): seq<T> {
    if s.deq <= s.enq then s.enq[|s.deq|..] else []
  }

  /** What the queue holds after an enqueue. */
  lemma QueuedAfter<T>(s: S.State<T>, s1: S.State<T>, s2: S.State<T>, xs: seq<T>)
    requires s.deq <= s.enq && SameQueue(s, s1) && s1.cons == s.cons && Ended(s1, s2, xs) && Quiet(s)
    ensures Queued(s2) == Queued(s) + xs && Quiet(s2) && s2.cfg == s.cfg
  {
    assert (s.enq + xs)[|s.deq|..] == s.enq[|s.deq|..] + xs;
  }

  /** The test for room moved only the shadow index. */
  ghost predicate Tested<T>(s: S.State<T>, s': S.State<T>) {
    && C.SameShape(s, s') && s'.tailBlock == s.tailBlock < |s.blocks| && C.TailFull(s) == C.TailFull(s')
    && I.Count(s'.blocks[s.tailBlock]) == I.Count(s.blocks[s.tailBlock])
  }

  /** An enqueue without allocation takes one from the room, or finds none. */
  lemma RoomAfter<T>(s: S.State<T>, ring: seq<nat>, off: seq<nat>, s1: S.State<T>, s2: S.State<T>, ring2: seq<nat>, off2: seq<nat>, ok: bool)
    requires I.Inv(s, ring, off) && I.Inv(s2, ring2, off2) && Tested(s, s1)
    requires if ok then C.TookHere(s1, s2) || C.TookNext(s1, s2) else C.NoneLeft(s1, s2)
    ensures ok <==> C.RoomOf(s, ring, off) > 0
    ensures C.RoomOf(s2, ring2, off2) == C.RoomOf(s, ring, off) - (if ok then 1 else 0)
  {
    hide I.Inv, I.Count, C.Room;
    if !ok {
      C.RoomWhenRefused(s, ring, off, s2, ring2, off2);
    } else if C.TookHere(s1, s2) {
      C.RoomAfterHere(s, ring, off, s2, ring2, off2);
    } else {
      C.RoomAfterNext(s, ring, off, s2, ring2, off2);
    }
  }

  // ---- dequeue, pop and peek -------------------------------------------------------

  /** Where a search ends: the queue is empty, or the oldest element is in this slot. */
  ghost predicate Searched<T>(s: S.State<T>, k: S.Kind, found: bool, b: nat, f: nat) {
    if !found then s.cons == S.CDone(S.Empty) && s.enq == s.deq
    else if k == S.Peek then !s.cons.Active() && s.peeked == Some((b, f))
    else s.cons == S.CTake(k, b, f) && b == s.frontBlock
  }

  lemma TestFront<T>(s: S.State<T>, ring: seq<nat>, off: seq<nat>, k: S.Kind, front: nat, tail: nat, largest: nat, maxBlock: nat)
    returns (s': S.State<T>, ring': seq<nat>, off': seq<nat>)
    requires Fits(s, ring, off, front, tail, largest, maxBlock) && Quiet(s)
    ensures Fits(s', ring', off', front, tail, largest, maxBlock) && SameQueue(s, s') && s'.prod == s.prod
    ensures front < |s.blocks|
    ensures var b := s.blocks[front];
            var t := if b.front != b.localTail then b.localTail else b.tail;
            && s'.blocks == s.blocks[front := b.(localTail := t)]
            && (if b.front == t then s'.cons == S.CLoadTailBlock(k, front) else Searched(s', k, true, front, b.front))
    ensures s'.sawEmpty == (S.Held(s') == 0)
  {
    hide I.Inv;
    s', ring', off' := Q.FindFront(s, k, ring, off);
  }

  lemma NothingElsewhere<T>(s: S.State<T>, ring: seq<nat>, off: seq<nat>, k: S.Kind, front: nat, tail: nat, largest: nat, maxBlock: nat)
    returns (s': S.State<T>, ring': seq<nat>, off': seq<nat>)
    requires Fits(s, ring, off, front, tail, largest, maxBlock) && front == tail
    requires s.cons == S.CLoadTailBlock(k, front) && s.sawEmpty == (S.Held(s) == 0)
    ensures Fits(s', ring', off', front, tail, largest, maxBlock) && SameQueue(s, s') && s'.prod == s.prod
    ensures s'.blocks == s.blocks && Searched(s', k, false, 0, 0)
  {
    hide I.Inv;
    s', ring', off' := Q.NothingElsewhere(s, ring, off);
  }

  lemma TestAgain<T>(s: S.State<T>, ring: seq<nat>, off: seq<nat>, k: S.Kind, front: nat, tail: nat, largest: nat, maxBlock: nat)
    returns (s': S.State<T>, ring': seq<nat>, off': seq<nat>)
    requires Fits(s, ring, off, front, tail, largest, maxBlock) && front != tail
    requires s.cons == S.CLoadTailBlock(k, front) && s.sawEmpty == (S.Held(s) == 0)
    ensures Fits(s', ring', off', front, tail, largest, maxBlock) && SameQueue(s, s') && s'.prod == s.prod
    ensures front < |s.blocks|
    ensures var b := s.blocks[front];
            && s'.blocks == s.blocks[front := b.(localTail := b.tail)]
            && (if b.front == b.tail then s'.cons == S.CLoadNext(k, front) else Searched(s', k, true, front, b.front))
    ensures s'.sawEmpty == (S.Held(s') == 0)
  {
    hide I.Inv;
    s', ring', off' := Q.LookAgain(s, ring, off);
  }

  lemma MoveOn<T>(s: S.State<T>, ring: seq<nat>, off: seq<nat>, k: S.Kind, front: nat, tail: nat, largest: nat, maxBlock: nat)
    returns (s': S.State<T>, ring': seq<nat>, off': seq<nat>)
    requires Fits(s, ring, off, front, tail, largest, maxBlock) && k != S.Peek
    requires s.cons == S.CLoadNext(k, front) && s.sawEmpty == (S.Held(s) == 0)
    ensures front < |s.blocks| && s.blocks[front].next < |s.blocks|
    ensures var next := s.blocks[front].next;
            var b := s.blocks[next];
            && Fits(s', ring', off', next, tail, largest, maxBlock) && b.front != b.tail
            && s'.blocks == s.blocks[next := b.(localTail := b.tail)] && Searched(s', k, true, next, b.front)
    ensures SameQueue(s, s') && s'.prod == s.prod
  {
    hide I.Inv;
    s', ring', off' := Q.MoveToNext(s, ring, off);
  }

  lemma PeekOn<T>(s: S.State<T>, ring: seq<nat>, off: seq<nat>, front: nat, tail: nat, largest: nat, maxBlock: nat)
    returns (s': S.State<T>, ring': seq<nat>, off': seq<nat>)
    requires Fits(s, ring, off, front, tail, largest, maxBlock)
    requires s.cons == S.CLoadNext(S.Peek, front) && s.sawEmpty == (S.Held(s) == 0)
    ensures front < |s.blocks| && s.blocks[front].next < |s.blocks|
    ensures var next := s.blocks[front].next;
            var b := s.blocks[next];
            && Fits(s', ring', off', front, tail, largest, maxBlock) && b.front != b.tail
            && s'.blocks == s.blocks && Searched(s', S.Peek, true, next, b.front)
    ensures SameQueue(s, s') && s'.prod == s.prod
  {
    hide I.Inv;
    s', ring', off' := Q.PeekNext(s, ring, off);
  }

  /** The first element was taken, or there was none. */
  ghost predicate Took<T>(was: seq<T>, now: seq<T>, r: Option<T>) {
    if was == [] then r == None && now == [] else r == Some(was[0]) && now == was[1..]
  }

  /** The first element was dropped, or there was none. */
  ghost predicate Dropped<T>(was: seq<T>, now: seq<T>, ok: bool) {
    if was == [] then !ok && now == [] else ok && now == was[1..]
  }

  /** What the queue holds after a removal. */
  lemma QueuedAfterTake<T>(s: S.State<T>, s': S.State<T>)
    requires s.deq <= s.enq && |s.deq| < |s.enq| && s'.enq == s.enq && s'.deq == s.deq + [s.enq[|s.deq|]]
    ensures Took(Queued(s), Queued(s'), Some(s.enq[|s.deq|])) && Queued(s) != []
  {
    assert s'.deq <= s'.enq;
    assert s.enq[|s.deq|..][1..] == s.enq[|s.deq| + 1..];
  }

  lemma QueuedWhenSame<T>(s: S.State<T>, s': S.State<T>)
    requires SameQueue(s, s')
    ensures Queued(s') == Queued(s) && (s.enq == s.deq ==> Queued(s) == [])
  {
  }

  lemma PeekedOldest<T>(s: S.State<T>, ring: seq<nat>, off: seq<nat>, b: nat, f: nat, front: nat, tail: nat, largest: nat, maxBlock: nat)
    requires Fits(s, ring, off, front, tail, largest, maxBlock) && Searched(s, S.Peek, true, b, f)
    ensures Queued(s) != [] && b < |s.blocks| && f < |s.blocks[b].data| && s.blocks[b].data[f] == Some(Queued(s)[0])
  {
    hide I.Inv;
    R.PeekedIsOldest(s, ring, off);
  }

  lemma TakeOut<T>(s: S.State<T>, ring: seq<nat>, off: seq<nat>, k: S.Kind, f: nat, front: nat, tail: nat, largest: nat, maxBlock: nat)
    returns (s': S.State<T>, ring': seq<nat>, off': seq<nat>)
    requires Fits(s, ring, off, front, tail, largest, maxBlock) && s.cons == S.CTake(k, front, f)
    ensures Fits(s', ring', off', front, tail, largest, maxBlock) && s'.prod == s.prod && !s'.cons.Active()
    ensures front < |s.blocks| && f < |s.blocks[front].data| && |s.deq| < |s.enq|
    ensures var b := s.blocks[front];
            && b.data[f] == Some(s.enq[|s.deq|])
            && s'.blocks == s.blocks[front := b.(data := b.data[f := None], front := And(f + 1, |b.data| - 1))]
    ensures s'.enq == s.enq && s'.deq == s.deq + [s.enq[|s.deq|]] && s'.cfg == s.cfg
  {
    hide I.Inv, And;
    s', ring', off' := Q.RemoveElement(s, ring, off);
  }
}
