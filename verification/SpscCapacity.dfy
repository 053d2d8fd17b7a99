/** Going round the ring of blocks: how many elements it holds, how many it has room for, and how many
    more can be enqueued without allocating. */
module SpscCapacity {
  import opened Bits
  import S = Spsc
  import I = SpscInvariant

  /** A wrapping 64-bit subtraction, masked to the block's size. */
  function Between(front: nat, tail: nat, size: nat): nat
    requires front < WORD && size > 0
  {
    And((tail - front + WORD) % WORD, size - 1)
  }

  /** The number of elements in the first `j` blocks of the ring. */
  ghost function Before(off: seq<nat>, j: nat): int
    requires |off| >= 2
  {
    var reached: int := off[if j < |off| then j else |off| - 1];
    reached - off[0]
  }

  /** The number of elements the first `j` blocks of the ring have room for. */
  ghost function Slots<T>(s: S.State<T>, ring: seq<nat>, j: nat): int {
    if j == 0 || j > |ring| || ring[j - 1] >= |s.blocks| then 0
    else Slots(s, ring, j - 1) + I.Full(s.blocks[ring[j - 1]])
  }

  /** The number of elements that can still be enqueued without allocating: what is left in the tail block
      and all of the blocks between it and the front block. */
  ghost function Room<T>(s: S.State<T>, ring: seq<nat>, off: seq<nat>): int
    requires |off| >= 2 && s.tailBlock < |s.blocks|
  {
    Slots(s, ring, |ring|) - Slots(s, ring, |off| - 2) - I.Count(s.blocks[s.tailBlock])
  }

  ghost function RoomOf<T>(s: S.State<T>, ring: seq<nat>, off: seq<nat>): int {
    if |off| >= 2 && s.tailBlock < |s.blocks| then Room(s, ring, off) else 0
  }

  // ---- once round the ring ---------------------------------------------------------

  lemma RingBegins<T>(s: S.State<T>, ring: seq<nat>, off: seq<nat>)
    requires I.Inv(s, ring, off)
    ensures 2 <= |off| <= |ring| + 1 && ring[0] == s.frontBlock < |s.blocks|
    ensures ring[|off| - 2] == s.tailBlock < |s.blocks|
    ensures Before(off, 0) == 0 && Before(off, |ring|) == S.Held(s) && Slots(s, ring, 0) == 0
  {
    hide I.Linked, I.Slots, I.ProducerInv, I.ConsumerInv, I.Capacity, I.PeekInv;
  }

  lemma SmallBlock<T>(s: S.State<T>, ring: seq<nat>, off: seq<nat>, j: nat)
    requires I.Inv(s, ring, off) && j < |ring|
    ensures ring[j] < |s.blocks| && I.BlockOk(s.blocks[ring[j]]) && |s.blocks[ring[j]].data| <= WORD
  {
    hide I.Linked, I.Offsets, I.Slots, I.ProducerInv, I.ConsumerInv, I.PeekInv;
    assert |s.blocks[ring[j]].data| <= 2 * s.cfg.maxBlock;
  }

  /** The elements of block `j`, in terms of the offsets. */
  lemma BlockCount<T>(s: S.State<T>, ring: seq<nat>, off: seq<nat>, j: nat)
    requires I.Inv(s, ring, off) && !s.prod.Active() && j < |ring|
    ensures ring[j] < |s.blocks| && |off| >= 2
    ensures I.Count(s.blocks[ring[j]]) == Before(off, j + 1) - Before(off, j)
  {
    hide I.Linked, I.Slots, I.ProducerInv, I.ConsumerInv, I.Capacity, I.PeekInv, I.BlockOk, I.Count;
    var c := I.Count(s.blocks[ring[j]]);
    if j < |off| - 1 {
      assert off[j + 1] == off[j] + c;
    } else {
      assert c == 0;
    }
  }

  lemma BlockSize<T>(s: S.State<T>, ring: seq<nat>, off: seq<nat>, j: nat)
    requires I.Inv(s, ring, off) && !s.prod.Active() && j < |ring|
    ensures ring[j] < |s.blocks| && |off| >= 2
    ensures var blk := s.blocks[ring[j]];
            |blk.data| > 0 && blk.front < WORD
            && Between(blk.front, blk.tail, |blk.data|) == Before(off, j + 1) - Before(off, j) >= 0
            && Slots(s, ring, j + 1) == Slots(s, ring, j) + (|blk.data| - 1)
  {
    hide I.Inv, Before, And;
    SmallBlock(s, ring, off, j);
    BlockCount(s, ring, off, j);
    var blk := s.blocks[ring[j]];
    MaskedDifference(blk.front, blk.tail, |blk.data|);
  }

  lemma NextInRing<T>(s: S.State<T>, ring: seq<nat>, off: seq<nat>, j: nat)
    requires I.Inv(s, ring, off) && j < |ring|
    ensures ring[j] < |s.blocks|
    ensures var next := s.blocks[ring[j]].next;
            next == ring[if j + 1 == |ring| then 0 else j + 1] && (next == s.frontBlock <==> j + 1 == |ring|)
  {
    hide I.Offsets, I.Slots, I.ProducerInv, I.ConsumerInv, I.Capacity, I.PeekInv, I.BlockOk;
    assert s.blocks[ring[j]].next == ring[I.Succ(j, |ring|)];
  }

  lemma {:induction false} SlotsHold<T>(s: S.State<T>, ring: seq<nat>, off: seq<nat>, j: nat)
    requires I.Inv(s, ring, off) && !s.prod.Active() && j <= |ring|
    ensures |off| >= 2 && Before(off, j) <= Slots(s, ring, j)
  {
    hide I.Inv;
    RingBegins(s, ring, off);
    if j > 0 {
      SlotsHold(s, ring, off, j - 1);
      SmallBlock(s, ring, off, j - 1);
      BlockCount(s, ring, off, j - 1);
    }
  }

  lemma {:induction false} SlotsAtLeast<T>(s: S.State<T>, ring: seq<nat>, off: seq<nat>, least: nat, j: nat)
    requires I.Inv(s, ring, off) && j <= |ring|
    requires forall b :: 0 <= b < |s.blocks| ==> I.Full(s.blocks[b]) >= least
    ensures Slots(s, ring, j) >= j * least
  {
    hide I.Inv;
    if j > 0 {
      SlotsAtLeast(s, ring, off, least, j - 1);
      SmallBlock(s, ring, off, j - 1);
      Distribute(least, j, 1);
      assert least * j == j * least && least * (j - 1) == (j - 1) * least;
    }
  }

  lemma EnoughSlots<T>(s: S.State<T>, ring: seq<nat>, off: seq<nat>)
    requires I.Inv(s, ring, off) && !s.prod.Active()
    ensures Slots(s, ring, |ring|) >= s.cfg.size && Slots(s, ring, |ring|) >= S.Held(s)
  {
    assert I.Capacity(s, ring);
    hide I.Inv;
    SlotsHold(s, ring, off, |ring|);
    RingBegins(s, ring, off);
    SlotsPromised(s, ring, off);
  }

  lemma SlotsPromised<T>(s: S.State<T>, ring: seq<nat>, off: seq<nat>)
    requires I.Inv(s, ring, off) && I.Capacity(s, ring)
    ensures Slots(s, ring, |ring|) >= s.cfg.size
  {
    hide I.Inv, Slots, IsPow2;
    if s.largest > s.cfg.size && forall b :: 0 <= b < |s.blocks| ==> I.Full(s.blocks[b]) >= s.cfg.size {
      SlotsAtLeast(s, ring, off, s.cfg.size, |ring|);
      Multiples(|ring|, s.cfg.size);
    } else {
      SlotsAtLeast(s, ring, off, s.cfg.maxBlock - 1, |ring|);
      Multiples(|ring|, s.cfg.maxBlock - 1);
    }
  }

  lemma Multiples(n: nat, k: nat)
    requires n >= 1
    ensures n * k >= k && n * k >= (n - 1) * k
  {
  }

  // ---- room without allocation -----------------------------------------------------

  lemma {:induction false} SlotsGrow<T>(s: S.State<T>, ring: seq<nat>, off: seq<nat>, j: nat, k: nat)
    requires I.Inv(s, ring, off) && j <= k <= |ring|
    ensures Slots(s, ring, k) >= Slots(s, ring, j) + (k - j)
    decreases k
  {
    hide I.Inv;
    if j < k {
      SlotsGrow(s, ring, off, j, k - 1);
      SmallBlock(s, ring, off, k - 1);
    }
  }

  /** Room is what is left in the tail block and what the blocks after it can take. */
  lemma RoomParts<T>(s: S.State<T>, ring: seq<nat>, off: seq<nat>)
    requires I.Inv(s, ring, off)
    ensures 2 <= |off| <= |ring| + 1 && s.tailBlock < |s.blocks|
    ensures var tb := s.blocks[s.tailBlock];
            0 <= I.Count(tb) <= I.Full(tb)
            && Room(s, ring, off) == I.Full(tb) - I.Count(tb) + (Slots(s, ring, |ring|) - Slots(s, ring, |off| - 1))
    ensures Slots(s, ring, |ring|) - Slots(s, ring, |off| - 1) >= |ring| - (|off| - 1)
    ensures s.blocks[s.tailBlock].next == s.frontBlock <==> |off| - 1 == |ring|
  {
    hide I.Inv;
    RingBegins(s, ring, off);
    SmallBlock(s, ring, off, |off| - 2);
    NextInRing(s, ring, off, |off| - 2);
    SlotsGrow(s, ring, off, |off| - 1, |ring|);
  }

  /** An empty queue has room for everything its blocks can take. */
  lemma RoomWhenEmpty<T>(s: S.State<T>, ring: seq<nat>, off: seq<nat>)
    requires I.Inv(s, ring, off) && !s.prod.Active() && s.enq == s.deq
    ensures |off| >= 2 && s.tailBlock < |s.blocks| && Room(s, ring, off) == Slots(s, ring, |ring|)
  {
    RingBegins(s, ring, off);
    assert |off| > 2 ==> I.Count(s.blocks[ring[|off| - 2]]) >= 1;
    I.OffsetsGrow(s, ring, off, 0, |off| - 2);
    BlockCount(s, ring, off, |off| - 2);
    hide I.Inv, Slots;
  }

  /** Blocks keep their sizes and links, and the front block stays. */
  ghost predicate SameShape<T>(s: S.State<T>, s': S.State<T>) {
    && s'.frontBlock == s.frontBlock && |s'.blocks| == |s.blocks|
    && forall b {:trigger s'.blocks[b]} :: 0 <= b < |s.blocks| ==>
         |s'.blocks[b].data| == |s.blocks[b].data| && s'.blocks[b].next == s.blocks[b].next
  }

  lemma {:induction false} SamePlace<T>(s: S.State<T>, ring: seq<nat>, off: seq<nat>, s': S.State<T>, ring': seq<nat>, off': seq<nat>, j: nat)
    requires I.Inv(s, ring, off) && I.Inv(s', ring', off') && SameShape(s, s') && j < |ring| && j < |ring'|
    ensures ring[j] == ring'[j]
  {
    hide I.Inv;
    RingBegins(s, ring, off);
    RingBegins(s', ring', off');
    if j > 0 {
      SamePlace(s, ring, off, s', ring', off', j - 1);
      NextInRing(s, ring, off, j - 1);
      NextInRing(s', ring', off', j - 1);
      assert s'.blocks[ring[j - 1]].next == s.blocks[ring[j - 1]].next;
    }
  }

  /** The ring is determined by the links. */
  lemma SameRing<T>(s: S.State<T>, ring: seq<nat>, off: seq<nat>, s': S.State<T>, ring': seq<nat>, off': seq<nat>)
    requires I.Inv(s, ring, off) && I.Inv(s', ring', off') && SameShape(s, s')
    ensures ring == ring'
  {
    hide I.Inv;
    RingBegins(s, ring, off);
    RingBegins(s', ring', off');
    forall j | 0 <= j < |ring| && j < |ring'| ensures ring[j] == ring'[j] {
      SamePlace(s, ring, off, s', ring', off', j);
    }
    var m := if |ring| < |ring'| then |ring| else |ring'|;
    NextInRing(s, ring, off, m - 1);
    NextInRing(s', ring', off', m - 1);
    assert s'.blocks[ring[m - 1]].next == s.blocks[ring[m - 1]].next;
  }

  lemma {:induction false} SameSlots<T>(s: S.State<T>, s': S.State<T>, ring: seq<nat>, j: nat)
    requires SameShape(s, s') && j <= |ring|
    ensures Slots(s', ring, j) == Slots(s, ring, j)
  {
    if j > 0 {
      SameSlots(s, s', ring, j - 1);
      assert ring[j - 1] < |s.blocks| ==> |s'.blocks[ring[j - 1]].data| == |s.blocks[ring[j - 1]].data|;
    }
  }

  lemma PlaceInRing<T>(s: S.State<T>, ring: seq<nat>, off: seq<nat>, i: nat, j: nat)
    requires I.Inv(s, ring, off) && i < |ring| && j < |ring| && ring[i] == ring[j]
    ensures i == j
  {
    hide I.Linked, I.Offsets, I.Slots, I.ProducerInv, I.ConsumerInv, I.PeekInv, I.Capacity, I.BlockOk;
  }

  // ---- what one enqueue does to the room -------------------------------------------

  /** The tail block took one more element. */
  ghost predicate TookHere<T>(s: S.State<T>, s': S.State<T>) {
    && SameShape(s, s') && s'.tailBlock == s.tailBlock < |s.blocks|
    && I.Count(s'.blocks[s.tailBlock]) == I.Count(s.blocks[s.tailBlock]) + 1
  }

  ghost predicate TailFull<T>(s: S.State<T>) {
    s.tailBlock < |s.blocks| && I.Count(s.blocks[s.tailBlock]) == I.Full(s.blocks[s.tailBlock])
  }

  /** The tail block was full and the free block after it took the element. */
  ghost predicate TookNext<T>(s: S.State<T>, s': S.State<T>) {
    && SameShape(s, s') && TailFull(s)
    && s'.tailBlock == s.blocks[s.tailBlock].next < |s.blocks| && s'.tailBlock != s.frontBlock
    && I.Count(s'.blocks[s'.tailBlock]) == 1
  }

  /** The tail block was full and followed by the front block. */
  ghost predicate NoneLeft<T>(s: S.State<T>, s': S.State<T>) {
    && SameShape(s, s') && TailFull(s) && s'.tailBlock == s.tailBlock && s.blocks[s.tailBlock].next == s.frontBlock
    && I.Count(s'.blocks[s.tailBlock]) == I.Count(s.blocks[s.tailBlock])
  }

  lemma RoomAfterHere<T>(s: S.State<T>, ring: seq<nat>, off: seq<nat>, s': S.State<T>, ring': seq<nat>, off': seq<nat>)
    requires I.Inv(s, ring, off) && I.Inv(s', ring', off') && TookHere(s, s')
    ensures |off| >= 2 && |off'| >= 2 && Room(s', ring', off') == Room(s, ring, off) - 1 >= 0
  {
    hide I.Inv, Slots, I.Count;
    SameRing(s, ring, off, s', ring', off');
    RingBegins(s, ring, off);
    RingBegins(s', ring', off');
    PlaceInRing(s, ring, off, |off| - 2, |off'| - 2);
    SameSlots(s, s', ring, |ring|);
    SameSlots(s, s', ring, |off| - 2);
    RoomParts(s', ring', off');
  }

  lemma RoomAfterNext<T>(s: S.State<T>, ring: seq<nat>, off: seq<nat>, s': S.State<T>, ring': seq<nat>, off': seq<nat>)
    requires I.Inv(s, ring, off) && I.Inv(s', ring', off') && TookNext(s, s')
    ensures |off| >= 2 && |off'| >= 2 && Room(s', ring', off') == Room(s, ring, off) - 1 >= 0
  {
    hide I.Inv, Slots, I.Count;
    SameRing(s, ring, off, s', ring', off');
    RoomParts(s, ring, off);
    RoomParts(s', ring', off');
    RingBegins(s, ring, off);
    RingBegins(s', ring', off');
    NextInRing(s, ring, off, |off| - 2);
    PlaceInRing(s, ring, off, |off| - 1, |off'| - 2);
    SameSlots(s, s', ring, |ring|);
    SameSlots(s, s', ring, |off| - 1);
  }

  lemma RoomWhenRefused<T>(s: S.State<T>, ring: seq<nat>, off: seq<nat>, s': S.State<T>, ring': seq<nat>, off': seq<nat>)
    requires I.Inv(s, ring, off) && I.Inv(s', ring', off') && NoneLeft(s, s')
    ensures |off| >= 2 && |off'| >= 2 && s'.tailBlock < |s'.blocks| && Room(s', ring', off') == Room(s, ring, off) == 0
  {
    hide I.Inv, Slots, I.Count;
    SameRing(s, ring, off, s', ring', off');
    RoomParts(s, ring, off);
    RingBegins(s, ring, off);
    RingBegins(s', ring', off');
    PlaceInRing(s, ring, off, |off| - 2, |off'| - 2);
    SameSlots(s, s', ring, |ring|);
    SameSlots(s, s', ring, |off| - 2);
  }

  // ---- counting one block ----------------------------------------------------------

  /** The masked successor of `tail` meets `front` exactly when the block is full; otherwise storing it as
      the new tail adds one. */
  lemma CountStep<T>(b: S.Block<T>)
    requires I.BlockOk(b)
    ensures And(b.tail + 1, |b.data| - 1) == b.front <==> I.Count(b) == I.Full(b)
    ensures And(b.tail + 1, |b.data| - 1) < |b.data|
    ensures I.Count(b) < I.Full(b) ==>
              I.Dist(|b.data|, b.front, And(b.tail + 1, |b.data| - 1)) == I.Count(b) + 1
  {
    hide And;
    MaskedSuccessor(b.tail, |b.data|);
  }

  lemma TailBlockOk<T>(s: S.State<T>, ring: seq<nat>, off: seq<nat>)
    requires I.Inv(s, ring, off)
    ensures s.tailBlock < |s.blocks| && forall b :: 0 <= b < |s.blocks| ==> I.BlockOk(s.blocks[b])
  {
    hide I.Linked, I.Offsets, I.Slots, I.ProducerInv, I.ConsumerInv, I.PeekInv, I.Capacity, I.BlockOk;
  }

  /** In a state that is about to construct, the tail block has room (the shadow index may lag, but only
      on the safe side). */
  lemma ConstructHasRoom<T>(s: S.State<T>, ring: seq<nat>, off: seq<nat>)
    requires I.Inv(s, ring, off) && s.prod.Construct?
    ensures s.prod.b == s.tailBlock < |s.blocks| && I.Count(s.blocks[s.tailBlock]) < I.Full(s.blocks[s.tailBlock])
    ensures s.prod.n == I.Succ(s.prod.t, |s.blocks[s.tailBlock].data|) && s.prod.t == s.blocks[s.tailBlock].tail
    ensures s.prod.t < |s.blocks[s.tailBlock].data|
  {
    hide I.Linked, I.Offsets, I.Slots, I.ConsumerInv, I.PeekInv, I.Capacity;
    assert I.BlockOk(s.blocks[s.tailBlock]);
  }

  /** Filling the slot found in the tail block. */
  lemma HereTaken<T>(s: S.State<T>, ring: seq<nat>, off: seq<nat>, s': S.State<T>, m: S.Block<T>)
    requires I.Inv(s, ring, off) && s.prod.Construct? && s'.frontBlock == s.frontBlock && s'.tailBlock == s.tailBlock
    requires s.tailBlock < |s.blocks| && s'.blocks == s.blocks[s.tailBlock := m]
    requires var b := s.blocks[s.tailBlock];
             |m.data| == |b.data| && m.next == b.next && m.front == b.front && m.tail == s.prod.n
    ensures TookHere(s, s')
  {
    hide I.Inv;
    ConstructHasRoom(s, ring, off);
    TailBlockOk(s, ring, off);
    CountStep(s.blocks[s.tailBlock]);
  }

  /** Filling the first slot of the free block after the tail block. */
  lemma NextTaken<T>(s: S.State<T>, ring: seq<nat>, off: seq<nat>, s': S.State<T>, m: S.Block<T>)
    requires I.Inv(s, ring, off) && TailFull(s) && s'.frontBlock == s.frontBlock
    requires var nx := s.blocks[s.tailBlock].next;
             && nx == s'.tailBlock < |s.blocks| && nx != s.frontBlock && s'.blocks == s.blocks[nx := m]
             && var b := s.blocks[nx];
                && |m.data| == |b.data| > 0 && m.next == b.next && b.front == b.tail == m.front
                && m.tail == And(b.tail + 1, |b.data| - 1)
    ensures TookNext(s, s')
  {
    hide I.Inv;
    TailBlockOk(s, ring, off);
    CountStep(s.blocks[s'.tailBlock]);
  }

  /** What the test for room finds. */
  lemma RoomTest<T>(s: S.State<T>, ring: seq<nat>, off: seq<nat>)
    requires I.Inv(s, ring, off)
    ensures s.tailBlock < |s.blocks| && |s.blocks[s.tailBlock].data| > 0
    ensures var b := s.blocks[s.tailBlock]; TailFull(s) <==> And(b.tail + 1, |b.data| - 1) == b.front
  {
    hide I.Inv;
    TailBlockOk(s, ring, off);
    CountStep(s.blocks[s.tailBlock]);
  }

  lemma NotFull<T>(s: S.State<T>)
    requires s.tailBlock < |s.blocks| && I.Count(s.blocks[s.tailBlock]) < I.Full(s.blocks[s.tailBlock])
    ensures !TailFull(s)
  {
  }
}
