/** The inductive invariant of the two-thread queue, and that no thread can fail where it holds. */
module SpscInvariant {
  import opened Options
  import opened Bits
  import opened Spsc

  // ---- vocabulary ----------------------------------------------------------

  /** Cyclic distance from index `a` to index `b` in a buffer of `size` slots. */
  function Dist(size: nat, a: nat, b: nat): int {
    if a <= b then b - a else b - a + size
  }

  function Count<T>(b: Block<T>): int {
    Dist(|b.data|, b.front, b.tail)
  }

  function Full<T>(b: Block<T>): int {
    |b.data| - 1
  }

  function Succ(i: nat, size: nat): nat {
    if i + 1 == size then 0 else i + 1
  }

  /** Indices in range and each shadow copy a past value of the index it copies: `localTail` lies
      cyclically between `front` and `tail`, `front` between `localFront` and `tail`. */
  ghost predicate BlockOk<T>(b: Block<T>) {
    && |b.data| >= 2 && IsPow2(|b.data|)
    && b.front < |b.data| && b.tail < |b.data| && b.localTail < |b.data| && b.localFront < |b.data|
    && Dist(|b.data|, b.front, b.localTail) <= Count(b)
    && Dist(|b.data|, b.localFront, b.front) <= Dist(|b.data|, b.localFront, b.tail)
  }

  /** A slot the producer has constructed but not yet made part of the queue. */
  datatype Pending<T> = NoPending | Pending(b: nat, i: nat, x: T)

  function PendingOf<T>(p: Producer<T>): Pending<T> {
    match p
    case StoreTail(x, b, t, _) => Pending(b, t, x)
    case StoreNextTail(x, nx, t) => Pending(nx, t, x)
    case Publish(x, nx, t) => Pending(nx, t, x)
    case _ => NoPending
  }

  predicate IsPending<T>(p: Producer<T>, b: nat, i: nat) {
    var q := PendingOf(p);
    q.Pending? && q.b == b && q.i == i
  }

  /** The slot the consumer has emptied but not yet given up. */
  predicate IsTaken<T>(c: Consumer<T>, b: nat, i: nat) {
    c.CStoreFront? && c.b == b && c.f == i
  }

  // ---- the invariant -------------------------------------------------------
  //
  // `ring` lists the linked blocks once round, starting at the front block; the tail block is
  // `ring[|off| - 2]`. `off[j]` is the position in `enq` of the first element of block `ring[j]`.

  ghost predicate Ring<T>(s: State<T>, ring: seq<nat>, off: seq<nat>) {
    && |off| >= 2 && |off| - 1 <= |ring|
    && (forall j :: 0 <= j < |ring| ==> ring[j] < |s.blocks|)
    && (forall i, j :: 0 <= i < j < |ring| ==> ring[i] != ring[j])
    && s.frontBlock == ring[0] && s.tailBlock == ring[|off| - 2]
    && (forall b :: 0 <= b < |s.blocks| ==> BlockOk(s.blocks[b]))
  }

  /** Following `next` goes once round the ring. */
  ghost predicate Linked<T>(s: State<T>, ring: seq<nat>)
    requires forall j :: 0 <= j < |ring| ==> ring[j] < |s.blocks|
  {
    forall j {:trigger s.blocks[ring[j]].next} :: 0 <= j < |ring| ==>
      s.blocks[ring[j]].next == ring[Succ(j, |ring|)]
  }

  ghost predicate Offsets<T>(s: State<T>, ring: seq<nat>, off: seq<nat>)
    requires Ring(s, ring, off)
  {
    && off[0] == |s.deq| && off[|off| - 1] == |s.enq|
    && (forall j {:trigger s.blocks[ring[j]]} :: 0 <= j < |off| - 1 ==>
          off[j + 1] == off[j] + Count(s.blocks[ring[j]]))
    // blocks strictly between the front and the tail block are full
    && (forall j {:trigger s.blocks[ring[j]]} :: 1 <= j < |off| - 2 ==>
          Count(s.blocks[ring[j]]) == Full(s.blocks[ring[j]]))
    // the tail block is non-empty when it is not the front block
    && (|off| > 2 ==> Count(s.blocks[ring[|off| - 2]]) >= 1)
    // blocks after the tail block are empty, except one about to be published
    && (forall j {:trigger s.blocks[ring[j]]} :: |off| - 1 <= j < |ring| ==>
          Count(s.blocks[ring[j]]) == if s.prod.Publish? && ring[j] == s.prod.nx then 1 else 0)
  }

  ghost function Expected<T>(s: State<T>, b: nat, i: nat, live: bool, base: nat): Option<T>
    requires b < |s.blocks|
  {
    var blk := s.blocks[b];
    var d := Dist(|blk.data|, blk.front, i);
    if IsTaken(s.cons, b, i) then None
    else if IsPending(s.prod, b, i) then Some(PendingOf(s.prod).x)
    else if live && 0 <= d < Count(blk) && base + d < |s.enq| then Some(s.enq[base + d])
    else None
  }

  /** A slot is constructed exactly when it holds a queued element (or is in a thread's hands), and
      then it holds the element of `enq` that its place in the ring says. */
  ghost predicate Slots<T>(s: State<T>, ring: seq<nat>, off: seq<nat>)
    requires Ring(s, ring, off)
  {
    forall j, i :: 0 <= j < |ring| && 0 <= i < |s.blocks[ring[j]].data| ==>
      s.blocks[ring[j]].data[i]
        == Expected(s, ring[j], i, j < |off| - 1, if j < |off| then off[j] else 0)
  }

  /** What the producer knows at each program point. */
  ghost predicate ProducerInv<T>(s: State<T>, ring: seq<nat>, off: seq<nat>)
    requires Ring(s, ring, off)
  {
    var last := |off| - 2;
    var tb := s.blocks[s.tailBlock];
    // the tail block was found full and, unless the consumer is in it, still is
    var wasFull := last > 0 ==> Count(tb) == Full(tb);
    var unlinked := forall j :: 0 <= j < |ring| ==> ring[j] != |s.blocks| - 1;
    match s.prod
    case PIdle => true
    case PDone(ok) => ok || s.peak >= s.cfg.size
    case LoadTailBlock(_, _) => true
    case LoadTail(_, _, b) => b == s.tailBlock
    case LoadFront(_, _, b, t, n) =>
      b == s.tailBlock && t == tb.tail && n == Succ(t, |tb.data|)
    case Construct(_, b, t, n) =>
      b == s.tailBlock && t == tb.tail && n == Succ(t, |tb.data|) && Count(tb) < Full(tb)
      && n != tb.localFront
    case StoreTail(_, b, t, n) =>
      b == s.tailBlock && t == tb.tail && n == Succ(t, |tb.data|) && Count(tb) < Full(tb)
      && n != tb.localFront
    case LoadNext(_, _, b) => b == s.tailBlock && wasFull && s.peak >= Full(tb)
    case CheckFrontBlock(_, _, b, nx) =>
      b == s.tailBlock && wasFull && s.peak >= Full(tb) && nx == ring[Succ(last, |ring|)]
    case ReloadNext(_, b) => b == s.tailBlock && wasFull && last + 1 < |ring|
    case LoadNextFront(_, nx) => wasFull && last + 1 < |ring| && nx == ring[last + 1]
    case LoadNextTail(_, nx, nf) =>
      wasFull && last + 1 < |ring| && nx == ring[last + 1] && nf == s.blocks[nx].front
    case ConstructNext(_, nx, t) =>
      wasFull && last + 1 < |ring| && nx == ring[last + 1]
      && t == s.blocks[nx].tail == s.blocks[nx].front == s.blocks[nx].localFront
    case StoreNextTail(_, nx, t) =>
      wasFull && last + 1 < |ring| && nx == ring[last + 1]
      && t == s.blocks[nx].tail == s.blocks[nx].front == s.blocks[nx].localFront
    case Publish(_, nx, t) =>
      wasFull && last + 1 < |ring| && nx == ring[last + 1] && t == s.blocks[nx].front
    case Allocate(_, b) => b == s.tailBlock && wasFull && s.peak >= s.cfg.size
    case InitBlock(_, b, nx) =>
      b == s.tailBlock && wasFull && nx == |s.blocks| - 1 && unlinked
      && var nb := s.blocks[nx];
         nb.front == 0 && nb.tail == 0 && nb.localFront == 0 && nb.localTail == 0
         && forall i :: 0 <= i < |nb.data| ==> nb.data[i] == None
    case LinkNew(x, b, nx) =>
      b == s.tailBlock && wasFull && nx == |s.blocks| - 1 && unlinked && FreshBlock(s.blocks[nx], x)
    case LinkTail(x, b, nx) =>
      b == s.tailBlock && wasFull && nx == |s.blocks| - 1 && unlinked && FreshBlock(s.blocks[nx], x)
      && s.blocks[nx].next == ring[Succ(last, |ring|)]
  }

  /** A block holding just `x`, in its slot 0. */
  ghost predicate FreshBlock<T>(nb: Block<T>, x: T) {
    nb.front == 0 && nb.tail == 1 && nb.localFront == 0 && nb.localTail == 1
    && forall i :: 0 <= i < |nb.data| ==> nb.data[i] == if i == 0 then Some(x) else None
  }

  /** What the consumer knows at each program point. */
  ghost predicate ConsumerInv<T>(s: State<T>, ring: seq<nat>, off: seq<nat>)
    requires Ring(s, ring, off)
  {
    var more := |off| > 2;   // the tail block is not the front block
    var fb := s.blocks[s.frontBlock];
    match s.cons
    case CIdle => true
    case CDone(reply) => reply == Empty ==> s.sawEmpty
    case CLoadFrontBlock(_) => true
    case CLoadFront(_, b) => b == s.frontBlock
    case CLoadTail(_, b, f) => b == s.frontBlock && f == fb.front
    case CLoadTailBlock(_, b) => b == s.frontBlock && (more || s.sawEmpty)
    case CReloadFrontBlock(_) => more
    case CReloadTail(_, b) => b == s.frontBlock && more
    case CReloadFront(_, b, t) => b == s.frontBlock && more && t == fb.tail == fb.localTail
    case CLoadNext(_, b) => b == s.frontBlock && more && Count(fb) == 0
    case CLoadNextFront(_, nx) => more && Count(fb) == 0 && nx == ring[1]
    case CLoadNextTail(_, nx, f) => more && Count(fb) == 0 && nx == ring[1] && f == s.blocks[nx].front
    case CStoreFrontBlock(k, nx, f) =>
      k != Peek && more && Count(fb) == 0 && nx == ring[1] && f == s.blocks[nx].front != s.blocks[nx].localTail
    case CTake(k, b, f) => k != Peek && b == s.frontBlock && f == fb.front != fb.localTail && Count(fb) >= 1
    case CStoreFront(k, b, f, v) =>
      k != Peek && b == s.frontBlock && f == fb.front != fb.localTail && Count(fb) >= 1
      && |s.deq| < |s.enq| && v == s.enq[|s.deq|]
  }

  /** The promise behind the constructor's argument: either every block alone has room for `size`
      elements, or all but one of the blocks together have. */
  ghost predicate Capacity<T>(s: State<T>, ring: seq<nat>) {
    && ConfigOk(s.cfg) && 2 <= s.largest <= 2 * s.cfg.maxBlock && IsPow2(s.largest) && |ring| >= 1
    && (forall b :: 0 <= b < |s.blocks| ==> |s.blocks[b].data| <= 2 * s.cfg.maxBlock)
    && (|| (s.largest > s.cfg.size && forall b :: 0 <= b < |s.blocks| ==> Full(s.blocks[b]) >= s.cfg.size)
        || (s.largest >= s.cfg.maxBlock
            && (forall b :: 0 <= b < |s.blocks| ==> |s.blocks[b].data| >= s.cfg.maxBlock)
            && (|ring| - 1) * (s.cfg.maxBlock - 1) >= s.cfg.size))
  }

  /** A pointer handed out by `peek` still denotes the oldest element. */
  ghost predicate PeekInv<T>(s: State<T>, ring: seq<nat>, off: seq<nat>)
    requires Ring(s, ring, off)
  {
    s.peeked.Some? ==>
      var (b, i) := s.peeked.value;
      || (b == ring[0] && i == s.blocks[b].front && Count(s.blocks[b]) >= 1)
      || (|off| > 2 && Count(s.blocks[ring[0]]) == 0 && b == ring[1] && i == s.blocks[b].front)
  }

  ghost predicate Inv<T>(s: State<T>, ring: seq<nat>, off: seq<nat>) {
    && Ring(s, ring, off) && Linked(s, ring) && Offsets(s, ring, off) && Slots(s, ring, off)
    && ProducerInv(s, ring, off) && ConsumerInv(s, ring, off)
    && Capacity(s, ring) && PeekInv(s, ring, off)
  }

  // ---- consequences --------------------------------------------------------

  lemma {:induction false} OffsetsGrow<T>(s: State<T>, ring: seq<nat>, off: seq<nat>, i: nat, j: nat)
    requires Ring(s, ring, off) && Offsets(s, ring, off) && i <= j < |off|
    ensures off[i] <= off[j]
    decreases j - i
  {
    if i < j {
      OffsetsGrow(s, ring, off, i, j - 1);
      assert BlockOk(s.blocks[ring[j - 1]]);
    }
  }

  /** In every state satisfying the invariant neither thread is about to fail. */
  lemma InvSafe<T>(s: State<T>, ring: seq<nat>, off: seq<nat>)
    requires Inv(s, ring, off)
    ensures Safe(s)
  {
    assert forall j :: 0 <= j < |ring| ==> BlockOk(s.blocks[ring[j]]);
    ProducerCannotFail(s, ring, off);
    ConsumerCannotFail(s, ring, off);
  }

  lemma ProducerCannotFail<T>(s: State<T>, ring: seq<nat>, off: seq<nat>)
    requires Inv(s, ring, off)
    ensures ProducerSafe(s)
  {
    hide Linked, Capacity, PeekInv;
    var last := |off| - 2;
    if s.prod.Construct? {
      var blk := s.blocks[ring[last]];
      assert blk.data[s.prod.t] == Expected(s, ring[last], s.prod.t, true, off[last]);
    } else if s.prod.ConstructNext? {
      var blk := s.blocks[ring[last + 1]];
      assert blk.data[s.prod.t] == Expected(s, ring[last + 1], s.prod.t, false, off[last + 1]);
    }
  }

  lemma ConsumerCannotFail<T>(s: State<T>, ring: seq<nat>, off: seq<nat>)
    requires Inv(s, ring, off)
    ensures ConsumerSafe(s)
    ensures s.cons.CTake? ==> |s.deq| < |s.enq| && s.blocks[s.cons.b].data[s.cons.f] == Some(s.enq[|s.deq|])
  {
    if s.cons.CTake? {
      FirstSlot(s, ring, off);
    }
  }

  lemma FirstSlot<T>(s: State<T>, ring: seq<nat>, off: seq<nat>)
    requires Inv(s, ring, off)
    requires Count(s.blocks[ring[0]]) >= 1 && !s.cons.CStoreFront?
    ensures var fb := s.blocks[ring[0]]; |s.deq| < |s.enq| && fb.data[fb.front] == Some(s.enq[|s.deq|])
  {
    OffsetsGrow(s, ring, off, 1, |off| - 1);
    var fb := s.blocks[ring[0]];
    assert BlockOk(fb);
    assert !IsPending(s.prod, ring[0], fb.front);
    assert off[1] == off[0] + Count(fb);
    assert fb.data[fb.front] == Expected(s, ring[0], fb.front, true, off[0]);
  }

  lemma SecondSlot<T>(s: State<T>, ring: seq<nat>, off: seq<nat>)
    requires Inv(s, ring, off) && |off| > 2
    requires Count(s.blocks[ring[0]]) == 0 && !s.cons.CStoreFront?
    ensures var nb := s.blocks[ring[1]]; |s.deq| < |s.enq| && nb.data[nb.front] == Some(s.enq[|s.deq|])
  {
    hide Linked, Capacity, ConsumerInv, PeekInv;
    OffsetsGrow(s, ring, off, 2, |off| - 1);
    var nb := s.blocks[ring[1]];
    assert BlockOk(nb);
    assert Count(nb) >= 1;
    assert off[0 + 1] == off[0] + Count(s.blocks[ring[0]]);
    assert off[1 + 1] == off[1] + Count(nb);
    assert !IsPending(s.prod, ring[1], nb.front);
    hide ProducerInv;
    assert nb.data[nb.front] == Expected(s, ring[1], nb.front, true, off[1]);
  }
}
