/** The lock-free single-producer/single-consumer queue as a two-thread transition system.
    Every atomic load or store of a shared variable, and every construction or destruction of a
    slot, is one step; the two threads interleave arbitrarily (sequentially consistent memory). */
module Spsc {
  import opened Options
  import opened Bits

  /** A block: a circular buffer of raw (`None`) or constructed (`Some`) slots, with the owner's
      indices and each side's shadow copy of the other's index. `next` is a block number. */
  datatype Block<T> = Block(data: seq<Option<T>>, front: nat, localTail: nat,
                            tail: nat, localFront: nat, next: nat)

  /** Constructor argument and the MAX_BLOCK_SIZE template parameter. */
  datatype Config = Config(size: nat, maxBlock: nat)

  datatype Kind = Dequeue | Pop | Peek

  /** What a consumer call returned; `At` is the non-null pointer returned by `peek`. */
  datatype Reply<+T> = Empty | Got(value: T) | Removed | At(block: nat, index: nat)

  /** The producer's program counter together with its live local variables. */
  datatype Producer<T> =
    | PIdle
    | PDone(ok: bool)
    | LoadTailBlock(x: T, alloc: bool)
    | LoadTail(x: T, alloc: bool, b: nat)
    | LoadFront(x: T, alloc: bool, b: nat, t: nat, n: nat)
    | Construct(x: T, b: nat, t: nat, n: nat)
    | StoreTail(x: T, b: nat, t: nat, n: nat)
    | LoadNext(x: T, alloc: bool, b: nat)
    | CheckFrontBlock(x: T, alloc: bool, b: nat, nx: nat)
    | ReloadNext(x: T, b: nat)
    | LoadNextFront(x: T, nx: nat)
    | LoadNextTail(x: T, nx: nat, nf: nat)
    | ConstructNext(x: T, nx: nat, t: nat)
    | StoreNextTail(x: T, nx: nat, t: nat)
    | Allocate(x: T, b: nat)
    | InitBlock(x: T, b: nat, nx: nat)
    | LinkNew(x: T, b: nat, nx: nat)
    | LinkTail(x: T, b: nat, nx: nat)
    | Publish(x: T, nx: nat, t: nat)
  {
    predicate Active() { !PIdle? && !PDone? }
  }

  /** The consumer's program counter together with its live local variables. */
  datatype Consumer<T> =
    | CIdle
    | CDone(reply: Reply<T>)
    | CLoadFrontBlock(k: Kind)
    | CLoadFront(k: Kind, b: nat)
    | CLoadTail(k: Kind, b: nat, f: nat)
    | CLoadTailBlock(k: Kind, b: nat)
    | CReloadFrontBlock(k: Kind)
    | CReloadTail(k: Kind, b: nat)
    | CReloadFront(k: Kind, b: nat, t: nat)
    | CLoadNext(k: Kind, b: nat)
    | CLoadNextFront(k: Kind, nx: nat)
    | CLoadNextTail(k: Kind, nx: nat, f: nat)
    | CStoreFrontBlock(k: Kind, nx: nat, f: nat)
    | CTake(k: Kind, b: nat, f: nat)
    | CStoreFront(k: Kind, b: nat, f: nat, v: T)
  {
    predicate Active() { !CIdle? && !CDone? }
  }

  /** The shared memory and both threads, plus the observation log: `enq` are the elements whose
      enqueue succeeded and `deq` the elements whose removal completed, in order of completion;
      `peak` is the largest number of queued elements since the producer's current call began,
      `sawEmpty` whether the queue was empty at some instant of the consumer's current call, and
      `peeked` the pointer handed out by `peek` since the last removal. */
  datatype State<T> = State(
    cfg: Config,
    blocks: seq<Block<T>>, frontBlock: nat, tailBlock: nat, largest: nat,
    prod: Producer<T>, cons: Consumer<T>,
    enq: seq<T>, deq: seq<T>,
    peak: int, sawEmpty: bool, peeked: Option<(nat, nat)>)

  /** Number of elements in the queue. */
  function Held<T>(s: State<T>): int {
    |s.enq| - |s.deq|
  }

  // ---- construction --------------------------------------------------------

  ghost predicate ConfigOk(cfg: Config) {
    cfg.size >= 1 && cfg.maxBlock >= 2 && IsPow2(cfg.maxBlock)
    && cfg.size + 2 * cfg.maxBlock <= WORD / 2
  }

  function MakeBlock<T>(capacity: nat, next: nat): Block<T> {
    Block(seq(capacity, i => None), 0, 0, 0, 0, next)
  }

  function InitialBlockCount(cfg: Config): nat
    requires cfg.maxBlock >= 2
  {
    (cfg.size + cfg.maxBlock * 2 - 3) / (cfg.maxBlock - 1)
  }

  function InitialBlockSize(cfg: Config): nat
    requires cfg.size + 1 < WORD
  {
    var largest := CeilToPow2(cfg.size + 1);
    if largest > cfg.maxBlock * 2 then cfg.maxBlock else largest
  }

  /** `count` empty blocks of the same size, each linked to the next and the last to the first. */
  function MakeRing<T>(count: nat, size: nat): (blocks: seq<Block<T>>)
    ensures |blocks| == count
    ensures forall i :: 0 <= i < count ==> blocks[i] == MakeBlock(size, if i + 1 == count then 0 else i + 1)
  {
    seq(count, i requires 0 <= i < count => MakeBlock(size, if i + 1 == count then 0 else i + 1))
  }

  function InitialBlocks<T>(cfg: Config): seq<Block<T>>
    requires cfg.maxBlock >= 2 && cfg.size + 1 < WORD
  {
    MakeRing(if CeilToPow2(cfg.size + 1) > cfg.maxBlock * 2 then InitialBlockCount(cfg) else 1,
             InitialBlockSize(cfg))
  }

  function Init<T>(cfg: Config): State<T>
    requires cfg.maxBlock >= 2 && cfg.size + 1 < WORD
  {
    State(cfg, InitialBlocks(cfg), 0, 0, InitialBlockSize(cfg), PIdle, CIdle, [], [], 0, true, None)
  }

  // ---- steps ---------------------------------------------------------------

  datatype Event<T> =
    | CallEnqueue(x: T, canAlloc: bool)
    | ProducerStep
    | AllocationFails
    | CallConsumer(kind: Kind)
    | ConsumerStep

  predicate Enabled<T>(s: State<T>, e: Event<T>) {
    match e
    case CallEnqueue(_, _) => !s.prod.Active()
    case ProducerStep => s.prod.Active()
    case AllocationFails => s.prod.Allocate?
    case CallConsumer(_) => !s.cons.Active()
    case ConsumerStep => s.cons.Active()
  }

  /** The producer's next step touches only blocks and slots that exist, constructs only into a raw
      slot, and does not fail the source's asserts (`nextBlockFront == nextBlockTail` and
      `newBlock->front == 0`). */
  predicate ProducerSafe<T>(s: State<T>) {
    match s.prod
    case LoadTail(_, _, b) => b < |s.blocks| && |s.blocks[b].data| > 0
    case LoadFront(_, _, b, _, _) => b < |s.blocks|
    case Construct(_, b, t, _) => b < |s.blocks| && t < |s.blocks[b].data| && s.blocks[b].data[t].None?
    case StoreTail(_, b, _, _) => b < |s.blocks|
    case LoadNext(_, _, b) => b < |s.blocks|
    case ReloadNext(_, b) => b < |s.blocks|
    case LoadNextFront(_, nx) => nx < |s.blocks|
    case LoadNextTail(_, nx, nf) => nx < |s.blocks| && nf == s.blocks[nx].tail
    case ConstructNext(_, nx, t) => nx < |s.blocks| && t < |s.blocks[nx].data| && s.blocks[nx].data[t].None?
    case StoreNextTail(_, nx, t) => nx < |s.blocks| && |s.blocks[nx].data| > 0
    case InitBlock(_, _, nx) => nx < |s.blocks| && |s.blocks[nx].data| > 0 && s.blocks[nx].data[0].None?
                                && s.blocks[nx].front == 0
    case LinkNew(_, b, nx) => b < |s.blocks| && nx < |s.blocks|
    case LinkTail(_, b, nx) => b < |s.blocks| && nx < |s.blocks|
    case _ => true
  }

  /** The consumer's next step touches only blocks that exist, takes only from a constructed slot, and
      does not fail the source's assert `nextBlockFront != nextBlockTail`. */
  predicate ConsumerSafe<T>(s: State<T>) {
    match s.cons
    case CLoadFront(_, b) => b < |s.blocks|
    case CLoadTail(_, b, _) => b < |s.blocks|
    case CReloadTail(_, b) => b < |s.blocks|
    case CReloadFront(_, b, _) => b < |s.blocks|
    case CLoadNext(_, b) => b < |s.blocks|
    case CLoadNextFront(_, nx) => nx < |s.blocks|
    case CLoadNextTail(_, nx, f) => nx < |s.blocks| && f != s.blocks[nx].tail
    case CTake(_, b, f) => b < |s.blocks| && f < |s.blocks[b].data| && s.blocks[b].data[f].Some?
    case CStoreFront(_, b, _, _) => b < |s.blocks| && |s.blocks[b].data| > 0
    case _ => true
  }

  predicate Safe<T>(s: State<T>) {
    ProducerSafe(s) && ConsumerSafe(s)
  }

  function SetBlock<T>(s: State<T>, b: nat, blk: Block<T>): State<T>
    requires b < |s.blocks|
  {
    s.(blocks := s.blocks[b := blk])
  }

  /** `inner_enqueue`, one shared-memory access at a time. */
  function StepProducer<T>(s: State<T>): State<T>
    requires s.prod.Active() && ProducerSafe(s)
  {
    match s.prod
    case LoadTailBlock(x, alloc) => s.(prod := LoadTail(x, alloc, s.tailBlock))
    case LoadTail(x, alloc, b) =>
      var blk := s.blocks[b];
      var n := And(blk.tail + 1, |blk.data| - 1);
      if n != blk.localFront then s.(prod := Construct(x, b, blk.tail, n))
      else s.(prod := LoadFront(x, alloc, b, blk.tail, n))
    case LoadFront(x, alloc, b, t, n) =>
      var f := s.blocks[b].front;
      SetBlock(s, b, s.blocks[b].(localFront := f))
        .(prod := if n != f then Construct(x, b, t, n) else LoadNext(x, alloc, b))
    case Construct(x, b, t, n) =>
      var blk := s.blocks[b];
      SetBlock(s, b, blk.(data := blk.data[t := Some(x)])).(prod := StoreTail(x, b, t, n))
    case StoreTail(x, b, t, n) =>
      SetBlock(s, b, s.blocks[b].(tail := n)).(prod := PDone(true), enq := s.enq + [x])
    case LoadNext(x, alloc, b) => s.(prod := CheckFrontBlock(x, alloc, b, s.blocks[b].next))
    case CheckFrontBlock(x, alloc, b, nx) =>
      if nx != s.frontBlock then s.(prod := ReloadNext(x, b))
      else if alloc then s.(prod := Allocate(x, b))
      else s.(prod := PDone(false))
    case ReloadNext(x, b) => s.(prod := LoadNextFront(x, s.blocks[b].next))
    case LoadNextFront(x, nx) =>
      var f := s.blocks[nx].front;
      SetBlock(s, nx, s.blocks[nx].(localFront := f)).(prod := LoadNextTail(x, nx, f))
    case LoadNextTail(x, nx, nf) =>
      SetBlock(s, nx, s.blocks[nx].(localFront := nf)).(prod := ConstructNext(x, nx, s.blocks[nx].tail))
    case ConstructNext(x, nx, t) =>
      var blk := s.blocks[nx];
      SetBlock(s, nx, blk.(data := blk.data[t := Some(x)])).(prod := StoreNextTail(x, nx, t))
    case StoreNextTail(x, nx, t) =>
      var blk := s.blocks[nx];
      SetBlock(s, nx, blk.(tail := And(t + 1, |blk.data| - 1))).(prod := Publish(x, nx, t))
    case Allocate(x, b) =>
      var size := if s.largest >= s.cfg.maxBlock then s.largest else s.largest * 2;
      s.(blocks := s.blocks + [MakeBlock(size, 0)], largest := size, prod := InitBlock(x, b, |s.blocks|))
    case InitBlock(x, b, nx) =>
      var blk := s.blocks[nx];
      SetBlock(s, nx, blk.(data := blk.data[0 := Some(x)], tail := 1, localTail := 1)).(prod := LinkNew(x, b, nx))
    case LinkNew(x, b, nx) =>
      SetBlock(s, nx, s.blocks[nx].(next := s.blocks[b].next)).(prod := LinkTail(x, b, nx))
    case LinkTail(x, b, nx) =>
      SetBlock(s, b, s.blocks[b].(next := nx)).(prod := Publish(x, nx, 0))
    case Publish(x, nx, t) =>
      s.(tailBlock := nx, prod := PDone(true), enq := s.enq + [x])
  }

  /** What the consumer does once it knows the element's place: `peek` returns the pointer. */
  function Found<T>(s: State<T>, k: Kind, b: nat, f: nat): State<T> {
    if k == Peek then s.(cons := CDone(At(b, f)), peeked := Some((b, f)))
    else s.(cons := CTake(k, b, f))
  }

  /** `try_dequeue`, `pop` and `peek`, one shared-memory access at a time. */
  function StepConsumer<T>(s: State<T>): State<T>
    requires s.cons.Active() && ConsumerSafe(s)
  {
    match s.cons
    case CLoadFrontBlock(k) => s.(cons := CLoadFront(k, s.frontBlock))
    case CLoadFront(k, b) =>
      var blk := s.blocks[b];
      if blk.front != blk.localTail then Found(s, k, b, blk.front)
      else s.(cons := CLoadTail(k, b, blk.front))
    case CLoadTail(k, b, f) =>
      var t := s.blocks[b].tail;
      var s1 := SetBlock(s, b, s.blocks[b].(localTail := t));
      if f != t then Found(s1, k, b, f) else s1.(cons := CLoadTailBlock(k, b))
    case CLoadTailBlock(k, b) =>
      if b != s.tailBlock then s.(cons := CReloadFrontBlock(k)) else s.(cons := CDone(Empty))
    case CReloadFrontBlock(k) => s.(cons := CReloadTail(k, s.frontBlock))
    case CReloadTail(k, b) =>
      var t := s.blocks[b].tail;
      SetBlock(s, b, s.blocks[b].(localTail := t)).(cons := CReloadFront(k, b, t))
    case CReloadFront(k, b, t) =>
      var f := s.blocks[b].front;
      if f != t then Found(s, k, b, f) else s.(cons := CLoadNext(k, b))
    case CLoadNext(k, b) => s.(cons := CLoadNextFront(k, s.blocks[b].next))
    case CLoadNextFront(k, nx) => s.(cons := CLoadNextTail(k, nx, s.blocks[nx].front))
    case CLoadNextTail(k, nx, f) =>
      if k == Peek then Found(s, k, nx, f)
      else SetBlock(s, nx, s.blocks[nx].(localTail := s.blocks[nx].tail)).(cons := CStoreFrontBlock(k, nx, f))
    case CStoreFrontBlock(k, nx, f) => s.(frontBlock := nx, cons := CTake(k, nx, f))
    case CTake(k, b, f) =>
      var blk := s.blocks[b];
      SetBlock(s, b, blk.(data := blk.data[f := None])).(cons := CStoreFront(k, b, f, blk.data[f].value))
    case CStoreFront(k, b, f, v) =>
      var blk := s.blocks[b];
      SetBlock(s, b, blk.(front := And(f + 1, |blk.data| - 1)))
        .(cons := CDone(if k == Dequeue then Got(v) else Removed), deq := s.deq + [v], peeked := None)
  }

  function Act<T>(s: State<T>, e: Event<T>): State<T>
    requires Enabled(s, e) && Safe(s)
  {
    match e
    case CallEnqueue(x, alloc) => s.(prod := LoadTailBlock(x, alloc))
    case ProducerStep => StepProducer(s)
    case AllocationFails => s.(prod := PDone(false))
    case CallConsumer(k) => s.(cons := CLoadFrontBlock(k))
    case ConsumerStep => StepConsumer(s)
  }

  /** Bring the per-call observations up to date after a step from `s` to `s'`; they start afresh
      when a call begins. */
  function Observe<T>(s: State<T>, s': State<T>): State<T> {
    var enqueueBegins := !s.prod.Active() && s'.prod.Active();
    var dequeueBegins := !s.cons.Active() && s'.cons.Active();
    s'.(peak := if !enqueueBegins && s.peak >= Held(s') then s.peak else Held(s'),
        sawEmpty := (!dequeueBegins && s.sawEmpty) || Held(s') == 0)
  }

  /** One step of the system. From an unsafe state (undefined behaviour, or a failed assert)
      anything may follow. */
  ghost predicate Next<T>(s: State<T>, e: Event<T>, s': State<T>) {
    Enabled(s, e) && (Safe(s) ==> s' == Observe(s, Act(s, e)))
  }
}
