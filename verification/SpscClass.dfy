/** The queue's methods, used from one thread, on the blocks of the heap. A ghost copy of the transition
    system takes the same steps, so the invariant proved there carries over, and each call is specified on
    the plain sequence of queued elements. */
module SpscClass {
  import opened Bits
  import opened Options
  import opened SpscHeap
  import opened SpscCalls
  import C = SpscCapacity
  import I = SpscInvariant
  import Q = SpscSequential
  import R = SpscTheorems
  import S = Spsc

  /** The constructor's loop: allocate the blocks one by one, link each behind the one before and to the
      first. */
  method BuildRing<T>(count: nat, size: nat) returns (first: Block<T>, ghost all: seq<Block<T>>)
    requires count > 0
    ensures fresh(all) && fresh(Arrays(all)) && Rep(all, S.MakeRing<T>(count, size))
    ensures Member(all, first) && first.id == 0
  {
    hide Rep, S.MakeBlock, Member;
    ghost var blocks: seq<S.Block<T>>;
    Nothing<T>();
    first, all, blocks := AddBlock([], [], size);
    Extended([], first);
    var lastBlock := first;
    var i := 1;
    while i != count
      invariant 1 <= i <= count && |all| == i == |blocks| && fresh(all) && fresh(Arrays(all)) && Rep(all, blocks)
      invariant Member(all, first) && first.id == 0 && Member(all, lastBlock) && lastBlock.id == i - 1 && fresh(lastBlock)
      invariant forall j :: 0 <= j < i ==> blocks[j] == S.MakeBlock(size, if j + 1 == i then 0 else j + 1)
    {
      Relinked<T>(size, 0, i);
      Relinked<T>(size, i, 0);
      lastBlock, all, blocks := AppendBlock(all, blocks, first, lastBlock, size);
      i := i + 1;
    }
    assert blocks == S.MakeRing(count, size);
  }

  /** One round of the loop. */
  method AppendBlock<T>(ghost all: seq<Block<T>>, ghost blocks: seq<S.Block<T>>, first: Block<T>, lastBlock: Block<T>, size: nat)
    returns (block: Block<T>, ghost all': seq<Block<T>>, ghost blocks': seq<S.Block<T>>)
    requires Rep(all, blocks) && Member(all, first) && Member(all, lastBlock) && |all| == |blocks|
    modifies lastBlock
    ensures fresh(block) && fresh(block.data) && all' == all + [block] && Arrays(all') == Arrays(all) + {block.data}
    ensures Rep(all', blocks') && Member(all', first) && Member(all', block) && block.id == |all|
    ensures lastBlock.id < |blocks|
    ensures blocks' == blocks[lastBlock.id := blocks[lastBlock.id].(next := |blocks|)]
                       + [S.MakeBlock(size, |blocks|).(next := first.id)]
  {
    hide Rep, S.MakeBlock;
    block, all', blocks' := AddBlock(all, blocks, size);
    Extended(all, block);
    blocks' := SetNext(all', blocks', lastBlock, block);
    blocks' := SetNext(all', blocks', block, first);
  }

  lemma Nothing<T>()
    ensures Rep<T>([], [])
  {
  }

  lemma Relinked<T>(size: nat, was: nat, next: nat)
    ensures S.MakeBlock<T>(size, was).(next := next) == S.MakeBlock(size, next)
  {
  }

  lemma Extended<T>(all: seq<Block<T>>, b: Block<T>)
    ensures Arrays(all + [b]) == Arrays(all) + {b.data}
    ensures forall x :: Member(all, x) ==> Member(all + [b], x)
  {
    assert forall x :: x in all + [b] <==> x in all || x == b;
  }

  lemma StillMember<T>(all: seq<Block<T>>, b: Block<T>, x: Block<T>)
    requires Member(all, x)
    ensures Member(all + [b], x)
  {
  }

  /** The first blocks: one with a spare slot, or enough of the maximal size. */
  method MakeBlocks<T>(size: nat, maxBlockSize: nat) returns (first: Block<T>, largest: nat, ghost all: seq<Block<T>>)
    requires S.ConfigOk(S.Config(size, maxBlockSize))
    ensures fresh(all) && fresh(Arrays(all)) && Rep(all, S.InitialBlocks<T>(S.Config(size, maxBlockSize)))
    ensures Member(all, first) && first.id == 0 && largest == S.InitialBlockSize(S.Config(size, maxBlockSize))
  {
    hide *;
    var cfg := S.Config(size, maxBlockSize);
    FirstBlocks<T>(cfg);
    largest := CeilToPow2(size + 1);
    if largest > maxBlockSize * 2 {
      largest := maxBlockSize;
      first, all := BuildRing(S.InitialBlockCount(cfg), largest);
    } else {
      first, all := BuildRing(1, largest);
    }
  }

  lemma FirstBlocks<T>(cfg: S.Config)
    requires S.ConfigOk(cfg)
    ensures cfg.maxBlock >= 2 && cfg.size + 1 < WORD && S.InitialBlockCount(cfg) > 0
    ensures var largest := CeilToPow2(cfg.size + 1);
            if largest > cfg.maxBlock * 2
            then S.InitialBlockSize(cfg) == cfg.maxBlock
                 && S.InitialBlocks<T>(cfg) == S.MakeRing(S.InitialBlockCount(cfg), cfg.maxBlock)
            else S.InitialBlockSize(cfg) == largest && S.InitialBlocks<T>(cfg) == S.MakeRing(1, largest)
  {
    hide CeilToPow2, S.MakeRing, S.InitialBlockCount, IsPow2;
    R.InitialBlockCountPositive(cfg);
  }

  lemma Start<T>(cfg: S.Config) returns (s: S.State<T>, ring: seq<nat>)
    requires S.ConfigOk(cfg)
    ensures Fits(s, ring, [0, 0], 0, 0, S.InitialBlockSize(cfg), cfg.maxBlock) && Quiet(s)
    ensures s.enq == s.deq == [] && s.cfg == cfg && s.blocks == S.InitialBlocks(cfg)
  {
    hide I.Inv, S.InitialBlocks, S.InitialBlockSize;
    R.InitEstablishesInv<T>(cfg);
    s := S.Init<T>(cfg);
    ring := R.InitRing(|s.blocks|);
  }

  /** Use the free block after the tail block. */
  method BeginBlock<T>(ghost all: seq<Block<T>>, ghost blocks: seq<S.Block<T>>, tailBlockNext: Block<T>, x: T)
    returns (ghost blocks': seq<S.Block<T>>)
    requires Rep(all, blocks) && Member(all, tailBlockNext) && tailBlockNext.id < |blocks|
    requires tailBlockNext.front == tailBlockNext.tail < tailBlockNext.data.Length
    modifies tailBlockNext, tailBlockNext.data
    ensures Rep(all, blocks') && blocks[tailBlockNext.id].tail < |blocks[tailBlockNext.id].data|
    ensures blocks' == blocks[tailBlockNext.id := Begun(blocks[tailBlockNext.id], x)]
  {
    hide Rep, Member, And;
    Split(all, blocks, tailBlockNext);
    var nextBlockFront := tailBlockNext.front;
    blocks' := SetLocalFront(all, blocks, tailBlockNext, nextBlockFront);
    var nextBlockTail := tailBlockNext.tail;
    assert nextBlockFront == nextBlockTail;
    blocks' := SetLocalFront(all, blocks', tailBlockNext, nextBlockFront);
    blocks' := Fill(all, blocks', tailBlockNext, nextBlockTail, x, And(nextBlockTail + 1, tailBlockNext.data.Length - 1));
  }

  /** Allocate a block and put `x` in its first slot. */
  method NewHolding<T>(ghost all: seq<Block<T>>, ghost blocks: seq<S.Block<T>>, size: nat, x: T)
    returns (newBlock: Block<T>, ghost all': seq<Block<T>>, ghost blocks': seq<S.Block<T>>)
    requires Rep(all, blocks) && size > 0
    ensures fresh(newBlock) && fresh(newBlock.data) && all' == all + [newBlock] && Rep(all', blocks')
    ensures Member(all', newBlock) && newBlock.id == |all| == |blocks|
    ensures blocks' == blocks + [Q.BlockHolding(x, size, |blocks|)]
  {
    hide Rep, Member;
    newBlock, all', blocks' := AddBlock(all, blocks, size);
    blocks' := SetSlot(all', blocks', newBlock, 0, Some(x));
    assert newBlock.front == 0;
    blocks' := SetTail(all', blocks', newBlock, 1);
    blocks' := SetLocalTail(all', blocks', newBlock, 1);
  }

  /** Link it in behind the tail block. */
  method LinkNew<T>(ghost all: seq<Block<T>>, ghost blocks: seq<S.Block<T>>, tailBlock: Block<T>, size: nat, x: T)
    returns (newBlock: Block<T>, ghost all': seq<Block<T>>, ghost blocks': seq<S.Block<T>>)
    requires Rep(all, blocks) && Member(all, tailBlock) && size > 0
    modifies tailBlock
    ensures fresh(newBlock) && fresh(newBlock.data) && all' == all + [newBlock] && Rep(all', blocks')
    ensures Arrays(all') == Arrays(all) + {newBlock.data}
    ensures Member(all', newBlock) && newBlock.id == |all| == |blocks| && tailBlock.id < |blocks|
    ensures var tb := blocks[tailBlock.id];
            blocks' == blocks[tailBlock.id := tb.(next := |blocks|)] + [Q.BlockHolding(x, size, tb.next)]
  {
    hide Rep, Q.BlockHolding;
    Split(all, blocks, tailBlock);
    ghost var tb := blocks[tailBlock.id];
    newBlock, all', blocks' := NewHolding(all, blocks, size, x);
    Extended(all, newBlock);
    Reholding(x, size, |blocks|, tb.next);
    hide Member;
    blocks' := SetNext(all', blocks', newBlock, tailBlock.next);
    blocks' := SetNext(all', blocks', tailBlock, newBlock);
  }

  lemma Reholding<T>(x: T, size: nat, was: nat, next: nat)
    requires size > 0
    ensures Q.BlockHolding(x, size, was).(next := next) == Q.BlockHolding(x, size, next)
  {
  }

  class ReaderWriterQueue<T> {
    var frontBlock: Block<T>
    var tailBlock: Block<T>
    var largestBlockSize: nat
    const maxBlockSize: nat

    ghost var all: seq<Block<T>>    // every block, in order of allocation
    ghost var model: S.State<T>
    ghost var ring: seq<nat>
    ghost var off: seq<nat>

    /** The heap shows the ghost copy. */
    ghost predicate Sound()
      reads this, all, Arrays(all)
    {
      && Rep(all, model.blocks) && Member(all, frontBlock) && Member(all, tailBlock)
      && Fits(model, ring, off, frontBlock.id, tailBlock.id, largestBlockSize, maxBlockSize)
    }

    /** No call is in progress. */
    ghost predicate Valid()
      reads this, all, Arrays(all)
    {
      Sound() && Quiet(model)
    }

    /** The queued elements, oldest first. */
    ghost function Contents(): seq<T>
      reads this
    {
      Queued(model)
    }

    /** The number of elements that can be enqueued without allocating. */
    ghost function Room(): int
      reads this
    {
      C.RoomOf(model, ring, off)
    }

    constructor (size: nat, maxBlockSize: nat)
      requires S.ConfigOk(S.Config(size, maxBlockSize))
      ensures Valid() && Contents() == [] && model.cfg == S.Config(size, maxBlockSize)
      ensures fresh(all) && fresh(Arrays(all))
    {
      this.maxBlockSize := maxBlockSize;
      var first, largest, made := MakeBlocks<T>(size, maxBlockSize);
      frontBlock, tailBlock, largestBlockSize := first, first, largest;
      ghost var s, r := Start<T>(S.Config(size, maxBlockSize));
      all, model, ring, off := made, s, r, [0, 0];
    }

    lemma InFrame(b: Block<T>)
      requires Rep(all, model.blocks) && Member(all, b)
      ensures b in all && b.data in Arrays(all) && b.id < |model.blocks| == |all| && Shows(b, model.blocks[b.id])
      ensures Member(all, b.next) && b.next in all && b.next.data in Arrays(all)
    {
      Split(all, model.blocks, b);
      assert all[b.next.id] in all;
    }

    // ---- enqueue -------------------------------------------------------------------

    /** The tail block has room. */
    method EnqueueHere(x: T, blockTail: nat, nextBlockTail: nat)
      requires Sound() && model.prod == S.Construct(x, tailBlock.id, blockTail, nextBlockTail)
      modifies this, all, Arrays(all)
      ensures Sound() && all == old(all) && Ended(old(model), model, [x]) && C.TookHere(old(model), model)
    {
      hide Rep, Member, Fits, Ended, C.TookHere, Arrays;
      InFrame(tailBlock);
      ghost var s, r, o := FillHere(model, ring, off, frontBlock.id, tailBlock.id, largestBlockSize, maxBlockSize);
      ghost var picture := Fill(all, model.blocks, tailBlock, blockTail, x, nextBlockTail);
      model, ring, off := s, r, o;
    }

    /** The tail block is full but the block after it is free. */
    method EnqueueInNext(x: T)
      requires Sound() && model.prod == S.ReloadNext(x, tailBlock.id) && model.peak == S.Held(model)
      requires C.TailFull(model) && tailBlock.next.id != frontBlock.id
      modifies this, all, Arrays(all)
      ensures Sound() && all == old(all) && Ended(old(model), model, [x]) && C.TookNext(old(model), model)
    {
      hide Rep, Member, Fits, Ended, C.TookNext, C.TailFull, And, Begun, Arrays;
      InFrame(tailBlock);
      var tailBlockNext := tailBlock.next;
      InFrame(tailBlockNext);
      ghost var s, r, o := UseNext(model, ring, off, frontBlock.id, tailBlock.id, largestBlockSize, maxBlockSize,
                                   tailBlockNext.id);
      ghost var picture := BeginBlock(all, model.blocks, tailBlockNext, x);
      tailBlock := tailBlockNext;
      model, ring, off := s, r, o;
    }

    /** The tail block is full and followed by the front block: link in a new block. */
    method EnqueueInNewBlock(x: T)
      requires Sound() && model.prod == S.Allocate(x, tailBlock.id) && model.peak == S.Held(model)
      modifies this, all, Arrays(all)
      ensures Sound() && all == old(all) + [tailBlock] && fresh(tailBlock) && fresh(tailBlock.data)
      ensures Ended(old(model), model, [x])
    {
      hide Rep, Member, Fits, Ended, Q.BlockHolding, NewSize, Arrays;
      InFrame(tailBlock);
      ghost var s, r, o := UseNew(model, ring, off, frontBlock.id, tailBlock.id, largestBlockSize, maxBlockSize);
      var newBlockSize := NewSize(largestBlockSize, maxBlockSize);
      var newBlock, more, picture := LinkNew(all, model.blocks, tailBlock, newBlockSize, x);
      StillMember(all, newBlock, frontBlock);
      largestBlockSize, tailBlock := newBlockSize, newBlock;
      all, model, ring, off := more, s, r, o;
    }

    /** The test for room in the tail block. */
    method FindRoom(x: T, canAlloc: bool) returns (room: bool, blockTail: nat, nextBlockTail: nat)
      requires Valid()
      modifies this, all, Arrays(all)
      ensures Sound() && all == old(all) && SameQueue(old(model), model) && model.cons == old(model.cons)
      ensures Tested(old(model), model) && model.peak == S.Held(model)
      ensures if room then model.prod == S.Construct(x, tailBlock.id, blockTail, nextBlockTail)
              else model.prod == S.LoadNext(x, canAlloc, tailBlock.id) && C.TailFull(model)
    {
      hide Rep, Member, Fits, SameQueue, Quiet, Tested, C.TailFull, And, Arrays;
      InFrame(tailBlock);
      ghost var s, r, o := TestRoom(model, ring, off, x, canAlloc, frontBlock.id, tailBlock.id, largestBlockSize, maxBlockSize);
      var blockFront := tailBlock.localFront;
      blockTail := tailBlock.tail;
      nextBlockTail := And(blockTail + 1, tailBlock.data.Length - 1);
      room := nextBlockTail != blockFront;
      ghost var picture := model.blocks;
      assert picture == picture[tailBlock.id := picture[tailBlock.id].(localFront := blockFront)];
      if !room {
        picture := SetLocalFront(all, picture, tailBlock, tailBlock.front);
        room := nextBlockTail != tailBlock.localFront;
      }
      model, ring, off := s, r, o;
    }

    /** The tail block is full: is the block after it free? */
    ghost method StepTestNext()
      requires Sound() && model.prod.LoadNext? && model.prod.b == tailBlock.id && model.peak == S.Held(model) && C.TailFull(model)
      modifies this`model, this`ring, this`off
      ensures Sound() && model.cons == old(model.cons) && model.peak == S.Held(model) && C.TailFull(model)
      ensures SameQueue(old(model), model)
      ensures model.prod == if tailBlock.next.id != frontBlock.id then S.ReloadNext(old(model.prod.x), tailBlock.id)
                            else if old(model.prod.alloc) then S.Allocate(old(model.prod.x), tailBlock.id) else S.PDone(false)
      ensures tailBlock.next.id == frontBlock.id ==> S.Held(model) >= model.cfg.size && C.NoneLeft(old(model), model)
      ensures model.blocks == old(model.blocks) && model.tailBlock == old(model.tailBlock) && model.frontBlock == old(model.frontBlock)
    {
      hide Rep, Member, Fits, C.NoneLeft, C.TailFull, Arrays;
      InFrame(tailBlock);
      var s, r, o := TestNext(model, ring, off, frontBlock.id, tailBlock.id, largestBlockSize, maxBlockSize);
      SameTail(model, s);
      model, ring, off := s, r, o;
    }

    /** The tail block is full: use the block after it, or allocate one. */
    method EnqueueBeyond(x: T, canAlloc: bool, memory: bool) returns (ok: bool)
      requires Sound() && model.prod == S.LoadNext(x, canAlloc, tailBlock.id) && model.peak == S.Held(model)
      requires C.TailFull(model)
      modifies this, all, Arrays(all)
      ensures Sound() && Ended(old(model), model, if ok then [x] else [])
      ensures all == old(all) || (canAlloc && all == old(all) + [tailBlock] && fresh(tailBlock) && fresh(tailBlock.data))
      ensures !canAlloc ==> if ok then C.TookNext(old(model), model) else C.NoneLeft(old(model), model)
      ensures !ok ==> S.Held(model) >= model.cfg.size && !(canAlloc && memory)
    {
      hide Rep, Member, Fits, C.TookNext, C.NoneLeft, C.TailFull, Arrays, Ended;
      BeyondIds();
      StepTestNext();
      ghost var s := model;
      if tailBlock.next != frontBlock {
        EnqueueInNext(x);
        SameNext(old(model), s, model);
        ok := true;
      } else if canAlloc && memory {
        EnqueueInNewBlock(x);
        ok := true;
      } else {
        if canAlloc {
          StepRefuse();
          EndedThrough(old(model), s, model, []);
        } else {
          NowEnded(old(model), s);
        }
        return false;
      }
      EndedThrough(old(model), s, model, [x]);
    }

    ghost method StepRefuse()
      requires Sound() && model.prod.Allocate? && model.peak == S.Held(model)
      modifies this`model, this`ring, this`off
      ensures Sound() && Ended(old(model), model, [])
    {
      hide Rep, Member, Fits, Ended, Arrays;
      InFrame(tailBlock);
      var s, r, o := Refuse(model, ring, off, frontBlock.id, tailBlock.id, largestBlockSize, maxBlockSize);
      model, ring, off := s, r, o;
    }

    /** `inner_enqueue`: appends `x`, or fails because it may not or cannot allocate (`memory` says
        whether an allocation succeeds), which happens only when the queue holds `size` elements. Without
        allocation it succeeds exactly while there is room, and takes one from the room. */
    method InnerEnqueue(x: T, canAlloc: bool, memory: bool) returns (ok: bool)
      requires Valid()
      modifies this, all, Arrays(all)
      ensures Valid() && model.cfg == old(model.cfg) && Contents() == old(Contents()) + (if ok then [x] else [])
      ensures !ok ==> |Contents()| >= model.cfg.size && !(canAlloc && memory)
      ensures !canAlloc ==> (ok <==> old(Room()) > 0) && Room() == old(Room()) - (if ok then 1 else 0)
      ensures all == old(all) || (canAlloc && all == old(all) + [tailBlock] && fresh(tailBlock) && fresh(tailBlock.data))
    {
      hide Rep, Member, Ended, SameQueue, Quiet, Tested, Arrays, I.Inv, Queued;
      hide C.TookNext, C.TookHere, C.NoneLeft, C.TailFull, C.RoomOf;
      ghost var (s, r, o) := (model, ring, off);
      var room, blockTail, nextBlockTail := FindRoom(x, canAlloc);
      ghost var s1 := model;
      if room {
        EnqueueHere(x, blockTail, nextBlockTail);
        ok := true;
      } else {
        ok := EnqueueBeyond(x, canAlloc, memory);
      }
      QueuedAfter(s, s1, model, if ok then [x] else []);
      if !ok {
        HeldIsQueued(model);
      }
      if !canAlloc {
        RoomAfter(s, r, o, s1, model, ring, off, ok);
      }
    }

    lemma BeyondIds()
      requires Sound()
      ensures tailBlock.next == frontBlock <==> tailBlock.next.id == frontBlock.id
    {
      InFrame(tailBlock);
      SameId(all, tailBlock.next, frontBlock);
    }

    // ---- dequeue, pop and peek -----------------------------------------------------

    /** The search common to `try_dequeue`, `pop` and `peek`: where the oldest element is, if any. A
        removal first leaves a drained front block behind. */
    method FindElement(k: S.Kind) returns (found: bool, b: Block<T>, f: nat)
      requires Valid()
      modifies this, all, Arrays(all)
      ensures Sound() && all == old(all) && SameQueue(old(model), model) && model.prod == old(model.prod)
      ensures Member(all, b) && Searched(model, k, found, b.id, f)
    {
      hide Rep, Member, Fits, SameQueue, Quiet, Arrays, Searched;
      found, b, f := FindHere(k);
      ghost var s1 := model;
      if !found {
        SameEnds();
        if frontBlock == tailBlock {
          ghost var s, r, o := NothingElsewhere(model, ring, off, k, frontBlock.id, tailBlock.id, largestBlockSize, maxBlockSize);
          Unfound(s, k, b.id, f);
          model, ring, off := s, r, o;
        } else {
          found, b, f := FindAgain(k);
        }
        Through(old(model), s1, model);
      }
    }

    /** The test for an element in the front block. */
    method FindHere(k: S.Kind) returns (found: bool, b: Block<T>, f: nat)
      requires Valid()
      modifies this, all, Arrays(all)
      ensures Sound() && all == old(all) && SameQueue(old(model), model) && model.prod == old(model.prod)
      ensures b == frontBlock && model.sawEmpty == (S.Held(model) == 0)
      ensures if found then Searched(model, k, true, b.id, f) else model.cons == S.CLoadTailBlock(k, b.id)
    {
      hide Rep, Member, Fits, SameQueue, Quiet, Arrays, Searched;
      InFrame(frontBlock);
      ghost var s, r, o := TestFront(model, ring, off, k, frontBlock.id, tailBlock.id, largestBlockSize, maxBlockSize);
      b := frontBlock;
      f := b.front;
      ghost var picture := model.blocks;
      assert picture == picture[b.id := picture[b.id].(localTail := b.localTail)];
      if f == b.localTail {
        picture := SetLocalTail(all, picture, b, b.tail);
      }
      found := f != b.localTail;
      model, ring, off := s, r, o;
    }

    /** The front block was empty but is not the tail block: look at it once more, then in the next. */
    method FindAgain(k: S.Kind) returns (found: bool, b: Block<T>, f: nat)
      requires Sound() && model.cons == S.CLoadTailBlock(k, frontBlock.id) && frontBlock.id != tailBlock.id
      requires model.sawEmpty == (S.Held(model) == 0)
      modifies this, all, Arrays(all)
      ensures Sound() && all == old(all) && SameQueue(old(model), model) && model.prod == old(model.prod)
      ensures found && Member(all, b) && Searched(model, k, found, b.id, f)
    {
      hide Rep, Member, Fits, SameQueue, Arrays, Searched;
      InFrame(frontBlock);
      ghost var s, r, o := TestAgain(model, ring, off, k, frontBlock.id, tailBlock.id, largestBlockSize, maxBlockSize);
      b := frontBlock;
      ghost var picture := SetLocalTail(all, model.blocks, b, b.tail);
      f := b.front;
      ghost var before := model;
      model, ring, off := s, r, o;
      found := true;
      if f == b.localTail {
        b, f := FindInNext(k);
        Through(before, s, model);
      }
    }

    /** The front block is drained: the element is in the next one. */
    method FindInNext(k: S.Kind) returns (b: Block<T>, f: nat)
      requires Sound() && model.cons == S.CLoadNext(k, frontBlock.id)
      requires model.sawEmpty == (S.Held(model) == 0)
      modifies this, all, Arrays(all)
      ensures Sound() && all == old(all) && SameQueue(old(model), model) && model.prod == old(model.prod)
      ensures Member(all, b) && Searched(model, k, true, b.id, f)
    {
      hide Rep, Member, Fits, SameQueue, Arrays, Searched;
      InFrame(frontBlock);
      b := frontBlock.next;
      InFrame(b);
      f := b.front;
      ghost var s, r, o;
      if k == S.Peek {
        s, r, o := PeekOn(model, ring, off, frontBlock.id, tailBlock.id, largestBlockSize, maxBlockSize);
        assert f != b.tail;
      } else {
        s, r, o := MoveOn(model, ring, off, k, frontBlock.id, tailBlock.id, largestBlockSize, maxBlockSize);
        ghost var picture := SetLocalTail(all, model.blocks, b, b.tail);
        assert f != b.localTail;
        frontBlock := b;
      }
      model, ring, off := s, r, o;
    }

    lemma SameEnds()
      requires Sound()
      ensures frontBlock == tailBlock <==> frontBlock.id == tailBlock.id
    {
      SameId(all, frontBlock, tailBlock);
    }

    /** Destroy the element in its slot and give the slot up. */
    method RemoveElement(k: S.Kind, f: nat) returns (x: T)
      requires Sound() && model.cons == S.CTake(k, frontBlock.id, f) && !model.prod.Active()
      modifies this, all, Arrays(all)
      ensures Valid() && all == old(all) && model.cfg == old(model.cfg)
      ensures Took(old(Contents()), Contents(), Some(x))
    {
      hide Rep, Member, Fits, Arrays, And, Queued, Took;
      FitsInOrder();
      InFrame(frontBlock);
      ghost var s, r, o := TakeOut(model, ring, off, k, f, frontBlock.id, tailBlock.id, largestBlockSize, maxBlockSize);
      x := frontBlock.data[f].value;
      ghost var picture := Empty(all, model.blocks, frontBlock, f, And(f + 1, frontBlock.data.Length - 1));
      QueuedAfterTake(model, s);
      model, ring, off := s, r, o;
    }

    lemma FitsInOrder()
      requires Sound()
      ensures model.deq <= model.enq
    {
      hide I.Inv;
    }

    /** `try_dequeue`: the oldest element, or nothing exactly when the queue is empty. */
    method TryDequeue() returns (r: Option<T>)
      requires Valid()
      modifies this, all, Arrays(all)
      ensures Valid() && all == old(all) && model.cfg == old(model.cfg)
      ensures Took(old(Contents()), Contents(), r)
    {
      hide Rep, Member, Fits, Arrays, Queued;
      ghost var before := model;
      var found, b, f := FindElement(S.Dequeue);
      QueuedWhenSame(before, model);
      if !found {
        return None;
      }
      FrontId();
      var x := RemoveElement(S.Dequeue, f);
      return Some(x);
    }

    lemma FrontId()
      requires Sound()
      ensures model.frontBlock == frontBlock.id
    {
      hide I.Inv;
    }

    /** `pop`: the same without returning the element. */
    method Pop() returns (ok: bool)
      requires Valid()
      modifies this, all, Arrays(all)
      ensures Valid() && all == old(all) && model.cfg == old(model.cfg)
      ensures Dropped(old(Contents()), Contents(), ok)
    {
      hide Rep, Member, Fits, Arrays, Queued;
      ghost var before := model;
      var found, b, f := FindElement(S.Pop);
      QueuedWhenSame(before, model);
      if found {
        FrontId();
        var _ := RemoveElement(S.Pop, f);
      }
      return found;
    }

    /** `peek`: the slot of the oldest element, or null exactly when the queue is empty. */
    method Peek() returns (place: Option<(Block<T>, nat)>)
      requires Valid()
      modifies this, all, Arrays(all)
      ensures Valid() && all == old(all) && model.cfg == old(model.cfg)
      ensures Contents() == old(Contents()) && (place == None <==> Contents() == [])
      ensures place.Some? ==> place.value.0 in all && First(place.value.0, place.value.1, Contents())
    {
      hide Rep, Member, Fits, Arrays, Queued;
      ghost var before := model;
      var found, b, f := FindElement(S.Peek);
      QueuedWhenSame(before, model);
      if !found {
        return None;
      }
      PeekedOldest(model, ring, off, b.id, f, frontBlock.id, tailBlock.id, largestBlockSize, maxBlockSize);
      InFrame(b);
      return Some((b, f));
    }

    // ---- sizes ---------------------------------------------------------------------

    /** `size_approx`: adding up the masked differences round the ring gives the number of elements. */
    method SizeApprox() returns (result: nat)
      requires Valid()
      ensures result == |Contents()|
    {
      hide Rep, Member, Fits, Arrays, Queued, Quiet, I.Inv, C.Before, C.Between;
      RoundBegins();
      result := 0;
      var block := frontBlock;
      ghost var j := 0;
      var again := true;
      while again
        invariant Valid() && 0 <= j <= |ring| && Member(all, block) && (if again then j < |ring| && block.id == ring[j] else j == |ring|)
        invariant result == C.Before(off, j)
        decreases |ring| - j
      {
        RoundOne(block, j);
        var blockFront, blockTail := block.front, block.tail;
        result := result + C.Between(blockFront, blockTail, block.data.Length);
        block := block.next;
        j := j + 1;
        again := block != frontBlock;
      }
    }

    /** `max_capacity`: the slots round the ring, one per block kept free. That is what can be enqueued
        without allocating when the queue is empty. */
    method MaxCapacity() returns (result: nat)
      requires Valid()
      ensures result >= model.cfg.size && result >= |Contents()| && (Contents() == [] ==> result == Room())
    {
      hide Rep, Member, Fits, Arrays, Queued, Quiet, I.Inv, C.Before, C.Between, C.Slots, C.RoomOf;
      RoundBegins();
      result := 0;
      var block := frontBlock;
      ghost var j := 0;
      var again := true;
      while again
        invariant Valid() && 0 <= j <= |ring| && Member(all, block) && (if again then j < |ring| && block.id == ring[j] else j == |ring|)
        invariant result == C.Slots(model, ring, j)
        decreases |ring| - j
      {
        RoundOne(block, j);
        result := result + (block.data.Length - 1);
        block := block.next;
        j := j + 1;
        again := block != frontBlock;
      }
      CapacityMeaning();
    }

    lemma RoundBegins()
      requires Valid()
      ensures |off| >= 2 && |ring| > 0 && ring[0] == frontBlock.id && Member(all, frontBlock)
      ensures C.Before(off, 0) == 0 && C.Before(off, |ring|) == |Contents()| && C.Slots(model, ring, 0) == 0
    {
      hide I.Inv, Rep, Member, Arrays;
      C.RingBegins(model, ring, off);
      HeldIsQueued(model);
    }

    lemma RoundOne(block: Block<T>, j: nat)
      requires Valid() && j < |ring| && Member(all, block) && block.id == ring[j]
      ensures block.data.Length > 0 && block.front < WORD && |off| >= 2 && Member(all, block.next)
      ensures C.Between(block.front, block.tail, block.data.Length) == C.Before(off, j + 1) - C.Before(off, j) >= 0
      ensures C.Slots(model, ring, j + 1) == C.Slots(model, ring, j) + (block.data.Length - 1)
      ensures block.next == frontBlock <==> j + 1 == |ring|
      ensures j + 1 < |ring| ==> block.next.id == ring[j + 1]
    {
      hide I.Inv, Rep, Member, Arrays, C.Before, C.Between, C.Slots;
      InFrame(block);
      C.BlockSize(model, ring, off, j);
      C.NextInRing(model, ring, off, j);
      SameId(all, block.next, frontBlock);
    }

    lemma CapacityMeaning()
      requires Valid()
      ensures C.Slots(model, ring, |ring|) >= model.cfg.size && C.Slots(model, ring, |ring|) >= |Contents()|
      ensures Contents() == [] ==> C.Slots(model, ring, |ring|) == Room()
    {
      hide I.Inv, Rep, Member, Arrays, C.Slots, C.Room;
      C.EnoughSlots(model, ring, off);
      HeldIsQueued(model);
      if Contents() == [] {
        assert model.enq == model.deq;
        C.RoomWhenEmpty(model, ring, off);
      }
    }
  }

  /** The slot holds the first of the contents. */
  ghost predicate First<T>(b: Block<T>, f: nat, contents: seq<T>)
    reads b.data
  {
    contents != [] && f < b.data.Length && b.data[f] == Some(contents[0])
  }

  lemma Unfound<T>(s: S.State<T>, k: S.Kind, b: nat, f: nat)
    requires Searched(s, k, false, 0, 0)
    ensures Searched(s, k, false, b, f)
  {
  }

  lemma Through<T>(s: S.State<T>, s1: S.State<T>, s2: S.State<T>)
    requires SameQueue(s, s1) && SameQueue(s1, s2)
    ensures SameQueue(s, s2)
  {
  }

  lemma HeldIsQueued<T>(s: S.State<T>)
    requires s.deq <= s.enq
    ensures |Queued(s)| == S.Held(s)
  {
  }

  lemma EndedThrough<T>(s: S.State<T>, s1: S.State<T>, s2: S.State<T>, xs: seq<T>)
    requires SameQueue(s, s1) && s1.cons == s.cons && Ended(s1, s2, xs)
    ensures Ended(s, s2, xs) && S.Held(s2) == S.Held(s1) + |xs| && s2.cfg == s1.cfg
  {
  }

  lemma NowEnded<T>(s: S.State<T>, s': S.State<T>)
    requires SameQueue(s, s') && s'.cons == s.cons && s'.prod == S.PDone(false)
    ensures Ended(s, s', [])
  {
  }

  lemma SameTail<T>(s: S.State<T>, s': S.State<T>)
    requires s'.blocks == s.blocks && s'.tailBlock == s.tailBlock
    ensures C.TailFull(s) == C.TailFull(s')
  {
  }

  lemma SameNext<T>(s: S.State<T>, s1: S.State<T>, s2: S.State<T>)
    requires s1.blocks == s.blocks && s1.tailBlock == s.tailBlock && s1.frontBlock == s.frontBlock && C.TookNext(s1, s2)
    ensures C.TookNext(s, s2)
  {
  }
}
