/** The queue as the object the code works on, used from one thread: blocks on the heap, each with its own
    array of slots, linked in a circle by `next`. The methods update them in place as the code does;
    alongside, a ghost copy of the transition system takes the same steps, so the invariant proved there
    carries over and each call is specified on the plain sequence of queued elements. */
module SpscHeap {
  import opened Options
  import S = Spsc

  class Block<T> {
    const data: array<Option<T>>
    var front: nat
    var localTail: nat
    var tail: nat
    var localFront: nat
    var next: Block<T>
    ghost const id: nat      // in order of allocation

    constructor (capacity: nat, ghost id: nat)
      ensures fresh(data) && this.id == id && Shows(this, S.MakeBlock(capacity, id)) && next == this
    {
      data := new Option<T>[capacity](_ => None);
      front, localTail, tail, localFront := 0, 0, 0, 0;
      next := this;
      this.id := id;
      new;
      assert data[..] == S.MakeBlock<T>(capacity, id).data;
    }
  }

  /** The block on the heap shows the record `m`. */
  ghost predicate Shows<T>(b: Block<T>, m: S.Block<T>)
    reads b, b.data
  {
    b.data[..] == m.data && b.front == m.front && b.localTail == m.localTail && b.tail == m.tail
    && b.localFront == m.localFront && b.next.id == m.next
  }

  /** The blocks are numbered and no two share an array. */
  ghost predicate Objects<T>(all: seq<Block<T>>) {
    && (forall i :: 0 <= i < |all| ==> all[i].id == i)
    && (forall i, j :: 0 <= i < j < |all| ==> all[i].data != all[j].data)
  }

  ghost predicate Member<T>(all: seq<Block<T>>, b: Block<T>) {
    b.id < |all| && all[b.id] == b
  }

  /** `next` stays among the blocks. */
  ghost predicate Closed<T>(all: seq<Block<T>>)
    reads all
  {
    forall i {:trigger all[i].next} :: 0 <= i < |all| ==> Member(all, all[i].next)
  }

  ghost function Arrays<T>(all: seq<Block<T>>): set<array<Option<T>>> {
    set b | b in all :: b.data
  }

  ghost predicate Mirror<T>(all: seq<Block<T>>, blocks: seq<S.Block<T>>)
    reads all, Arrays(all)
  {
    |all| == |blocks| && forall i :: 0 <= i < |all| ==> Shows(all[i], blocks[i])
  }

  /** The heap and its picture agree. */
  ghost predicate Rep<T>(all: seq<Block<T>>, blocks: seq<S.Block<T>>)
    reads all, Arrays(all)
  {
    Objects(all) && Closed(all) && Mirror(all, blocks)
  }

  lemma SameId<T>(all: seq<Block<T>>, a: Block<T>, b: Block<T>)
    requires Member(all, a) && Member(all, b)
    ensures a == b <==> a.id == b.id
  {
  }

  // ---- one store at a time ---------------------------------------------------------

  /** All blocks but `b`. */
  ghost function Beside<T>(all: seq<Block<T>>, b: Block<T>): set<Block<T>> {
    set x | x in all && x != b
  }

  /** The heap and its picture agree on every block but `b`. */
  ghost predicate Others<T>(all: seq<Block<T>>, blocks: seq<S.Block<T>>, b: Block<T>)
    reads Beside(all, b), set x | x in Beside(all, b) :: x.data
  {
    |all| == |blocks|
    && forall i {:trigger blocks[i]} :: 0 <= i < |all| && all[i] != b ==> Shows(all[i], blocks[i]) && Member(all, all[i].next)
  }

  lemma Split<T>(all: seq<Block<T>>, blocks: seq<S.Block<T>>, b: Block<T>)
    requires Rep(all, blocks) && Member(all, b)
    ensures Objects(all) && Others(all, blocks, b) && |all| == |blocks|
    ensures Shows(b, blocks[b.id]) && Member(all, b.next)
    ensures b.data !in set x | x in Beside(all, b) :: x.data
  {
    assert all[b.id].next == b.next;
    forall x | x in Beside(all, b) ensures x.data != b.data {
      var i :| 0 <= i < |all| && all[i] == x;
    }
  }

  lemma Merge<T>(all: seq<Block<T>>, blocks: seq<S.Block<T>>, b: Block<T>, m: S.Block<T>)
    requires Objects(all) && Others(all, blocks, b) && Member(all, b) && Shows(b, m) && Member(all, b.next)
    ensures Rep(all, blocks[b.id := m])
  {
    forall i | 0 <= i < |all| ensures Shows(all[i], blocks[b.id := m][i]) && Member(all, all[i].next) {
      assert i != b.id ==> all[i] != b;
    }
  }

  // ---- one store at a time ---------------------------------------------------------

  method SetFront<T>(ghost all: seq<Block<T>>, ghost blocks: seq<S.Block<T>>, b: Block<T>, v: nat)
    returns (ghost blocks': seq<S.Block<T>>)
    requires Rep(all, blocks) && Member(all, b)
    modifies b
    ensures Rep(all, blocks') && blocks' == blocks[b.id := blocks[b.id].(front := v)]
    ensures b.id < |blocks| && Shows(b, blocks'[b.id])
  {
    hide Rep, Others;
    Split(all, blocks, b);
    ghost var m := blocks[b.id].(front := v);
    b.front := v;
    Merge(all, blocks, b, m);
    blocks' := blocks[b.id := m];
  }

  method SetLocalTail<T>(ghost all: seq<Block<T>>, ghost blocks: seq<S.Block<T>>, b: Block<T>, v: nat)
    returns (ghost blocks': seq<S.Block<T>>)
    requires Rep(all, blocks) && Member(all, b)
    modifies b
    ensures Rep(all, blocks') && blocks' == blocks[b.id := blocks[b.id].(localTail := v)]
    ensures b.id < |blocks| && Shows(b, blocks'[b.id])
  {
    hide Rep, Others;
    Split(all, blocks, b);
    ghost var m := blocks[b.id].(localTail := v);
    b.localTail := v;
    Merge(all, blocks, b, m);
    blocks' := blocks[b.id := m];
  }

  method SetTail<T>(ghost all: seq<Block<T>>, ghost blocks: seq<S.Block<T>>, b: Block<T>, v: nat)
    returns (ghost blocks': seq<S.Block<T>>)
    requires Rep(all, blocks) && Member(all, b)
    modifies b
    ensures Rep(all, blocks') && blocks' == blocks[b.id := blocks[b.id].(tail := v)]
    ensures b.id < |blocks| && Shows(b, blocks'[b.id])
  {
    hide Rep, Others;
    Split(all, blocks, b);
    ghost var m := blocks[b.id].(tail := v);
    b.tail := v;
    Merge(all, blocks, b, m);
    blocks' := blocks[b.id := m];
  }

  method SetLocalFront<T>(ghost all: seq<Block<T>>, ghost blocks: seq<S.Block<T>>, b: Block<T>, v: nat)
    returns (ghost blocks': seq<S.Block<T>>)
    requires Rep(all, blocks) && Member(all, b)
    modifies b
    ensures Rep(all, blocks') && blocks' == blocks[b.id := blocks[b.id].(localFront := v)]
    ensures b.id < |blocks| && Shows(b, blocks'[b.id])
  {
    hide Rep, Others;
    Split(all, blocks, b);
    ghost var m := blocks[b.id].(localFront := v);
    b.localFront := v;
    Merge(all, blocks, b, m);
    blocks' := blocks[b.id := m];
  }

  method SetNext<T>(ghost all: seq<Block<T>>, ghost blocks: seq<S.Block<T>>, b: Block<T>, next: Block<T>)
    returns (ghost blocks': seq<S.Block<T>>)
    requires Rep(all, blocks) && Member(all, b) && Member(all, next)
    modifies b
    ensures Rep(all, blocks') && blocks' == blocks[b.id := blocks[b.id].(next := next.id)]
    ensures b.id < |blocks| && Shows(b, blocks'[b.id])
  {
    hide Rep, Others;
    Split(all, blocks, b);
    ghost var m := blocks[b.id].(next := next.id);
    b.next := next;
    Merge(all, blocks, b, m);
    blocks' := blocks[b.id := m];
  }

  method SetSlot<T>(ghost all: seq<Block<T>>, ghost blocks: seq<S.Block<T>>, b: Block<T>, i: nat, x: Option<T>)
    returns (ghost blocks': seq<S.Block<T>>)
    requires Rep(all, blocks) && Member(all, b) && i < b.data.Length
    modifies b.data
    ensures Rep(all, blocks') && blocks' == blocks[b.id := blocks[b.id].(data := blocks[b.id].data[i := x])]
    ensures b.id < |blocks| && Shows(b, blocks'[b.id])
  {
    hide Rep, Others;
    Split(all, blocks, b);
    ghost var m := blocks[b.id].(data := blocks[b.id].data[i := x]);
    b.data[i] := x;
    Merge(all, blocks, b, m);
    blocks' := blocks[b.id := m];
  }

  method AddBlock<T>(ghost all: seq<Block<T>>, ghost blocks: seq<S.Block<T>>, capacity: nat)
    returns (b: Block<T>, ghost all': seq<Block<T>>, ghost blocks': seq<S.Block<T>>)
    requires Rep(all, blocks)
    ensures fresh(b) && fresh(b.data) && all' == all + [b] && Member(all', b)
    ensures Rep(all', blocks') && blocks' == blocks + [S.MakeBlock(capacity, |blocks|)]
    ensures b.id == |all| == |blocks| && b.data.Length == capacity && b.front == 0
  {
    b := new Block<T>(capacity, |all|);
    all' := all + [b];
    blocks' := blocks + [S.MakeBlock(capacity, |blocks|)];
    forall i | 0 <= i < |all'| ensures Shows(all'[i], blocks'[i]) && Member(all', all'[i].next) {
      assert i < |all| ==> all'[i] == all[i] && Shows(all[i], blocks[i]) && Member(all, all[i].next);
    }
  }

  /** Construct an element in a slot and store the index after it. */
  method Fill<T>(ghost all: seq<Block<T>>, ghost blocks: seq<S.Block<T>>, b: Block<T>, i: nat, x: T, next: nat)
    returns (ghost blocks': seq<S.Block<T>>)
    requires Rep(all, blocks) && Member(all, b) && i < b.data.Length
    modifies b, b.data
    ensures Rep(all, blocks') && b.id < |blocks| && i < |blocks[b.id].data|
    ensures blocks' == blocks[b.id := blocks[b.id].(data := blocks[b.id].data[i := Some(x)], tail := next)]
  {
    hide Rep, Member;
    Split(all, blocks, b);
    blocks' := SetSlot(all, blocks, b, i, Some(x));
    blocks' := SetTail(all, blocks', b, next);
  }

  /** Destroy the element in a slot and store the index after it. */
  method Empty<T>(ghost all: seq<Block<T>>, ghost blocks: seq<S.Block<T>>, b: Block<T>, i: nat, next: nat)
    returns (ghost blocks': seq<S.Block<T>>)
    requires Rep(all, blocks) && Member(all, b) && i < b.data.Length
    modifies b, b.data
    ensures Rep(all, blocks') && b.id < |blocks| && i < |blocks[b.id].data|
    ensures blocks' == blocks[b.id := blocks[b.id].(data := blocks[b.id].data[i := None], front := next)]
  {
    hide Rep, Member;
    Split(all, blocks, b);
    blocks' := SetSlot(all, blocks, b, i, None);
    blocks' := SetFront(all, blocks', b, next);
  }
}
