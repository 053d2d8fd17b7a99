/** The chunk walk: finding a chunk by its four-byte ID after the file's header. */
module Chunks {
  import opened Bytes

  /** What the walk finds from position `i` on, or -1. Sizes that do not fit the file end it. */
  function FindChunk(source: seq<byte>, id: seq<byte>, i: nat, e: Endian): (r: int)
    requires |source| >= 4
    ensures r == -1 || (i <= r < |source| - 4 && source[r..r + 4] == id)
    decreases |source| - i
  {
    if i >= |source| - 4 then -1
    else if source[i..i + 4] == id then i
    else if i + 8 >= |source| then -1
    else
      var size := ReadInt(source, i + 4, 4, e);
      if size > |source| - (i + 4) - 4 || size < 0 then -1 else FindChunk(source, id, i + 8 + size, e)
  }

  /** One round of the walk. */
  lemma FindStep(source: seq<byte>, id: seq<byte>, i: nat, e: Endian)
    requires |source| >= 4
    ensures i >= |source| - 4 ==> FindChunk(source, id, i, e) == -1
    ensures i < |source| - 4 && source[i..i + 4] == id ==> FindChunk(source, id, i, e) == i
    ensures i < |source| - 4 && source[i..i + 4] != id && i + 8 >= |source| ==> FindChunk(source, id, i, e) == -1
    ensures i + 8 < |source| && source[i..i + 4] != id ==>
              var size := ReadInt(source, i + 4, 4, e);
              FindChunk(source, id, i, e)
                == if 0 <= size <= |source| - i - 8 then FindChunk(source, id, i + 8 + size, e) else -1
  {
    hide ReadInt;
  }

  /** `getIndexOfChunk`. */
  method GetIndexOfChunk(source: seq<byte>, id: seq<byte>, startIndex: nat, e: Endian) returns (r: int)
    requires 4 <= |source| < 0x8000_0000
    ensures r == if |id| == 4 then FindChunk(source, id, startIndex, e) else -1
  {
    hide FindChunk, ReadInt;
    if |id| != 4 {
      return -1;
    }
    var i := startIndex;
    while i < |source| - 4
      invariant FindChunk(source, id, i, e) == FindChunk(source, id, startIndex, e)
      decreases |source| - i
    {
      FindStep(source, id, i, e);
      if source[i..i + 4] == id {
        return i;
      }
      i := i + 4;
      if i + 4 >= |source| {
        return -1;
      }
      var chunkSize := ReadInt(source, i, 4, e);
      if chunkSize > |source| - i - 4 || chunkSize < 0 {
        return -1;
      }
      i := i + (4 + chunkSize);
    }
    FindStep(source, id, i, e);
    return -1;
  }

  // ---- chunk lists ------------------------------------------------------------

  datatype Chunk = Chunk(id: seq<byte>, body: seq<byte>)

  /** A chunk as written: ID, body length, body, and no pad byte. */
  function ChunkBytes(c: Chunk, e: Endian): seq<byte> {
    c.id + Store(|c.body|, 4, e) + c.body
  }

  function Layout(cs: seq<Chunk>, e: Endian): seq<byte> {
    if cs == [] then [] else ChunkBytes(cs[0], e) + Layout(cs[1..], e)
  }

  predicate WellFormed(cs: seq<Chunk>) {
    forall k :: 0 <= k < |cs| ==> |cs[k].id| == 4
  }

  /** The position of the first chunk with this ID, counting from `at`, or -1. */
  function Located(cs: seq<Chunk>, id: seq<byte>, at: nat): int {
    if cs == [] then -1
    else if cs[0].id == id then at
    else Located(cs[1..], id, at + 8 + |cs[0].body|)
  }

  lemma FirstChunk(head: seq<byte>, c: Chunk, rest: seq<byte>, e: Endian)
    requires |c.id| == 4 && |head| + |ChunkBytes(c, e)| + |rest| < 0x8000_0000
    ensures var source := head + ChunkBytes(c, e) + rest;
            && |source| == |head| + 8 + |c.body| + |rest|
            && source[|head|..|head| + 4] == c.id
            && ReadInt(source, |head| + 4, 4, e) == |c.body|
            && source[|head| + 8..|head| + 8 + |c.body|] == c.body
  {
    var source := head + ChunkBytes(c, e) + rest;
    hide Scale, Load, Store;
    assert source[|head| + 4..|head| + 8] == Store(|c.body|, 4, e);
    Scales();
    SignedRoundTrip(|c.body|, 4, e);
  }

  lemma PastFirstChunk(head: seq<byte>, c: Chunk, rest: seq<byte>, id: seq<byte>, e: Endian)
    requires |c.id| == 4 && |head| >= 4 && |head| + |ChunkBytes(c, e)| + |rest| < 0x8000_0000
    ensures var source := head + ChunkBytes(c, e) + rest;
            FindChunk(source, id, |head|, e)
              == if c.id == id then |head| else FindChunk(source, id, |head| + |ChunkBytes(c, e)|, e)
  {
    hide FindChunk, ReadInt, Store;
    var source := head + ChunkBytes(c, e) + rest;
    FindStep(source, id, |head|, e);
    FindStep(source, id, |source|, e);
    FirstChunk(head, c, rest, e);
  }

  /** For every well-formed list of chunks after a header, in either byte order, the walk lands on the
      first chunk with the requested ID and on nothing else. */
  lemma {:induction false} WalkFinds(head: seq<byte>, cs: seq<Chunk>, id: seq<byte>, e: Endian)
    requires |head| >= 4 && WellFormed(cs) && |id| == 4 && |head + Layout(cs, e)| < 0x8000_0000
    ensures FindChunk(head + Layout(cs, e), id, |head|, e) == Located(cs, id, |head|)
    decreases |cs|
  {
    hide FindChunk, Store;
    if cs == [] {
      FindStep(head + Layout(cs, e), id, |head|, e);
    } else {
      var head' := head + ChunkBytes(cs[0], e);
      PastFirstChunk(head, cs[0], Layout(cs[1..], e), id, e);
      assert head + Layout(cs, e) == head' + Layout(cs[1..], e);
      WalkFinds(head', cs[1..], id, e);
    }
  }

  /** In the list's own terms: -1 exactly when no chunk has the ID, and otherwise the end of everything
      before the first that has. */
  lemma {:induction false} LocatedIsFirst(cs: seq<Chunk>, id: seq<byte>, at: nat, e: Endian)
    requires WellFormed(cs)
    ensures Located(cs, id, at) == -1 <==> forall k :: 0 <= k < |cs| ==> cs[k].id != id
    ensures forall k :: 0 <= k < |cs| && cs[k].id == id && (forall j :: 0 <= j < k ==> cs[j].id != id)
              ==> Located(cs, id, at) == at + |Layout(cs[..k], e)|
  {
    hide Store;
    if cs != [] {
      var at' := at + 8 + |cs[0].body|;
      LocatedIsFirst(cs[1..], id, at', e);
      forall k | 0 < k < |cs| ensures |Layout(cs[..k], e)| == 8 + |cs[0].body| + |Layout(cs[1..][..k - 1], e)| {
        assert cs[..k][0] == cs[0] && cs[..k][1..] == cs[1..][..k - 1];
      }
      if cs[0].id != id && Located(cs, id, at) == -1 {
        forall k | 0 <= k < |cs| ensures cs[k].id != id {
          if k > 0 { assert cs[k] == cs[1..][k - 1]; }
        }
      }
      forall k | 0 <= k < |cs| && cs[k].id == id && forall j :: 0 <= j < k ==> cs[j].id != id
        ensures Located(cs, id, at) == at + |Layout(cs[..k], e)|
      {
        if k > 0 {
          assert cs[1..][k - 1] == cs[k];
          assert forall j :: 0 <= j < k - 1 ==> cs[1..][j] == cs[j + 1];
        }
      }
    }
  }

  /** Where chunk `k` starts when the first starts at `at`. */
  function Start(cs: seq<Chunk>, k: nat, at: nat): nat
    requires k <= |cs|
  {
    if k == 0 then at else Start(cs[1..], k - 1, at + 8 + |cs[0].body|)
  }

  /** Chunk `k` of a list can be read back from where it starts. */
  lemma {:induction false} ChunkAt(head: seq<byte>, cs: seq<Chunk>, k: nat, e: Endian)
    requires WellFormed(cs) && k < |cs| && |head + Layout(cs, e)| < 0x8000_0000
    ensures var (source, at, body) := (head + Layout(cs, e), Start(cs, k, |head|), cs[k].body);
            && at + 8 + |body| <= |source| && (k == |cs| - 1 ==> at + 8 + |body| == |source|)
            && ReadInt(source, at + 4, 4, e) == |body|
            && source[at + 8..at + 8 + |body|] == body
    decreases k
  {
    hide Store, ReadInt;
    var rest := Layout(cs[1..], e);
    var head' := head + ChunkBytes(cs[0], e);
    assert head + Layout(cs, e) == head' + rest;
    if k == 0 {
      FirstChunk(head, cs[0], rest, e);
    } else {
      ChunkAt(head', cs[1..], k - 1, e);
    }
  }

  /** Chunk `k` of a list stands where it starts. */
  lemma {:induction false} ChunkStands(head: seq<byte>, cs: seq<Chunk>, k: nat, e: Endian)
    requires WellFormed(cs) && k < |cs|
    ensures Stands(head + Layout(cs, e), Start(cs, k, |head|), ChunkBytes(cs[k], e))
    decreases k
  {
    hide Store, Stands;
    var (first, rest) := (ChunkBytes(cs[0], e), Layout(cs[1..], e));
    assert head + Layout(cs, e) == (head + first) + rest;
    if k == 0 {
      StandsAtEnd(head, first);
      StandsInFirst(head + first, rest, |head|, first);
    } else {
      ChunkStands(head + first, cs[1..], k - 1, e);
    }
  }

  /** A chunk is its ID, the length of its body and its body. */
  lemma ChunkParts(data: seq<byte>, at: nat, c: Chunk, e: Endian)
    requires |c.id| == 4 && Stands(data, at, ChunkBytes(c, e))
    ensures Stands(data, at, c.id) && Stands(data, at + 4, Store(|c.body|, 4, e)) && Stands(data, at + 8, c.body)
  {
    hide Store;
    ThreeParts(c.id, Store(|c.body|, 4, e), c.body);
    hide Stands;
    var chunk := ChunkBytes(c, e);
    StandsWithin(data, at, chunk, 0, c.id);
    StandsWithin(data, at, chunk, 4, Store(|c.body|, 4, e));
    StandsWithin(data, at, chunk, 8, c.body);
  }
}
