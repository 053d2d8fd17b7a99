/** The framing of the I/Q stream: magic number, number of sample pairs, samples; and the two ends of it,
    the relay that writes frames and the daemon that reads them. */
module IqFraming {
  import opened Bytes
  import opened ClientStreams
  import opened RelayRing

  const MAGIC: nat := 0x49515043
  const MAX_SAMPLES: nat := 65536

  predicate IsSamples(b: seq<int>) {
    forall k :: 0 <= k < |b| ==> -0x8000 <= b[k] < 0x8000
  }

  /** A block the relay can take from its ring: whole pairs of 16-bit samples, at most a slot full. */
  predicate IsBlock(b: seq<int>) {
    |b| % 2 == 0 && |b| / 2 <= SLOT_SAMPLES && IsSamples(b)
  }

  /** The samples as the little-endian host holds them. */
  function Payload(b: seq<int>): (p: seq<byte>)
    ensures |p| == 2 * |b|
  {
    if b == [] then [] else Store(b[0], 2, Little) + Payload(b[1..])
  }

  function Unpack(p: seq<byte>): seq<int> {
    if |p| < 2 then [] else [Signed(Load(p[..2], Little), 2)] + Unpack(p[2..])
  }

  function FrameBytes(b: seq<int>): (f: seq<byte>)
    ensures |f| == 8 + 2 * |b|
  {
    Store(MAGIC, 4, Big) + Store(|b| / 2, 4, Big) + Payload(b)
  }

  /** The frame at the start of a stream, if there is a whole one. */
  predicate WholeFrame(stream: seq<byte>) {
    |stream| >= 8 && Load(stream[..4], Big) == MAGIC && |stream| >= 8 + 4 * Load(stream[4..8], Big)
  }

  /** A stream cut into blocks as the framing documents, and what is left. */
  function Parse(stream: seq<byte>): (seq<seq<int>>, seq<byte>)
    decreases |stream|
  {
    if !WholeFrame(stream) then ([], stream)
    else
      var len := 8 + 4 * Load(stream[4..8], Big);
      var (blocks, rest) := Parse(stream[len..]);
      ([Unpack(stream[8..len])] + blocks, rest)
  }

  /** What the daemon delivers from a stream: it also gives up at a count of 0 or above its limit. */
  function Read(stream: seq<byte>): seq<seq<int>>
    decreases |stream|
  {
    if !WholeFrame(stream) then []
    else
      var n := Load(stream[4..8], Big);
      if n == 0 || n > MAX_SAMPLES then []
      else [Unpack(stream[8..8 + 4 * n])] + Read(stream[8 + 4 * n..])
  }

  /** `tcpReaderThread`'s loop over one connection. */
  method ReadConnection(stream: seq<byte>) returns (delivered: seq<seq<int>>)
    ensures delivered == Read(stream)
  {
    hide Load, Unpack, Read;
    delivered := [];
    var at := 0;
    assert stream[0..] == stream;
    while true
      invariant 0 <= at <= |stream| && Read(stream) == delivered + Read(stream[at..])
      decreases |stream| - at
    {
      ReadStep(stream, at);
      if |stream| - at < 8 {
        return;
      }
      var (magic, numSamples) := (Load(stream[at..at + 4], Big), Load(stream[at + 4..at + 8], Big));
      if magic != MAGIC {
        return;
      }
      if numSamples == 0 || numSamples > MAX_SAMPLES {
        return;
      }
      var payload := numSamples * 2 * 2;
      if |stream| - at - 8 < payload {
        return;
      }
      delivered := delivered + [Unpack(stream[at + 8..at + 8 + payload])];
      at := at + 8 + payload;
    }
  }

  /** One round of the daemon's loop. */
  lemma ReadStep(stream: seq<byte>, at: nat)
    requires at <= |stream|
    ensures |stream| - at < 8 ==> Read(stream[at..]) == []
    ensures |stream| - at >= 8 ==>
              var (magic, n) := (Load(stream[at..at + 4], Big), Load(stream[at + 4..at + 8], Big));
              Read(stream[at..])
                == if magic != MAGIC || n == 0 || n > MAX_SAMPLES || |stream| - at - 8 < 4 * n then []
                   else [Unpack(stream[at + 8..at + 8 + 4 * n])] + Read(stream[at + 8 + 4 * n..])
  {
    hide Load, Unpack;
    var rest := stream[at..];
    if |rest| >= 8 {
      assert stream[at..at + 4] == rest[..4] && stream[at + 4..at + 8] == rest[4..8];
      var n := Load(rest[4..8], Big);
      if |rest| >= 8 + 4 * n {
        assert stream[at + 8..at + 8 + 4 * n] == rest[8..8 + 4 * n] && stream[at + 8 + 4 * n..] == rest[8 + 4 * n..];
      }
    }
  }

  // ---- one frame -------------------------------------------------------------------------

  lemma {:induction false} PayloadRoundTrip(b: seq<int>)
    requires forall k :: 0 <= k < |b| ==> -0x8000 <= b[k] < 0x8000
    ensures Unpack(Payload(b)) == b
  {
    hide Load, Store, Scale;
    if b != [] {
      Scales();
      SignedRoundTrip(b[0], 2, Little);
      var p := Payload(b);
      assert p[..2] == Store(b[0], 2, Little) && p[2..] == Payload(b[1..]);
      PayloadRoundTrip(b[1..]);
    }
  }

  lemma {:induction false} PayloadAt(b: seq<int>, k: nat)
    requires k < |b|
    ensures Stands(Payload(b), 2 * k, Store(b[k], 2, Little))
  {
    hide Store, Stands;
    if k == 0 {
      StandsAtStart(Store(b[0], 2, Little), Payload(b[1..]));
    } else {
      PayloadAt(b[1..], k - 1);
      StandsInSecond(Store(b[0], 2, Little), Payload(b[1..]), 2 * k, 2 * (k - 1), Store(b[k], 2, Little));
    }
  }

  /** A frame, byte by byte: "IQPC", the number of pairs with the most significant byte first, then the samples
      with the least significant byte first. */
  ghost predicate FrameLayout(f: seq<byte>, b: seq<int>) {
    && |f| == 8 + 2 * |b| && Stands(f, 0, [0x49, 0x51, 0x50, 0x43]) && BigEndian(f, 4, 4, |b| / 2)
    && forall k :: 0 <= k < |b| ==> LittleEndian(f, 8 + 2 * k, 2, b[k])
  }

  lemma FrameWritten(b: seq<int>)
    ensures FrameLayout(FrameBytes(b), b)
  {
    hide Store, Stands, BigEndian, LittleEndian, Payload;
    var f := FrameBytes(b);
    ThreeParts(Store(MAGIC, 4, Big), Store(|b| / 2, 4, Big), Payload(b));
    hide FrameBytes;
    MagicBytes();
    Written(f, 4, 4, |b| / 2, Big);
    forall k | 0 <= k < |b| ensures LittleEndian(f, 8 + 2 * k, 2, b[k]) {
      PayloadAt(b, k);
      FieldWritten(f, 8, Payload(b), 2 * k, 2, b[k], Little);
    }
  }

  lemma MagicBytes()
    ensures Store(MAGIC, 4, Big) == [0x49, 0x51, 0x50, 0x43]
  {
    assert Store(0x49, 1, Big) == [0x49];
    assert Store(0x4951, 2, Big) == [0x49, 0x51];
    assert Store(0x495150, 3, Big) == [0x49, 0x51, 0x50];
  }

  lemma {:induction false} UnpackAt(p: seq<byte>, k: nat)
    requires 2 * k + 2 <= |p|
    ensures |Unpack(p)| == |p| / 2 && Unpack(p)[k] == Signed(Load(p[2 * k..2 * k + 2], Little), 2)
  {
    hide Load, Signed;
    UnpackLength(p);
    UnpackFirst(p);
    hide Unpack;
    if k == 0 {
      assert p[..2] == p[0..2];
    } else {
      UnpackAt(p[2..], k - 1);
      assert p[2..][2 * (k - 1)..2 * (k - 1) + 2] == p[2 * k..2 * k + 2];
    }
  }

  lemma UnpackFirst(p: seq<byte>)
    requires |p| >= 2
    ensures Unpack(p) == [Signed(Load(p[..2], Little), 2)] + Unpack(p[2..])
  {
    hide Load, Signed;
  }

  lemma {:induction false} UnpackLength(p: seq<byte>)
    ensures |Unpack(p)| == |p| / 2
  {
    hide Load, Signed;
    if |p| >= 2 {
      UnpackLength(p[2..]);
    }
  }

  /** Sample `k` of the first frame is the 16-bit number `v`. */
  ghost predicate SampleAt(stream: seq<byte>, k: nat, v: int) {
    -0x8000 <= v < 0x8000 && LittleEndian(stream, 8 + 2 * k, 2, v)
  }

  /** What the daemon makes of the first frame of a stream, byte by byte: it goes on exactly if the stream starts
      with "IQPC" and a number of pairs from 1 to 65536 and holds that many; and it then delivers those samples
      and goes on behind them. */
  lemma ReadsFirst(stream: seq<byte>, pairs: nat)
    requires pairs < 0x1_0000_0000 && BigEndian(stream, 4, 4, pairs)
    ensures var good := Stands(stream, 0, [0x49, 0x51, 0x50, 0x43]) && 1 <= pairs <= 65536 && |stream| >= 8 + 4 * pairs;
            && (!good ==> Read(stream) == [])
            && (good ==> && Read(stream) != [] && Read(stream)[1..] == Read(stream[8 + 4 * pairs..])
                         && |Read(stream)[0]| == 2 * pairs
                         && forall k :: 0 <= k < 2 * pairs ==> SampleAt(stream, k, Read(stream)[0][k]))
  {
    hide Load, Store, BigEndian, SampleAt, Unpack, Read, Scale;
    Scales();
    Reads(stream, 4, 4, pairs, Big);
    FieldFits(stream, 4, 4, pairs);
    assert stream[0..] == stream;
    ReadStep(stream, 0);
    MagicRead(stream);
    if Stands(stream, 0, [0x49, 0x51, 0x50, 0x43]) && 1 <= pairs <= 65536 && |stream| >= 8 + 4 * pairs {
      var payload := stream[8..8 + 4 * pairs];
      UnpackLength(payload);
      forall k | 0 <= k < 2 * pairs ensures SampleAt(stream, k, Unpack(payload)[k]) {
        SampleRead(stream, payload, k);
      }
    }
  }

  lemma FieldFits(data: seq<byte>, at: nat, n: nat, v: int)
    requires BigEndian(data, at, n, v)
    ensures at + n <= |data|
  {
  }

  lemma MagicRead(stream: seq<byte>)
    requires |stream| >= 4
    ensures Load(stream[..4], Big) == MAGIC <==> Stands(stream, 0, [0x49, 0x51, 0x50, 0x43])
  {
    hide Load, Store;
    MagicBytes();
    StoreLoad(stream[..4], Big);
    Scales();
    UnsignedRoundTrip(MAGIC, 4, Big);
  }

  lemma SampleRead(stream: seq<byte>, payload: seq<byte>, k: nat)
    requires |payload| >= 2 * k + 2 && Stands(stream, 8, payload)
    ensures |Unpack(payload)| > k && SampleAt(stream, k, Unpack(payload)[k])
  {
    hide Load, Store, LittleEndian, Unpack, Stands;
    Scales();
    UnpackAt(payload, k);
    var part := payload[2 * k..2 * k + 2];
    StoreSigned(part, Little);
    SliceStands(payload, 2 * k, 2);
    FieldWritten(stream, 8, payload, 2 * k, 2, Unpack(payload)[k], Little);
  }

  lemma SliceStands(bytes: seq<byte>, at: nat, n: nat)
    requires at + n <= |bytes|
    ensures Stands(bytes, at, bytes[at..at + n])
  {
  }

  lemma Header(b: seq<int>, rest: seq<byte>)
    requires IsBlock(b)
    ensures var stream := FrameBytes(b) + rest;
            && |stream| >= 8 && Load(stream[..4], Big) == MAGIC && Load(stream[4..8], Big) == |b| / 2
            && stream[8..8 + 2 * |b|] == Payload(b) && stream[8 + 2 * |b|..] == rest
  {
    Scales();
    hide Load, Store, Scale, Payload;
    var stream := FrameBytes(b) + rest;
    assert stream[..4] == Store(MAGIC, 4, Big) && stream[4..8] == Store(|b| / 2, 4, Big);
    UnsignedRoundTrip(MAGIC, 4, Big);
    UnsignedRoundTrip(|b| / 2, 4, Big);
  }

  lemma FirstFrame(b: seq<int>, rest: seq<byte>)
    requires IsBlock(b)
    ensures var stream := FrameBytes(b) + rest;
            && Parse(stream) == ([b] + Parse(rest).0, Parse(rest).1)
            && Read(stream) == if b == [] then [] else [b] + Read(rest)
  {
    Header(b, rest);
    PayloadRoundTrip(b);
    hide Load, Unpack, FrameBytes, Payload;
  }

  /** Part of a frame, not all of it, is no whole frame. */
  lemma PartOfFrame(b: seq<int>, n: nat)
    requires IsBlock(b) && n < |FrameBytes(b)|
    ensures !WholeFrame(FrameBytes(b)[..n])
    ensures Parse(FrameBytes(b)[..n]) == ([], FrameBytes(b)[..n]) && Read(FrameBytes(b)[..n]) == []
  {
    Header(b, []);
    hide Load, Unpack, Payload;
    var (f, part) := (FrameBytes(b), FrameBytes(b)[..n]);
    assert f + [] == f;
    if n >= 8 {
      assert part[..4] == f[..4] && part[4..8] == f[4..8];
    }
  }

  // ---- whole streams ---------------------------------------------------------------------

  lemma {:induction false} FirstOfJoined(frames: seq<seq<byte>>, lo: nat, hi: nat)
    requires lo < hi <= |frames|
    ensures Joined(frames, lo, hi) == frames[lo] + Joined(frames, lo + 1, hi)
    decreases hi
  {
    if lo + 1 < hi {
      FirstOfJoined(frames, lo, hi - 1);
    } else {
      assert Joined(frames, lo, lo) == [];
    }
  }

  /** The frames broadcast are those of these blocks. */
  ghost predicate FramesOf(frames: seq<seq<byte>>, blocks: seq<seq<int>>) {
    && |frames| == |blocks| && forall k :: 0 <= k < |blocks| ==> IsBlock(blocks[k]) && frames[k] == FrameBytes(blocks[k])
  }

  /** The leading blocks that are not empty. */
  function UntilEmpty(blocks: seq<seq<int>>): seq<seq<int>> {
    if blocks == [] || blocks[0] == [] then [] else [blocks[0]] + UntilEmpty(blocks[1..])
  }

  /** Whole frames followed by part of one parse back to exactly their blocks and that part; the daemon
      delivers them up to the first empty one. */
  lemma {:induction false} ParseJoined(frames: seq<seq<byte>>, blocks: seq<seq<int>>, lo: nat, hi: nat, part: seq<byte>)
    requires FramesOf(frames, blocks) && lo <= hi <= |blocks|
    requires Parse(part) == ([], part) && Read(part) == []
    ensures Parse(Joined(frames, lo, hi) + part) == (blocks[lo..hi], part)
    ensures Read(Joined(frames, lo, hi) + part) == UntilEmpty(blocks[lo..hi])
    decreases hi - lo
  {
    hide Parse, Read, FrameBytes, IsBlock;
    if lo == hi {
      assert Joined(frames, lo, hi) + part == part;
    } else {
      FirstOfJoined(frames, lo, hi);
      ParseJoined(frames, blocks, lo + 1, hi, part);
      var rest := Joined(frames, lo + 1, hi) + part;
      assert Joined(frames, lo, hi) + part == FrameBytes(blocks[lo]) + rest;
      hide Joined;
      FirstFrame(blocks[lo], rest);
      assert blocks[lo..hi] == [blocks[lo]] + blocks[lo + 1..hi];
      assert blocks[lo..hi][1..] == blocks[lo + 1..hi];
    }
  }

  lemma {:induction false} UntilEmptyIsAll(blocks: seq<seq<int>>)
    ensures UntilEmpty(blocks) == blocks <==> forall k :: 0 <= k < |blocks| ==> blocks[k] != []
  {
    if blocks != [] {
      UntilEmptyIsAll(blocks[1..]);
      assert blocks == [blocks[0]] + blocks[1..];
      if blocks[0] != [] {
        assert forall k :: 1 <= k < |blocks| ==> blocks[k] == blocks[1..][k - 1];
      }
    }
  }

  lemma EmptyIsNoFrame()
    ensures Parse([]) == ([], []) && Read([]) == []
  {
  }

  /** What a connection has received parses back to the blocks broadcast from its join point on, and the
      daemon at its other end delivers exactly those blocks if and only if none of them is empty. */
  ghost predicate Parses(conn: Connection, blocks: seq<seq<int>>) {
    var end := conn.joined + conn.whole;
    && end <= |blocks|
    && Parse(conn.received).0 == blocks[conn.joined..end]
    && (!conn.cut ==> Parse(conn.received).1 == [])
    && (Read(conn.received) == blocks[conn.joined..end] <==> forall k :: conn.joined <= k < end ==> blocks[k] != [])
  }

  lemma ConnectionParses(conn: Connection, frames: seq<seq<byte>>, blocks: seq<seq<int>>)
    requires Stream(conn, frames) && FramesOf(frames, blocks)
    ensures Parses(conn, blocks)
  {
    hide Parse, Read, FrameBytes, Joined, IsBlock;
    var end := conn.joined + conn.whole;
    var part := [];
    if conn.cut {
      var n :| EndsInPart(conn, frames, n);
      part := frames[end][..n];
      PartOfFrame(blocks[end], n);
    } else {
      EmptyIsNoFrame();
      assert conn.received == Joined(frames, conn.joined, end) + part;
    }
    ParseJoined(frames, blocks, conn.joined, end, part);
    UntilEmptyIsAll(blocks[conn.joined..end]);
    Slice(blocks, conn.joined, end);
  }

  lemma Slice(blocks: seq<seq<int>>, lo: nat, hi: nat)
    requires lo <= hi <= |blocks|
    ensures (forall k :: 0 <= k < hi - lo ==> blocks[lo..hi][k] != []) <==> (forall k :: lo <= k < hi ==> blocks[k] != [])
  {
    var s := blocks[lo..hi];
    if forall k :: 0 <= k < |s| ==> s[k] != [] {
      forall k | lo <= k < hi ensures blocks[k] != [] { assert s[k - lo] == blocks[k]; }
    }
  }

  /** Two lists of blocks with the same bytes are the same list. */
  lemma FramingIsUnique(blocks: seq<seq<int>>, others: seq<seq<int>>, frames: seq<seq<byte>>, otherFrames: seq<seq<byte>>)
    requires FramesOf(frames, blocks) && FramesOf(otherFrames, others)
    requires Joined(frames, 0, |frames|) == Joined(otherFrames, 0, |otherFrames|)
    ensures blocks == others
  {
    hide Parse, Read, FrameBytes, Joined, IsBlock;
    EmptyIsNoFrame();
    ParseJoined(frames, blocks, 0, |blocks|, []);
    ParseJoined(otherFrames, others, 0, |others|, []);
    assert blocks[0..|blocks|] == blocks && others[0..|others|] == others;
  }

  /** A buffer of 16-bit samples becomes a block, and an empty one exactly when it is shorter than a pair. */
  lemma EmptyBlockExactly(buf: seq<int>)
    requires IsSamples(buf)
    ensures IsBlock(Frame(buf)) && Kept(buf, Frame(buf))
    ensures Frame(buf) == [] <==> |buf| <= 1
  {
    assert |Frame(buf)| == 2 * Pairs(buf);
  }
}
