/** The AIFF file format as `encodeAiffFile` writes it and `decodeAiffFile` reads it, for integer sample
    types ("Common Chunk" and "Sound Data Chunk", Audio Interchange File Format 1.3, but with no pad byte
    after an odd-length chunk). */
module Aiff {
  import opened AiffRate
  import opened Audio
  import opened Bits
  import opened Bytes
  import opened Chunks
  import opened Frames
  import opened Options
  import opened Samples

  const FORM: seq<byte> := [0x46, 0x4f, 0x52, 0x4d]
  const AIFF: seq<byte> := [0x41, 0x49, 0x46, 0x46]
  const AIFC: seq<byte> := [0x41, 0x49, 0x46, 0x43]
  const COMM: seq<byte> := [0x43, 0x4f, 0x4d, 0x4d]
  const SSND: seq<byte> := [0x53, 0x53, 0x4e, 0x44]

  function CommonBody(channels: nat, frames: nat, bitDepth: nat, rate: seq<byte>): (b: seq<byte>)
    requires |rate| == 10
    ensures |b| == 18
  {
    Store(channels, 2, Big) + Store(frames, 4, Big) + Store(bitDepth, 2, Big) + rate
  }

  /** Offset 0, block size 0, then the samples. */
  function SoundBody(samples: seq<byte>): (b: seq<byte>)
    ensures |b| == 8 + |samples|
  {
    Store(0, 4, Big) + Store(0, 4, Big) + samples
  }

  function AiffChunks(ty: SampleType, a: Audio, rate: seq<byte>): seq<Chunk>
    requires Encodable(a) && |rate| == 10
  {
    [Chunk(COMM, CommonBody(|a.samples|, NumFrames(a), a.bitDepth, rate)),
     Chunk(SSND, SoundBody(SampleBytes(ty, Aiff, a)))]
    + TextChunk(a.iXML)
  }

  function AiffBytes(ty: SampleType, a: Audio, rate: seq<byte>): seq<byte>
    requires Encodable(a) && |rate| == 10
  {
    var chunks := Layout(AiffChunks(ty, a, rate), Big);
    FORM + Store(4 + |chunks|, 4, Big) + AIFF + chunks
  }

  // ---- reading ------------------------------------------------------------------------

  /** The common chunk's fields; the number of frames is signed. */
  datatype Common = Common(channels: nat, frames: int, bitDepth: nat, sampleRate: nat)

  /** The common chunk at `p`, if it passes every check. */
  function ReadCommon(ty: SampleType, data: seq<byte>, p: nat, sampleRate: nat): (r: Option<Common>)
    requires p + 26 <= |data|
    ensures r.Some? ==> IsBitDepth(r.value.bitDepth) && 1 <= r.value.channels <= 2 && r.value.bitDepth <= ty.width
  {
    var channels := ReadInt(data, p + 8, 2, Big);
    var frames := ReadInt(data, p + 10, 4, Big);
    var bitDepth := ReadInt(data, p + 14, 2, Big);
    if bitDepth < 0 || bitDepth > ty.width then None
    else if sampleRate == 0 then None
    else if channels < 1 || channels > 2 then None
    else if !IsBitDepth(bitDepth) then None
    else Some(Common(channels, frames, bitDepth, sampleRate))
  }

  /** The header and the chunks the decoder insists on are there. */
  predicate IsAiff(data: seq<byte>) {
    && |data| >= 12 && FindChunk(data, SSND, 12, Big) != -1 && FindChunk(data, COMM, 12, Big) != -1
    && data[..4] == FORM && (data[8..12] == AIFF || data[8..12] == AIFC)
  }

  /** The sample rate and bit depth of the common chunk at `p`, before any check. */
  function CommonRate(data: seq<byte>, p: int): Option<nat> {
    if 0 <= p && p + 26 <= |data| then ReadRate(data[p + 16..p + 26]) else None
  }

  function CommonDepth(data: seq<byte>, p: int): int {
    if 0 <= p && p + 26 <= |data| then ReadInt(data, p + 14, 2, Big) else 0
  }

  /** `decodeAiffFile`. */
  function DecodeAiff(ty: SampleType, data: seq<byte>): Outcome {
    if |data| < 12 then Outside
    else
      var p := FindChunk(data, COMM, 12, Big);
      var s := FindChunk(data, SSND, 12, Big);
      var x := FindChunk(data, IXML, 12, Big);
      if s == -1 || p == -1 || data[..4] != FORM || (data[8..12] != AIFF && data[8..12] != AIFC) then Rejected
      else if p + 26 > |data| then Outside
      else
        var rate := ReadRate(data[p + 16..p + 26]);
        if rate.None? then Outside
        else
          var common := ReadCommon(ty, data, p, rate.value);
          if common.None? then Rejected
          else if s + 12 > |data| then Outside
          else ReadSound(ty, data, common.value, s, x, data[8..12] == AIFC)
  }

  function ReadSound(ty: SampleType, data: seq<byte>, c: Common, s: nat, x: int, compressed: bool): Outcome
    requires IsBitDepth(c.bitDepth) && s + 12 <= |data|
  {
    var soundSize := ReadInt(data, s + 4, 4, Big);
    var total := c.frames * BytesPerFrame(c.channels, c.bitDepth);
    var start := s + 16 + ReadInt(data, s + 8, 4, Big);
    var n := if c.frames < 0 then 0 else c.frames;
    if !(-0x8000_0000 <= total < 0x8000_0000) || !(0 <= start < 0x8000_0000) || soundSize - 8 < -0x8000_0000 then Outside
    else if soundSize - 8 != total || total > |data| - start then Rejected
    else if compressed && c.bitDepth == 32 && n > 0 then Outside
    else if !TextReadable(data, x) then Outside
    else
      Decoded(Deinterleave(ty, Aiff, c.bitDepth, data, start, c.channels, n), c.sampleRate, c.bitDepth, ReadText(data, x))
  }

  /** The decoder goes on exactly with files that begin "FORM" and are of type "AIFF" or "AIFC" and have both
      chunks; it rejects any other. */
  lemma TypesAccepted(ty: SampleType, data: seq<byte>)
    requires |data| >= 12
    ensures var chunks := FindChunk(data, [0x53, 0x53, 0x4e, 0x44], 12, Big) != -1
                          && FindChunk(data, [0x43, 0x4f, 0x4d, 0x4d], 12, Big) != -1;
            IsAiff(data) <==> && chunks && Stands(data, 0, [0x46, 0x4f, 0x52, 0x4d])
                              && (Stands(data, 8, [0x41, 0x49, 0x46, 0x46]) || Stands(data, 8, [0x41, 0x49, 0x46, 0x43]))
    ensures !IsAiff(data) ==> DecodeAiff(ty, data) == Rejected
  {
    hide FindChunk, ReadSound, ReadCommon, ReadRate;
  }

  /** The decoder accepts a common chunk at `p` exactly for these numbers in its fields. */
  lemma CommonAccepted(ty: SampleType, data: seq<byte>, p: nat, channels: nat, frames: nat, bitDepth: nat, sampleRate: nat)
    requires p + 26 <= |data| && channels < 0x8000 && frames < 0x8000_0000 && bitDepth < 0x8000
    requires BigEndian(data, p + 8, 2, channels) && BigEndian(data, p + 10, 4, frames) && BigEndian(data, p + 14, 2, bitDepth)
    ensures ReadCommon(ty, data, p, sampleRate)
            == if 1 <= channels <= 2 && sampleRate > 0 && bitDepth <= ty.width
                  && (bitDepth == 8 || bitDepth == 16 || bitDepth == 24 || bitDepth == 32)
               then Some(Common(channels, frames, bitDepth, sampleRate)) else None
  {
    hide Load, Store, BigEndian, Scale, ReadInt;
    Scales();
    Reads(data, p + 8, 2, channels, Big);
    Reads(data, p + 10, 4, frames, Big);
    Reads(data, p + 14, 2, bitDepth, Big);
  }

  // ---- the iXML length ------------------------------------------------------------------

  /** A length written big-endian and read little-endian. */
  function Swapped(n: nat): int {
    Signed(Load(Store(n, 4, Big), Little), 4)
  }

  /** The four bytes of the length read the same forwards and backwards. */
  predicate Palindromic(n: nat) {
    n % 256 == n / 0x100_0000 % 256 && n / 256 % 256 == n / 0x1_0000 % 256
  }

  lemma StoreFour(n: nat)
    ensures Store(n, 4, Little) == [n % 256, n / 256 % 256, n / 0x1_0000 % 256, n / 0x100_0000 % 256]
    ensures Store(n, 4, Big) == [n / 0x100_0000 % 256, n / 0x1_0000 % 256, n / 256 % 256, n % 256]
  {
    assert n / 256 / 256 == n / 0x1_0000 && n / 256 / 256 / 256 == n / 0x100_0000;
    var n1, n2, n3 := n / 256, n / 0x1_0000, n / 0x100_0000;
    assert Store(n3, 1, Little) == [n3 % 256] + Store(n3 / 256, 0, Little);
    assert Store(n2, 2, Little) == [n2 % 256] + Store(n3, 1, Little);
    assert Store(n1, 3, Little) == [n1 % 256] + Store(n2, 2, Little);
    assert Store(n3, 1, Big) == Store(n3 / 256, 0, Big) + [n3 % 256];
    assert Store(n2, 2, Big) == Store(n3, 1, Big) + [n2 % 256];
    assert Store(n1, 3, Big) == Store(n2, 2, Big) + [n1 % 256];
  }

  /** The swap is harmless exactly for palindromic lengths. */
  lemma SwappedIsSame(n: nat)
    requires n < 0x8000_0000
    ensures Swapped(n) == n <==> Palindromic(n)
  {
    StoreFour(n);
    Scales();
    hide Scale, Load, Store;
    UnsignedRoundTrip(n, 4, Little);
    LoadBound(Store(n, 4, Big), Little);
    if Swapped(n) == n {
      assert Load(Store(n, 4, Big), Little) == Load(Store(n, 4, Little), Little);
      StoreLoad(Store(n, 4, Big), Little);
      StoreLoad(Store(n, 4, Little), Little);
      assert Store(n, 4, Big)[0] == Store(n, 4, Little)[0] && Store(n, 4, Big)[1] == Store(n, 4, Little)[1];
    }
  }

  // ---- the round trip ---------------------------------------------------------------------

  lemma AiffLocations(head: seq<byte>, body: seq<byte>, sound: seq<byte>, text: seq<byte>)
    requires |head| == 12 && |body| == 18
    requires |head + Layout([Chunk(COMM, body), Chunk(SSND, sound)] + TextChunk(text), Big)| < 0x8000_0000
    ensures var data := head + Layout([Chunk(COMM, body), Chunk(SSND, sound)] + TextChunk(text), Big);
            && FindChunk(data, COMM, 12, Big) == 12
            && FindChunk(data, SSND, 12, Big) == 38
            && FindChunk(data, IXML, 12, Big) == if text == [] then -1 else 46 + |sound|
  {
    hide FindChunk, Layout;
    var cs := [Chunk(COMM, body), Chunk(SSND, sound)] + TextChunk(text);
    WalkFinds(head, cs, COMM, Big);
    WalkFinds(head, cs, SSND, Big);
    WalkFinds(head, cs, IXML, Big);
    Located3(cs, COMM);
    Located3(cs, SSND);
    Located3(cs, IXML);
  }

  lemma AiffLength(ty: SampleType, a: Audio, rate: seq<byte>)
    requires Encodable(a) && |rate| == 10
    ensures |AiffBytes(ty, a, rate)| == 54 + |SampleBytes(ty, Aiff, a)| + (if a.iXML == [] then 0 else 8 + |a.iXML|)
  {
    hide SampleBytes, CommonBody, SoundBody;
    var cs := AiffChunks(ty, a, rate);
    LayoutLength(cs, Big);
    LayoutLength(cs[1..], Big);
    assert cs[1..][1..] == TextChunk(a.iXML);
    TextLength(a.iXML, Big);
    hide Layout;
  }

  /** Where an encoded file holds what. */
  lemma AiffContents(ty: SampleType, a: Audio, rate: seq<byte>)
    requires Encodable(a) && |rate| == 10 && |AiffBytes(ty, a, rate)| < 0x8000_0000
    ensures var (data, sound) := (AiffBytes(ty, a, rate), SoundBody(SampleBytes(ty, Aiff, a)));
            && |data| >= 46 + |sound| && data[..4] == FORM && data[8..12] == AIFF
            && FindChunk(data, COMM, 12, Big) == 12 && FindChunk(data, SSND, 12, Big) == 38
            && data[20..38] == CommonBody(|a.samples|, NumFrames(a), a.bitDepth, rate)
            && ReadInt(data, 42, 4, Big) == |sound| && data[46..46 + |sound|] == sound
  {
    hide FindChunk, Layout, ReadInt, CommonBody, SoundBody, SampleBytes, Store, Encodable;
    var (body, sound) := (CommonBody(|a.samples|, NumFrames(a), a.bitDepth, rate), SoundBody(SampleBytes(ty, Aiff, a)));
    var cs := AiffChunks(ty, a, rate);
    var head := Head(FORM, 4 + |Layout(cs, Big)|, AIFF, Big);
    assert AiffBytes(ty, a, rate) == head + Layout(cs, Big);
    hide Head;
    AiffLocations(head, body, sound, a.iXML);
    assert Start(cs, 1, 12) == 38;
    ChunkAt(head, cs, 0, Big);
    ChunkAt(head, cs, 1, Big);
  }

  // ---- the file, byte by byte ------------------------------------------------------------

  /** Where the parts of the file stand. */
  lemma AiffParts(ty: SampleType, a: Audio, rate: seq<byte>)
    requires Encodable(a) && |rate| == 10
    ensures var (data, sound) := (AiffBytes(ty, a, rate), SoundBody(SampleBytes(ty, Aiff, a)));
            && Stands(data, 0, Head(FORM, |data| - 8, AIFF, Big))
            && Stands(data, 12, ChunkBytes(Chunk(COMM, CommonBody(|a.samples|, NumFrames(a), a.bitDepth, rate)), Big))
            && Stands(data, 38, ChunkBytes(Chunk(SSND, sound), Big))
            && (a.iXML != [] ==> Stands(data, 46 + |sound|, ChunkBytes(Chunk(IXML, a.iXML), Big)))
  {
    hide Layout, CommonBody, SoundBody, SampleBytes, Store, Encodable, Stands, ChunkBytes;
    var (cs, sound) := (AiffChunks(ty, a, rate), SoundBody(SampleBytes(ty, Aiff, a)));
    var chunks := Layout(cs, Big);
    var head := Head(FORM, 4 + |chunks|, AIFF, Big);
    assert AiffBytes(ty, a, rate) == head + chunks && |head + chunks| == 12 + |chunks|;
    hide Head;
    StandsAtStart(head, chunks);
    ChunkStands(head, cs, 0, Big);
    assert Start(cs, 1, 12) == 38;
    ChunkStands(head, cs, 1, Big);
    if a.iXML != [] {
      assert cs[2] == Chunk(IXML, a.iXML) && Start(cs[1..], 1, 38) == 46 + |sound|;
      ChunkStands(head, cs, 2, Big);
    }
  }

  /** The 54 bytes before the samples, for `size` bytes of samples and `more` bytes after them: "FORM", size,
      "AIFF"; "COMM", 18, channels, frames, bits per sample, and the sample rate in ten bytes, not stated here;
      "SSND", size, offset 0, block size 0. */
  ghost predicate AiffHeader(data: seq<byte>, channels: nat, frames: nat, bitDepth: nat, size: nat, more: nat) {
    && Stands(data, 0, [0x46, 0x4f, 0x52, 0x4d]) && BigEndian(data, 4, 4, 46 + size + more)
    && Stands(data, 8, [0x41, 0x49, 0x46, 0x46])
    && Stands(data, 12, [0x43, 0x4f, 0x4d, 0x4d]) && BigEndian(data, 16, 4, 18)
    && BigEndian(data, 20, 2, channels) && BigEndian(data, 22, 4, frames) && BigEndian(data, 26, 2, bitDepth)
    && Stands(data, 38, [0x53, 0x53, 0x4e, 0x44]) && BigEndian(data, 42, 4, 8 + size)
    && BigEndian(data, 46, 4, 0) && BigEndian(data, 50, 4, 0)
  }

  /** The file written has that header, and after the samples the text in a chunk of its own, its length the
      most significant byte first. */
  lemma AiffHeaderWritten(ty: SampleType, a: Audio, rate: seq<byte>)
    requires Encodable(a) && IsBitDepth(a.bitDepth) && |rate| == 10
    ensures var (data, size) := (AiffBytes(ty, a, rate), SizeOf(NumFrames(a), |a.samples|, a.bitDepth / 8));
            && AiffHeader(data, |a.samples|, NumFrames(a), a.bitDepth, size, if a.iXML == [] then 0 else 8 + |a.iXML|)
            && Stands(data, 28, rate)
            && (a.iXML == [] ==> |data| == 54 + size)
            && (a.iXML != [] ==> TextAt(data, 54 + size, a.iXML) && BigEndian(data, 58 + size, 4, |a.iXML|))
  {
    hide SampleBytes, Store, Stands, BigEndian, DataSize, AiffBytes, CommonBody, SoundBody, Encodable, ChunkBytes;
    var (data, samples) := (AiffBytes(ty, a, rate), SampleBytes(ty, Aiff, a));
    var (common, sound) := (CommonBody(|a.samples|, NumFrames(a), a.bitDepth, rate), SoundBody(samples));
    SampleBytesLength(ty, Aiff, a);
    AiffLength(ty, a, rate);
    AiffParts(ty, a, rate);
    HeadParts(data, FORM, |data| - 8, AIFF, Big);
    ChunkParts(data, 12, Chunk(COMM, common), Big);
    ChunkParts(data, 38, Chunk(SSND, sound), Big);
    Written(data, 16, 4, 18, Big);
    Written(data, 42, 4, |sound|, Big);
    CommonWritten(data, |a.samples|, NumFrames(a), a.bitDepth, rate);
    SoundWritten(data, samples);
    if a.iXML != [] {
      ChunkParts(data, 46 + |sound|, Chunk(IXML, a.iXML), Big);
      Written(data, 50 + |sound|, 4, |a.iXML|, Big);
    }
  }

  lemma CommonWritten(data: seq<byte>, channels: nat, frames: nat, bitDepth: nat, rate: seq<byte>)
    requires |rate| == 10 && Stands(data, 20, CommonBody(channels, frames, bitDepth, rate))
    ensures BigEndian(data, 20, 2, channels) && BigEndian(data, 22, 4, frames) && BigEndian(data, 26, 2, bitDepth)
    ensures Stands(data, 28, rate)
  {
    hide Store, BigEndian, Stands;
    var body := CommonBody(channels, frames, bitDepth, rate);
    FourParts(Store(channels, 2, Big), Store(frames, 4, Big), Store(bitDepth, 2, Big), rate);
    FieldWritten(data, 20, body, 0, 2, channels, Big);
    FieldWritten(data, 20, body, 2, 4, frames, Big);
    FieldWritten(data, 20, body, 6, 2, bitDepth, Big);
    StandsWithin(data, 20, body, 8, rate);
  }

  lemma FourParts(a: seq<byte>, b: seq<byte>, c: seq<byte>, d: seq<byte>)
    ensures var s := a + b + c + d;
            Stands(s, 0, a) && Stands(s, |a|, b) && Stands(s, |a| + |b|, c) && Stands(s, |a| + |b| + |c|, d)
  {
    hide Stands;
    ThreeParts(a, b, c);
    StandsInFirst(a + b + c, d, 0, a);
    StandsInFirst(a + b + c, d, |a|, b);
    StandsInFirst(a + b + c, d, |a| + |b|, c);
    StandsAtEnd(a + b + c, d);
  }

  lemma SoundWritten(data: seq<byte>, samples: seq<byte>)
    requires Stands(data, 46, SoundBody(samples))
    ensures BigEndian(data, 46, 4, 0) && BigEndian(data, 50, 4, 0) && Stands(data, 54, samples)
  {
    hide Store, BigEndian, Stands;
    var zero := Store(0, 4, Big);
    ThreeParts(zero, zero, samples);
    FieldWritten(data, 46, SoundBody(samples), 0, 4, 0, Big);
    FieldWritten(data, 46, SoundBody(samples), 4, 4, 0, Big);
    StandsWithin(data, 46, SoundBody(samples), 8, samples);
  }

  /** Sample `i` of channel `c` stands at its place, frame by frame, the most significant byte first. */
  ghost predicate AiffSampleAt(ty: SampleType, a: Audio, data: seq<byte>, i: nat, c: nat)
    requires HasSample(a, i, c)
  {
    var b := a.bitDepth / 8;
    BigEndian(data, SampleIndex(54, |a.samples|, b, i, c), b, FileValue(ty, a.bitDepth, a.samples[c][i]))
  }

  lemma AiffSampleWritten(ty: SampleType, a: Audio, rate: seq<byte>, i: nat, c: nat)
    requires Encodable(a) && IsSampleType(ty) && IsBitDepth(a.bitDepth) && a.bitDepth <= ty.width
    requires |rate| == 10 && HasSample(a, i, c)
    ensures AiffSampleAt(ty, a, AiffBytes(ty, a, rate), i, c)
  {
    hide AiffBytes, SampleBytes, Stands, FileValue, Encode, BigEndian, CommonBody, SoundBody, Store, Encodable, ChunkBytes, SampleIndex;
    var (data, samples) := (AiffBytes(ty, a, rate), SampleBytes(ty, Aiff, a));
    AiffParts(ty, a, rate);
    ChunkParts(data, 38, Chunk(SSND, SoundBody(samples)), Big);
    SoundWritten(data, samples);
    SampleStands(ty, Aiff, a, data, 54, i, c);
    AiffSampleBytes(ty, a.bitDepth, a.samples[c][i], data, SampleIndex(54, |a.samples|, a.bitDepth / 8, i, c));
  }

  lemma AiffSampleBytes(ty: SampleType, depth: nat, v: int, data: seq<byte>, at: nat)
    requires IsSampleType(ty) && IsBitDepth(depth) && depth <= ty.width && Stands(data, at, Encode(ty, Aiff, depth, v))
    ensures BigEndian(data, at, depth / 8, FileValue(ty, depth, v))
  {
    hide FileValue, Scale, Encode;
    var (b, s) := (depth / 8, FileValue(ty, depth, v));
    var field := data[at..at + b];
    forall k | 0 <= k < b ensures field[k] == s / Scale(b - 1 - k) % 256 {
      SampleByte(ty, Aiff, depth, v, k);
    }
  }

  /** An AIFF file of these contents, byte by byte: the header with the sample rate, each sample at its place,
      the text. */
  ghost predicate AiffFile(ty: SampleType, a: Audio, e: nat, data: seq<byte>)
    requires e <= 63
  {
    var (b, channels) := (a.bitDepth / 8, |a.samples|);
    var size := SizeOf(NumFrames(a), channels, b);
    && AiffHeader(data, channels, NumFrames(a), a.bitDepth, size, if a.iXML == [] then 0 else 8 + |a.iXML|)
    && BigEndian(data, 28, 2, 16383 + e) && BigEndian(data, 30, 8, a.sampleRate * Pow2(63 - e))
    && (IsSampleType(ty) && a.bitDepth <= ty.width ==>
          forall i: nat, c: nat :: HasSample(a, i, c) ==> AiffSampleAt(ty, a, data, i, c))
    && (a.iXML == [] ==> |data| == 54 + size)
    && (a.iXML != [] ==> TextAt(data, 54 + size, a.iXML) && BigEndian(data, 58 + size, 4, |a.iXML|))
  }

  lemma AiffFileWritten(ty: SampleType, a: Audio, e: nat)
    requires Encodable(a) && IsBitDepth(a.bitDepth) && e <= 63 && RateBytes(a.sampleRate, e).Some?
    ensures AiffFile(ty, a, e, AiffBytes(ty, a, RateBytes(a.sampleRate, e).value))
  {
    hide Encodable, AiffBytes, BigEndian, TextAt, AiffHeader, FileValue, SizeOf, SampleIndex, HasSample, RateBytes, Pow2, Stands;
    var rate := RateBytes(a.sampleRate, e).value;
    var data := AiffBytes(ty, a, rate);
    AiffHeaderWritten(ty, a, rate);
    RateWritten(a.sampleRate, e);
    BigEndianWithin(data, 28, rate, 0, 2, 16383 + e);
    BigEndianWithin(data, 28, rate, 2, 8, a.sampleRate * Pow2(63 - e));
    if IsSampleType(ty) && a.bitDepth <= ty.width {
      forall i: nat, c: nat | HasSample(a, i, c)
        ensures AiffSampleAt(ty, a, data, i, c)
      {
        AiffSampleWritten(ty, a, rate, i, c);
      }
    }
  }

  lemma BigEndianWithin(data: seq<byte>, at: nat, whole: seq<byte>, lo: nat, n: nat, v: int)
    requires Stands(data, at, whole) && BigEndian(whole, lo, n, v)
    ensures BigEndian(data, at + lo, n, v)
  {
    hide Scale, Stands;
    StandsWithin(data, at, whole, lo, whole[lo..lo + n]);
    SameField(data, at + lo, whole[lo..lo + n]);
  }

  lemma SameField(data: seq<byte>, at: nat, part: seq<byte>)
    requires Stands(data, at, part)
    ensures at + |part| <= |data| && data[at..at + |part|] == part
  {
  }

  /** The iXML chunk ends the file, and its length is stored big-endian. */
  lemma AiffText(ty: SampleType, a: Audio, rate: seq<byte>)
    requires Encodable(a) && |rate| == 10 && |AiffBytes(ty, a, rate)| < 0x8000_0000 && a.iXML != []
    ensures var (data, n) := (AiffBytes(ty, a, rate), |a.iXML|);
            var x := FindChunk(data, IXML, 12, Big);
            && 0 <= x && x + 8 + n == |data| && data[x + 8..] == a.iXML
            && ReadInt(data, x + 4, 4, Little) == Swapped(n)
  {
    hide FindChunk, Layout, ReadInt, CommonBody, SoundBody, SampleBytes, Encodable, Swapped, Load, Scale;
    var (body, sound) := (CommonBody(|a.samples|, NumFrames(a), a.bitDepth, rate), SoundBody(SampleBytes(ty, Aiff, a)));
    var cs := AiffChunks(ty, a, rate);
    var head := Head(FORM, 4 + |Layout(cs, Big)|, AIFF, Big);
    var data := AiffBytes(ty, a, rate);
    assert data == head + Layout(cs, Big);
    hide Head, Store;
    AiffLocations(head, body, sound, a.iXML);
    var x := 46 + |sound|;
    assert cs[2] == Chunk(IXML, a.iXML);
    assert Start(cs[1..], 1, 38) == x;
    ChunkAt(head, cs, 2, Big);
    assert data[x + 8..] == data[x + 8..x + 8 + |a.iXML|];
    Reread(data, x + 4, |a.iXML|);
  }

  /** Four bytes that read as `n` one way round read as its swap the other. */
  lemma Reread(data: seq<byte>, at: nat, n: nat)
    requires at + 4 <= |data| && ReadInt(data, at, 4, Big) == n < 0x8000_0000
    ensures ReadInt(data, at, 4, Little) == Swapped(n)
  {
    var b := data[at..at + 4];
    Scales();
    hide Scale, Load, Store;
    LoadBound(b, Big);
    StoreLoad(b, Big);
  }

  lemma CommonFields(channels: nat, frames: nat, bitDepth: nat, rate: seq<byte>)
    requires |rate| == 10 && channels <= 2 && frames < 0x8000_0000 && bitDepth <= 64
    ensures var b := CommonBody(channels, frames, bitDepth, rate);
            && Signed(Load(b[0..2], Big), 2) == channels && Signed(Load(b[2..6], Big), 4) == frames
            && Signed(Load(b[6..8], Big), 2) == bitDepth && b[8..18] == rate
  {
    Scales();
    hide Store, Load, Scale;
    var b := CommonBody(channels, frames, bitDepth, rate);
    assert b[0..2] == Store(channels, 2, Big) && b[2..6] == Store(frames, 4, Big);
    assert b[6..8] == Store(bitDepth, 2, Big) && b[8..18] == rate;
    SignedRoundTrip(channels, 2, Big);
    SignedRoundTrip(frames, 4, Big);
    SignedRoundTrip(bitDepth, 2, Big);
  }

  lemma CommonReadBack(ty: SampleType, data: seq<byte>, c: Common, rate: seq<byte>)
    requires IsBitDepth(c.bitDepth) && c.bitDepth <= ty.width && 1 <= c.channels <= 2
    requires 0 <= c.frames < 0x8000_0000 && c.sampleRate >= 1 && |rate| == 10
    requires |data| >= 38 && data[20..38] == CommonBody(c.channels, c.frames, c.bitDepth, rate)
    ensures data[28..38] == rate && ReadCommon(ty, data, 12, c.sampleRate) == Some(c)
  {
    hide Load, CommonBody, Signed;
    CommonFields(c.channels, c.frames, c.bitDepth, rate);
    InnerSlice(data, 20, 18, 0, 2);
    InnerSlice(data, 20, 18, 2, 6);
    InnerSlice(data, 20, 18, 6, 8);
    InnerSlice(data, 20, 18, 8, 18);
  }

  lemma SoundFields(samples: seq<byte>)
    ensures var b := SoundBody(samples); Signed(Load(b[0..4], Big), 4) == 0 && b[8..] == samples
  {
    Scales();
    hide Store, Load, Scale;
    assert SoundBody(samples)[0..4] == Store(0, 4, Big);
    SignedRoundTrip(0, 4, Big);
  }

  /** The sound data chunk of an encoded file passes the size check against the common chunk and gives
      back the clamped samples, whatever happens to the text. */
  lemma SoundReadBack(ty: SampleType, a: Audio, data: seq<byte>, x: int)
    requires IsSampleType(ty) && IsBitDepth(a.bitDepth) && a.bitDepth <= ty.width && 1 <= |a.samples| && Encodable(a)
    requires var sound := SoundBody(SampleBytes(ty, Aiff, a));
             && 46 + |sound| <= |data| < 0x8000_0000
             && ReadInt(data, 42, 4, Big) == |sound| && data[46..46 + |sound|] == sound
    ensures ReadSound(ty, data, Common(|a.samples|, NumFrames(a), a.bitDepth, a.sampleRate), 38, x, false)
            == if !TextReadable(data, x) then Outside
               else Decoded(Clamped(ty, a.bitDepth, a.samples, NumFrames(a)), a.sampleRate, a.bitDepth, ReadText(data, x))
  {
    hide Load, Signed, SampleBytes, SoundBody, DataBytes, Deinterleave, Clamped, TextReadable, ReadText, BytesPerFrame;
    hide DataSize, IsSampleType;
    var samples := SampleBytes(ty, Aiff, a);
    SampleBytesLength(ty, Aiff, a);
    SoundFields(samples);
    var sound := SoundBody(samples);
    InnerSlice(data, 46, |sound|, 0, 4);
    InnerSlice(data, 46, |sound|, 8, |sound|);
    assert sound[8..] == sound[8..|sound|];
    FramesRoundTrip(ty, Aiff, a.bitDepth, a.samples, NumFrames(a), data, 54);
  }

  /** Samples behind an offset: they are read from there, but only if the chunk's size does not count the bytes
      of the offset. A chunk of the size the format asks for is accepted exactly when its offset is 0. */
  lemma OffsetSkipped(ty: SampleType, a: Audio, data: seq<byte>, s: nat, x: int, soundSize: nat, offset: nat)
    requires IsSampleType(ty) && IsBitDepth(a.bitDepth) && a.bitDepth <= ty.width && 1 <= |a.samples| && Encodable(a)
    requires soundSize < 0x8000_0000 && offset < 0x8000_0000 && |data| < 0x8000_0000
    requires BigEndian(data, s + 4, 4, soundSize) && BigEndian(data, s + 8, 4, offset)
    requires Stands(data, s + 16 + offset, SampleBytes(ty, Aiff, a)) && s + 16 + offset < |data|
    ensures s + 12 <= |data|
    ensures ReadSound(ty, data, Common(|a.samples|, NumFrames(a), a.bitDepth, a.sampleRate), s, x, false)
            == if soundSize != 8 + SizeOf(NumFrames(a), |a.samples|, a.bitDepth / 8) then Rejected
               else if !TextReadable(data, x) then Outside
               else Decoded(Clamped(ty, a.bitDepth, a.samples, NumFrames(a)), a.sampleRate, a.bitDepth, ReadText(data, x))
  {
    hide Load, Store, Signed, SampleBytes, DataBytes, Deinterleave, Clamped, TextReadable, ReadText;
    hide DataSize, IsSampleType, BigEndian, ReadInt, Scale;
    SampleBytesLength(ty, Aiff, a);
    Scales();
    FieldInside(data, s + 8, 4, offset);
    Reads(data, s + 4, 4, soundSize, Big);
    Reads(data, s + 8, 4, offset, Big);
    FramesRoundTrip(ty, Aiff, a.bitDepth, a.samples, NumFrames(a), data, s + 16 + offset);
    hide BytesPerFrame;
  }

  lemma FieldInside(data: seq<byte>, at: nat, n: nat, v: int)
    requires BigEndian(data, at, n, v)
    ensures at + n <= |data|
  {
  }

  /** What reading an encoded file yields in full: the contents, with as much of the iXML text as its
      swapped length says, or a read beyond the file. */
  function ReadBack(ty: SampleType, a: Audio): Outcome
    requires Encodable(a)
  {
    var samples := Clamped(ty, a.bitDepth, a.samples, NumFrames(a));
    if a.iXML == [] then Decoded(samples, a.sampleRate, a.bitDepth, None)
    else if 0 <= Swapped(|a.iXML|) <= |a.iXML| then
      Decoded(samples, a.sampleRate, a.bitDepth, Some(a.iXML[..Swapped(|a.iXML|)]))
    else Outside
  }

  /** Mono or stereo, at least 1 Hz, a supported depth no wider than the sample type, and an exponent
      `e` at which the sample-rate field holds the rate. */
  predicate AiffEncodable(ty: SampleType, a: Audio, e: nat) {
    && IsSampleType(ty) && IsBitDepth(a.bitDepth) && a.bitDepth <= ty.width
    && 1 <= |a.samples| <= 2 && Encodable(a) && a.sampleRate >= 1
    && e <= 63 && a.sampleRate < Pow2(e + 1)
  }

  lemma DecodedAiff(ty: SampleType, a: Audio, e: nat)
    requires AiffEncodable(ty, a, e)
    ensures RateBytes(a.sampleRate, e).Some?
    ensures DecodeAiff(ty, AiffBytes(ty, a, RateBytes(a.sampleRate, e).value)) == ReadBack(ty, a)
  {
    hide FindChunk, ReadInt, CommonBody, SoundBody, SampleBytes, AiffBytes, Clamped, ReadCommon, ReadSound, DataSize;
    hide Swapped, ReadRate, RateBytes, Pow2, IsSampleType;
    RateRoundTrip(a.sampleRate, e);
    var rate := RateBytes(a.sampleRate, e).value;
    var (n, data) := (NumFrames(a), AiffBytes(ty, a, rate));
    SampleBytesLength(ty, Aiff, a);
    AiffLength(ty, a, rate);
    AiffContents(ty, a, rate);
    FewFrames(a);
    CommonReadBack(ty, data, Common(|a.samples|, n, a.bitDepth, a.sampleRate), rate);
    SoundReadBack(ty, a, data, FindChunk(data, IXML, 12, Big));
    TextOfAiff(ty, a, rate);
  }

  lemma FewFrames(a: Audio)
    requires Encodable(a) && IsBitDepth(a.bitDepth) && |a.samples| >= 1
    ensures NumFrames(a) < 0x8000_0000
  {
    FrameSize(|a.samples|, a.bitDepth);
    Monotone(1, |a.samples|, a.bitDepth / 8);
    AtLeastFrames(NumFrames(a), |a.samples| * a.bitDepth / 8);
  }

  lemma AtLeastFrames(n: nat, size: nat)
    requires size >= 1
    ensures n * size >= n
  {
  }

  lemma TextOfAiff(ty: SampleType, a: Audio, rate: seq<byte>)
    requires Encodable(a) && |rate| == 10 && |AiffBytes(ty, a, rate)| < 0x8000_0000
    ensures var (data, n) := (AiffBytes(ty, a, rate), |a.iXML|);
            var x := FindChunk(data, IXML, 12, Big);
            if n == 0 then x == -1
            else (TextReadable(data, x) <==> 0 <= Swapped(n) <= n)
                 && (TextReadable(data, x) ==> ReadText(data, x) == Some(a.iXML[..Swapped(n)]))
  {
    hide FindChunk, ReadInt, AiffBytes, Swapped, Encodable;
    if a.iXML != [] {
      AiffText(ty, a, rate);
      var data := AiffBytes(ty, a, rate);
      var x := FindChunk(data, IXML, 12, Big);
      if TextReadable(data, x) {
        var k := Swapped(|a.iXML|);
        assert data[x + 8..x + 8 + k] == data[x + 8..][..k];
      }
    } else {
      NoText(ty, a, rate);
    }
  }

  lemma NoText(ty: SampleType, a: Audio, rate: seq<byte>)
    requires Encodable(a) && |rate| == 10 && |AiffBytes(ty, a, rate)| < 0x8000_0000 && a.iXML == []
    ensures FindChunk(AiffBytes(ty, a, rate), IXML, 12, Big) == -1
  {
    hide FindChunk, Layout, CommonBody, SoundBody, SampleBytes, Encodable;
    var (body, sound) := (CommonBody(|a.samples|, NumFrames(a), a.bitDepth, rate), SoundBody(SampleBytes(ty, Aiff, a)));
    var cs := AiffChunks(ty, a, rate);
    var head := Head(FORM, 4 + |Layout(cs, Big)|, AIFF, Big);
    assert AiffBytes(ty, a, rate) == head + Layout(cs, Big);
    hide Head;
    AiffLocations(head, body, sound, a.iXML);
  }

  /** AIFF round trip, for mono or stereo: rate, depth, shape and clamped samples always come back when
      there is no text; with text they and the text come back exactly when the text's length has
      palindromic bytes, because it is written big-endian and read little-endian. */
  lemma AiffRoundTrip(ty: SampleType, a: Audio, e: nat)
    requires AiffEncodable(ty, a, e)
    ensures RateBytes(a.sampleRate, e).Some?
    ensures DecodeAiff(ty, AiffBytes(ty, a, RateBytes(a.sampleRate, e).value))
            == Decoded(Clamped(ty, a.bitDepth, a.samples, NumFrames(a)), a.sampleRate, a.bitDepth,
                       if a.iXML == [] then None else Some(a.iXML))
            <==> a.iXML == [] || Palindromic(|a.iXML|)
  {
    hide DecodeAiff, AiffBytes, RateBytes, Clamped, Swapped, Palindromic, Pow2, DataSize, IsSampleType;
    DecodedAiff(ty, a, e);
    var n := |a.iXML|;
    if a.iXML != [] {
      SwappedIsSame(n);
      if Swapped(n) == n {
        assert a.iXML[..n] == a.iXML;
      } else if 0 <= Swapped(n) <= n {
        assert |a.iXML[..Swapped(n)]| < n;
      }
    }
  }

  /** A text of one byte: its length, 1, reads back as 2^24, beyond the end of the file. */
  lemma OneByteTextIsLost(ty: SampleType, a: Audio, e: nat)
    requires AiffEncodable(ty, a, e) && |a.iXML| == 1
    ensures RateBytes(a.sampleRate, e).Some?
    ensures DecodeAiff(ty, AiffBytes(ty, a, RateBytes(a.sampleRate, e).value)) == Outside
  {
    hide DecodeAiff, AiffBytes, RateBytes, Clamped, Pow2, DataSize, IsSampleType;
    DecodedAiff(ty, a, e);
    SwappedOne();
    hide Swapped;
  }

  lemma SwappedOne()
    ensures Swapped(1) == 0x100_0000
  {
    hide Store, Scale, Load;
    StoreFour(1);
    Scales();
    LoadOneLittle();
  }

  lemma LoadOneLittle()
    ensures Load([0, 0, 0, 1], Little) == 0x100_0000
  {
    hide Load;
    var b: seq<byte> := [0, 0, 0, 1];
    LoadLittle(b);
    LoadLittle(b[1..]);
    LoadLittle(b[2..]);
    LoadLittle(b[3..]);
    assert b[1..][1..] == b[2..] && b[2..][1..] == b[3..] && b[3..][1..] == [];
  }

  lemma LoadLittle(b: seq<byte>)
    requires b != []
    ensures Load(b, Little) == b[0] + 256 * Load(b[1..], Little) && Load([], Little) == 0
  {
  }
}
