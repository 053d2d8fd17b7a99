/** The WAV file format as `encodeWaveFile` writes it and `decodeWaveFile` reads it, for integer sample
    types ("Waveform Audio File Format (WAVE)", Multimedia Programming Interface and Data Specifications
    1.0, but with no pad byte after an odd-length chunk). */
module Wave {
  import opened Audio
  import Bits
  import opened Bytes
  import opened Chunks
  import opened Frames
  import opened Options
  import opened Samples

  const RIFF: seq<byte> := [0x52, 0x49, 0x46, 0x46]
  const WAVE: seq<byte> := [0x57, 0x41, 0x56, 0x45]
  const FMT: seq<byte> := [0x66, 0x6d, 0x74, 0x20]
  const DATA: seq<byte> := [0x64, 0x61, 0x74, 0x61]

  const PCM: nat := 1
  const IEEE_FLOAT: nat := 3
  const EXTENSIBLE: nat := 0xFFFE

  /** The header's byte rate: unsigned 32-bit multiplication wraps. */
  function ByteRate(channels: nat, sampleRate: nat, bitDepth: nat): nat {
    ((channels * sampleRate) % 0x1_0000_0000 * bitDepth) % 0x1_0000_0000 / 8
  }

  function FormatBody(channels: nat, sampleRate: nat, bitDepth: nat): (b: seq<byte>)
    ensures |b| == 16
  {
    Store(PCM, 2, Little) + Store(channels, 2, Little) + Store(sampleRate, 4, Little)
    + Store(ByteRate(channels, sampleRate, bitDepth), 4, Little)
    + Store(channels * (bitDepth / 8), 2, Little) + Store(bitDepth, 2, Little)
  }

  function WaveChunks(ty: SampleType, a: Audio): seq<Chunk>
    requires Encodable(a)
  {
    [Chunk(FMT, FormatBody(|a.samples|, a.sampleRate, a.bitDepth)), Chunk(DATA, SampleBytes(ty, Wave, a))]
    + TextChunk(a.iXML)
  }

  function WaveBytes(ty: SampleType, a: Audio): seq<byte>
    requires Encodable(a)
  {
    var chunks := Layout(WaveChunks(ty, a), Little);
    RIFF + Store(4 + |chunks|, 4, Little) + WAVE + chunks
  }

  // ---- reading ---------------------------------------------------------------------

  datatype Shape = Shape(channels: nat, sampleRate: nat, bitDepth: nat)

  /** The format chunk at `f`, if it passes every check. */
  function ReadFormat(ty: SampleType, data: seq<byte>, f: nat): (r: Option<Shape>)
    requires f + 24 <= |data|
    ensures r.Some? ==> IsBitDepth(r.value.bitDepth) && 1 <= r.value.channels <= 128 && r.value.bitDepth <= ty.width
  {
    var audioFormat := Load(data[f + 8..f + 10], Little);
    var channels := Load(data[f + 10..f + 12], Little);
    var sampleRate := Load(data[f + 12..f + 16], Little);
    var bytesPerSecond := Load(data[f + 16..f + 20], Little);
    var bytesPerBlock := Load(data[f + 20..f + 22], Little);
    var bitDepth := ReadInt(data, f + 22, 2, Little);
    if bitDepth < 0 || bitDepth > ty.width then None
    else if audioFormat != PCM && audioFormat != IEEE_FLOAT && audioFormat != EXTENSIBLE then None
    else if channels < 1 || channels > 128 then None
    else if bytesPerSecond != ByteRate(channels, sampleRate, bitDepth) || bytesPerBlock != channels * (bitDepth / 8) then None
    else if !IsBitDepth(bitDepth) then None
    else Some(Shape(channels, sampleRate, bitDepth))
  }

  /** The number of whole frames in a data chunk of this (signed) size. */
  function FramesIn(size: int, shape: Shape): nat
    requires IsBitDepth(shape.bitDepth) && shape.channels >= 1
  {
    if size < 0 then 0 else size / (shape.channels * shape.bitDepth / 8)
  }

  /** The header and the chunks the decoder insists on are there. */
  predicate IsWave(data: seq<byte>) {
    && |data| >= 12 && FindChunk(data, DATA, 12, Little) != -1 && FindChunk(data, FMT, 12, Little) != -1
    && data[..4] == RIFF && data[8..12] == WAVE
  }

  /** The sample rate and bit depth of the format chunk at `f`, before any check. */
  function RateField(data: seq<byte>, f: int): nat {
    if 0 <= f && f + 24 <= |data| then Load(data[f + 12..f + 16], Little) else 0
  }

  function DepthField(data: seq<byte>, f: int): int {
    if 0 <= f && f + 24 <= |data| then ReadInt(data, f + 22, 2, Little) else 0
  }

  /** The format chunk passes every check. */
  predicate GoodFormat(ty: SampleType, data: seq<byte>) {
    IsWave(data)
    && var f := FindChunk(data, FMT, 12, Little);
       f + 24 <= |data| && ReadFormat(ty, data, f).Some?
  }

  /** The file ends within its samples, and `samples` are those before its end. */
  ghost predicate CutWave(ty: SampleType, data: seq<byte>, samples: seq<seq<int>>)
    requires GoodFormat(ty, data)
  {
    var (d, shape) := (FindChunk(data, DATA, 12, Little), ReadFormat(ty, data, FindChunk(data, FMT, 12, Little)).value);
    d + 8 <= |data|
    && var n := FramesIn(ReadInt(data, d + 4, 4, Little), shape);
       Cut(ty, Wave, shape.bitDepth, data, d + 8, shape.channels, n, samples)
  }

  /** `decodeWaveFile`. */
  function DecodeWave(ty: SampleType, data: seq<byte>): Outcome {
    if |data| < 12 then Outside
    else
      var d := FindChunk(data, DATA, 12, Little);
      var f := FindChunk(data, FMT, 12, Little);
      var x := FindChunk(data, IXML, 12, Little);
      if d == -1 || f == -1 || data[..4] != RIFF || data[8..12] != WAVE then Rejected
      else if f + 24 > |data| then Outside
      else
        var shape := ReadFormat(ty, data, f);
        if shape.None? then Rejected
        else if d + 8 > |data| then Outside
        else ReadSamples(ty, data, shape.value, d, x)
  }

  function ReadSamples(ty: SampleType, data: seq<byte>, shape: Shape, d: nat, x: int): Outcome
    requires IsBitDepth(shape.bitDepth) && shape.channels >= 1 && d + 8 <= |data|
  {
    var n := FramesIn(ReadInt(data, d + 4, 4, Little), shape);
    if n > 0 && d + 8 + n * BytesPerFrame(shape.channels, shape.bitDepth) > |data| then Rejected
    else if !TextReadable(data, x) then Outside
    else
      Decoded(Deinterleave(ty, Wave, shape.bitDepth, data, d + 8, shape.channels, n),
              shape.sampleRate, shape.bitDepth, ReadText(data, x))
  }

  // ---- the round trip ----------------------------------------------------------------

  lemma FormatFields(channels: nat, sampleRate: nat, bitDepth: nat)
    requires channels <= 128 && sampleRate < 0x1_0000_0000 && bitDepth <= 64
    ensures var b := FormatBody(channels, sampleRate, bitDepth);
            && Load(b[0..2], Little) == PCM && Load(b[2..4], Little) == channels
            && Load(b[4..8], Little) == sampleRate
            && Load(b[8..12], Little) == ByteRate(channels, sampleRate, bitDepth)
            && Load(b[12..14], Little) == channels * (bitDepth / 8)
            && Signed(Load(b[14..16], Little), 2) == bitDepth
  {
    hide Store, Load, Scale;
    var b := FormatBody(channels, sampleRate, bitDepth);
    var rate := ByteRate(channels, sampleRate, bitDepth);
    var block := channels * (bitDepth / 8);
    hide ByteRate;
    Fields(Store(PCM, 2, Little), Store(channels, 2, Little), Store(sampleRate, 4, Little), Store(rate, 4, Little),
           Store(block, 2, Little), Store(bitDepth, 2, Little));
    hide FormatBody;
    RateBound(channels, sampleRate, bitDepth);
    BlockBound(channels, bitDepth);
    Scales();
    UnsignedRoundTrip(PCM, 2, Little);
    UnsignedRoundTrip(channels, 2, Little);
    UnsignedRoundTrip(sampleRate, 4, Little);
    UnsignedRoundTrip(rate, 4, Little);
    UnsignedRoundTrip(block, 2, Little);
    SignedRoundTrip(bitDepth, 2, Little);
  }

  lemma Fields(a: seq<byte>, b: seq<byte>, c: seq<byte>, d: seq<byte>, e: seq<byte>, f: seq<byte>)
    requires |a| == 2 && |b| == 2 && |c| == 4 && |d| == 4 && |e| == 2 && |f| == 2
    ensures var s := a + b + c + d + e + f;
            s[0..2] == a && s[2..4] == b && s[4..8] == c && s[8..12] == d && s[12..14] == e && s[14..16] == f
  {
  }

  lemma RateBound(channels: nat, sampleRate: nat, bitDepth: nat)
    ensures ByteRate(channels, sampleRate, bitDepth) < 0x1_0000_0000
  {
    var product := (channels * sampleRate) % 0x1_0000_0000 * bitDepth;
    assert product % 0x1_0000_0000 < 0x1_0000_0000;
  }

  lemma BlockBound(channels: nat, bitDepth: nat)
    requires channels <= 128 && bitDepth <= 64
    ensures channels * (bitDepth / 8) < 0x1_0000
  {
    Monotone(channels, 128, bitDepth / 8);
  }

  /** Where the walk finds the chunks of an encoded file. */
  lemma WaveLocations(head: seq<byte>, body: seq<byte>, samples: seq<byte>, text: seq<byte>)
    requires |head| == 12 && |body| == 16
    requires |head + Layout([Chunk(FMT, body), Chunk(DATA, samples)] + TextChunk(text), Little)| < 0x8000_0000
    ensures var data := head + Layout([Chunk(FMT, body), Chunk(DATA, samples)] + TextChunk(text), Little);
            && FindChunk(data, FMT, 12, Little) == 12
            && FindChunk(data, DATA, 12, Little) == 36
            && FindChunk(data, IXML, 12, Little) == if text == [] then -1 else 44 + |samples|
  {
    hide FindChunk, Layout;
    var cs := [Chunk(FMT, body), Chunk(DATA, samples)] + TextChunk(text);
    WalkFinds(head, cs, FMT, Little);
    WalkFinds(head, cs, DATA, Little);
    WalkFinds(head, cs, IXML, Little);
    assert cs[1..] == [Chunk(DATA, samples)] + TextChunk(text);
    assert cs[1..][1..] == TextChunk(text);
    Located3(cs, FMT);
    Located3(cs, DATA);
    Located3(cs, IXML);
  }

  /** What the encoder writes is a head followed by its chunks. */
  lemma WaveContents(ty: SampleType, a: Audio)
    requires Encodable(a) && |WaveBytes(ty, a)| < 0x8000_0000
    ensures var (data, body, samples) :=
              (WaveBytes(ty, a), FormatBody(|a.samples|, a.sampleRate, a.bitDepth), SampleBytes(ty, Wave, a));
            && |data| >= 44 + |samples| && data[..4] == RIFF && data[8..12] == WAVE
            && FindChunk(data, FMT, 12, Little) == 12 && FindChunk(data, DATA, 12, Little) == 36
            && data[20..36] == body
            && ReadInt(data, 40, 4, Little) == |samples| && data[44..44 + |samples|] == samples
            && var x := FindChunk(data, IXML, 12, Little);
               && TextReadable(data, x)
               && ReadText(data, x) == if a.iXML == [] then None else Some(a.iXML)
  {
    hide FindChunk, Layout, ReadInt, FormatBody, SampleBytes, Store, Encodable;
    var (body, samples) := (FormatBody(|a.samples|, a.sampleRate, a.bitDepth), SampleBytes(ty, Wave, a));
    var cs := WaveChunks(ty, a);
    var head := Head(RIFF, 4 + |Layout(cs, Little)|, WAVE, Little);
    assert WaveBytes(ty, a) == head + Layout(cs, Little);
    hide Head;
    WaveLocations(head, body, samples, a.iXML);
    assert Start(cs, 1, 12) == 36;
    ChunkAt(head, cs, 0, Little);
    ChunkAt(head, cs, 1, Little);
    if a.iXML != [] {
      assert cs[2] == Chunk(IXML, a.iXML);
      assert Start(cs[1..], 1, 36) == 44 + |samples|;
      ChunkAt(head, cs, 2, Little);
    }
  }

  lemma WaveLength(ty: SampleType, a: Audio)
    requires Encodable(a)
    ensures |WaveBytes(ty, a)| == 44 + |SampleBytes(ty, Wave, a)| + (if a.iXML == [] then 0 else 8 + |a.iXML|)
  {
    var cs := WaveChunks(ty, a);
    hide SampleBytes, FormatBody;
    LayoutLength(cs, Little);
    LayoutLength(cs[1..], Little);
    assert cs[1..][1..] == TextChunk(a.iXML);
    TextLength(a.iXML, Little);
    hide Layout;
  }

  // ---- the file, byte by byte ----------------------------------------------------------

  /** The byte rate is that of the samples, modulo 2^32 bits. */
  lemma ByteRateIs(channels: nat, sampleRate: nat, bitDepth: nat)
    ensures ByteRate(channels, sampleRate, bitDepth) == channels * sampleRate * bitDepth % 0x1_0000_0000 / 8
  {
    var (x, w) := (channels * sampleRate, 0x1_0000_0000);
    var q := x / w;
    assert x * bitDepth == (x % w + w * q) * bitDepth == x % w * bitDepth + w * (q * bitDepth);
    SameRemainder(x % w * bitDepth, q * bitDepth);
  }

  lemma SameRemainder(a: nat, k: nat)
    ensures (a + 0x1_0000_0000 * k) % 0x1_0000_0000 == a % 0x1_0000_0000
  {
  }

  /** The format chunk's fields: PCM, channels, sample rate, byte rate, bytes per frame, bits per sample. */
  ghost predicate WaveFormat(data: seq<byte>, channels: nat, sampleRate: nat, bitDepth: nat) {
    && LittleEndian(data, 20, 2, 1) && LittleEndian(data, 22, 2, channels) && LittleEndian(data, 24, 4, sampleRate)
    && LittleEndian(data, 28, 4, channels * sampleRate * bitDepth % 0x1_0000_0000 / 8)
    && LittleEndian(data, 32, 2, channels * (bitDepth / 8)) && LittleEndian(data, 34, 2, bitDepth)
  }

  /** The canonical 44-byte header of a file with `size` bytes of samples and `more` bytes after them: "RIFF",
      size, "WAVE"; "fmt ", 16 and the format; "data", size. */
  ghost predicate WaveHeader(data: seq<byte>, channels: nat, sampleRate: nat, bitDepth: nat, size: nat, more: nat) {
    && Stands(data, 0, [0x52, 0x49, 0x46, 0x46]) && LittleEndian(data, 4, 4, 36 + size + more)
    && Stands(data, 8, [0x57, 0x41, 0x56, 0x45])
    && Stands(data, 12, [0x66, 0x6d, 0x74, 0x20]) && LittleEndian(data, 16, 4, 16)
    && WaveFormat(data, channels, sampleRate, bitDepth)
    && Stands(data, 36, [0x64, 0x61, 0x74, 0x61]) && LittleEndian(data, 40, 4, size)
  }

  /** Where the parts of the file stand. */
  lemma WaveParts(ty: SampleType, a: Audio)
    requires Encodable(a)
    ensures var (data, samples) := (WaveBytes(ty, a), SampleBytes(ty, Wave, a));
            && Stands(data, 0, Head(RIFF, |data| - 8, WAVE, Little))
            && Stands(data, 12, ChunkBytes(Chunk(FMT, FormatBody(|a.samples|, a.sampleRate, a.bitDepth)), Little))
            && Stands(data, 36, ChunkBytes(Chunk(DATA, samples), Little))
            && (a.iXML != [] ==> Stands(data, 44 + |samples|, ChunkBytes(Chunk(IXML, a.iXML), Little)))
  {
    hide Layout, FormatBody, SampleBytes, Store, Encodable, Stands, ChunkBytes;
    var (cs, samples) := (WaveChunks(ty, a), SampleBytes(ty, Wave, a));
    var chunks := Layout(cs, Little);
    var head := Head(RIFF, 4 + |chunks|, WAVE, Little);
    assert WaveBytes(ty, a) == head + chunks && |head + chunks| == 12 + |chunks|;
    hide Head;
    StandsAtStart(head, chunks);
    ChunkStands(head, cs, 0, Little);
    assert Start(cs, 1, 12) == 36;
    ChunkStands(head, cs, 1, Little);
    if a.iXML != [] {
      assert cs[2] == Chunk(IXML, a.iXML) && Start(cs[1..], 1, 36) == 44 + |samples|;
      ChunkStands(head, cs, 2, Little);
    }
  }

  /** The file written has the canonical header, and after the samples the text in a chunk of its own. */
  lemma WaveHeaderWritten(ty: SampleType, a: Audio)
    requires Encodable(a) && IsBitDepth(a.bitDepth)
    ensures var (data, size) := (WaveBytes(ty, a), SizeOf(NumFrames(a), |a.samples|, a.bitDepth / 8));
            && WaveHeader(data, |a.samples|, a.sampleRate, a.bitDepth, size, if a.iXML == [] then 0 else 8 + |a.iXML|)
            && (a.iXML == [] ==> |data| == 44 + size)
            && (a.iXML != [] ==> TextAt(data, 44 + size, a.iXML) && LittleEndian(data, 48 + size, 4, |a.iXML|))
  {
    hide SampleBytes, Store, Stands, LittleEndian, DataSize, WaveBytes, FormatBody, Encodable, WaveFormat, ChunkBytes;
    var (data, samples, format) := (WaveBytes(ty, a), SampleBytes(ty, Wave, a), FormatBody(|a.samples|, a.sampleRate, a.bitDepth));
    SampleBytesLength(ty, Wave, a);
    WaveLength(ty, a);
    WaveParts(ty, a);
    HeadParts(data, RIFF, |data| - 8, WAVE, Little);
    ChunkParts(data, 12, Chunk(FMT, format), Little);
    ChunkParts(data, 36, Chunk(DATA, samples), Little);
    FormatWritten(data, |a.samples|, a.sampleRate, a.bitDepth);
    Written(data, 16, 4, 16, Little);
    Written(data, 40, 4, |samples|, Little);
    if a.iXML != [] {
      ChunkParts(data, 44 + |samples|, Chunk(IXML, a.iXML), Little);
      Written(data, 48 + |samples|, 4, |a.iXML|, Little);
    }
  }

  lemma FormatWritten(data: seq<byte>, channels: nat, sampleRate: nat, bitDepth: nat)
    requires Stands(data, 20, FormatBody(channels, sampleRate, bitDepth))
    ensures WaveFormat(data, channels, sampleRate, bitDepth)
  {
    hide Store, LittleEndian, ByteRate, Stands;
    ByteRateIs(channels, sampleRate, bitDepth);
    var body := FormatBody(channels, sampleRate, bitDepth);
    var (rate, block) := (ByteRate(channels, sampleRate, bitDepth), channels * (bitDepth / 8));
    FieldsStand(Store(PCM, 2, Little), Store(channels, 2, Little), Store(sampleRate, 4, Little), Store(rate, 4, Little),
                Store(block, 2, Little), Store(bitDepth, 2, Little));
    hide FormatBody;
    FieldWritten(data, 20, body, 0, 2, PCM, Little);
    FieldWritten(data, 20, body, 2, 2, channels, Little);
    FieldWritten(data, 20, body, 4, 4, sampleRate, Little);
    FieldWritten(data, 20, body, 8, 4, rate, Little);
    FieldWritten(data, 20, body, 12, 2, block, Little);
    FieldWritten(data, 20, body, 14, 2, bitDepth, Little);
  }

  lemma FieldsStand(a: seq<byte>, b: seq<byte>, c: seq<byte>, d: seq<byte>, e: seq<byte>, f: seq<byte>)
    requires |a| == 2 && |b| == 2 && |c| == 4 && |d| == 4 && |e| == 2 && |f| == 2
    ensures var s := a + b + c + d + e + f;
            && Stands(s, 0, a) && Stands(s, 2, b) && Stands(s, 4, c)
            && Stands(s, 8, d) && Stands(s, 12, e) && Stands(s, 14, f)
  {
    Fields(a, b, c, d, e, f);
  }

  /** Sample `i` of channel `c` stands at its place, frame by frame, the least significant byte first; 8-bit
      samples are moved up by 128. */
  ghost predicate WaveSampleAt(ty: SampleType, a: Audio, data: seq<byte>, i: nat, c: nat)
    requires HasSample(a, i, c)
  {
    var (b, v) := (a.bitDepth / 8, FileValue(ty, a.bitDepth, a.samples[c][i]));
    LittleEndian(data, SampleIndex(44, |a.samples|, b, i, c), b, if b == 1 then v + 128 else v)
  }

  lemma WaveSampleWritten(ty: SampleType, a: Audio, i: nat, c: nat)
    requires Encodable(a) && IsSampleType(ty) && IsBitDepth(a.bitDepth) && a.bitDepth <= ty.width
    requires HasSample(a, i, c)
    ensures WaveSampleAt(ty, a, WaveBytes(ty, a), i, c)
  {
    hide WaveBytes, SampleBytes, Stands, FileValue, Encode, LittleEndian, FormatBody, Store, Encodable, ChunkBytes, SampleIndex;
    var data := WaveBytes(ty, a);
    WaveParts(ty, a);
    ChunkParts(data, 36, Chunk(DATA, SampleBytes(ty, Wave, a)), Little);
    SampleStands(ty, Wave, a, data, 44, i, c);
    WaveSampleBytes(ty, a.bitDepth, a.samples[c][i], data, SampleIndex(44, |a.samples|, a.bitDepth / 8, i, c));
  }

  lemma WaveSampleBytes(ty: SampleType, depth: nat, v: int, data: seq<byte>, at: nat)
    requires IsSampleType(ty) && IsBitDepth(depth) && depth <= ty.width && Stands(data, at, Encode(ty, Wave, depth, v))
    ensures var s := FileValue(ty, depth, v); LittleEndian(data, at, depth / 8, if depth / 8 == 1 then s + 128 else s)
  {
    hide FileValue, Scale, Encode;
    var (b, s) := (depth / 8, FileValue(ty, depth, v));
    var field := data[at..at + b];
    forall k | 0 <= k < b ensures field[k] == (if b == 1 then s + 128 else s) / Scale(k) % 256 {
      SampleByte(ty, Wave, depth, v, k);
    }
  }

  /** A WAV file of these contents, byte by byte: the header, each sample at its place, the text. */
  ghost predicate WaveFile(ty: SampleType, a: Audio, data: seq<byte>) {
    var (b, channels) := (a.bitDepth / 8, |a.samples|);
    var size := SizeOf(NumFrames(a), channels, b);
    && WaveHeader(data, channels, a.sampleRate, a.bitDepth, size, if a.iXML == [] then 0 else 8 + |a.iXML|)
    && (IsSampleType(ty) && a.bitDepth <= ty.width ==>
          forall i: nat, c: nat :: HasSample(a, i, c) ==> WaveSampleAt(ty, a, data, i, c))
    && (a.iXML == [] ==> |data| == 44 + size)
    && (a.iXML != [] ==> TextAt(data, 44 + size, a.iXML) && LittleEndian(data, 48 + size, 4, |a.iXML|))
  }

  lemma WaveFileWritten(ty: SampleType, a: Audio)
    requires Encodable(a) && IsBitDepth(a.bitDepth)
    ensures WaveFile(ty, a, WaveBytes(ty, a))
  {
    hide Encodable, WaveBytes, LittleEndian, TextAt, WaveHeader, FileValue, SizeOf, SampleIndex, HasSample;
    WaveHeaderWritten(ty, a);
    if IsSampleType(ty) && a.bitDepth <= ty.width {
      forall i: nat, c: nat | HasSample(a, i, c)
        ensures WaveSampleAt(ty, a, WaveBytes(ty, a), i, c)
      {
        WaveSampleWritten(ty, a, i, c);
      }
    }
  }

  /** The decoder accepts a format chunk at `f` exactly for these numbers in its fields. */
  lemma FormatAccepted(ty: SampleType, data: seq<byte>, f: nat, format: nat, channels: nat, sampleRate: nat,
                       byteRate: nat, blockAlign: nat, bitDepth: nat)
    requires f + 24 <= |data| && format < 0x1_0000 && channels < 0x1_0000 && sampleRate < 0x1_0000_0000
    requires byteRate < 0x1_0000_0000 && blockAlign < 0x1_0000 && bitDepth < 0x8000
    requires LittleEndian(data, f + 8, 2, format) && LittleEndian(data, f + 10, 2, channels)
    requires LittleEndian(data, f + 12, 4, sampleRate) && LittleEndian(data, f + 16, 4, byteRate)
    requires LittleEndian(data, f + 20, 2, blockAlign) && LittleEndian(data, f + 22, 2, bitDepth)
    ensures ReadFormat(ty, data, f)
            == if (format == 1 || format == 3 || format == 0xFFFE) && 1 <= channels <= 128
                  && (bitDepth == 8 || bitDepth == 16 || bitDepth == 24 || bitDepth == 32) && bitDepth <= ty.width
                  && byteRate == channels * sampleRate * bitDepth % 0x1_0000_0000 / 8 && blockAlign == channels * (bitDepth / 8)
               then Some(Shape(channels, sampleRate, bitDepth)) else None
  {
    hide Load, Store, LittleEndian, ByteRate, Scale, Signed;
    Scales();
    Reads(data, f + 8, 2, format, Little);
    Reads(data, f + 10, 2, channels, Little);
    Reads(data, f + 12, 4, sampleRate, Little);
    Reads(data, f + 16, 4, byteRate, Little);
    Reads(data, f + 20, 2, blockAlign, Little);
    Reads(data, f + 22, 2, bitDepth, Little);
    ByteRateIs(channels, sampleRate, bitDepth);
  }

  /** A data chunk holds as many frames as fit into it whole. */
  lemma FramesInIs(size: int, shape: Shape)
    requires IsBitDepth(shape.bitDepth) && shape.channels >= 1
    ensures var n := FramesIn(size, shape);
            if size < 0 then n == 0
            else SizeOf(n, shape.channels, shape.bitDepth / 8) <= size < SizeOf(n + 1, shape.channels, shape.bitDepth / 8)
  {
    FrameSize(shape.channels, shape.bitDepth);
    var block := BytesPerFrame(shape.channels, shape.bitDepth);
    assert block >= 1 by { Monotone(1, shape.channels, shape.bitDepth / 8); }
    hide BytesPerFrame;
    if size >= 0 {
      WholeFrames(size, block);
    }
  }

  lemma WholeFrames(size: nat, block: nat)
    requires block >= 1
    ensures size / block * block <= size < (size / block + 1) * block
  {
    var q := size / block;
    assert size == block * q + size % block && (q + 1) * block == block * q + block;
  }

  lemma FormatReadBack(ty: SampleType, data: seq<byte>, channels: nat, sampleRate: nat, bitDepth: nat)
    requires IsBitDepth(bitDepth) && bitDepth <= ty.width && 1 <= channels <= 128 && sampleRate < 0x1_0000_0000
    requires |data| >= 36 && data[20..36] == FormatBody(channels, sampleRate, bitDepth)
    ensures ReadFormat(ty, data, 12) == Some(Shape(channels, sampleRate, bitDepth))
  {
    hide Load, FormatBody, ByteRate;
    FormatFields(channels, sampleRate, bitDepth);
    InnerSlice(data, 20, 16, 0, 2);
    InnerSlice(data, 20, 16, 2, 4);
    InnerSlice(data, 20, 16, 4, 8);
    InnerSlice(data, 20, 16, 8, 12);
    InnerSlice(data, 20, 16, 12, 14);
    InnerSlice(data, 20, 16, 14, 16);
  }

  lemma FrameCount(n: nat, shape: Shape)
    requires IsBitDepth(shape.bitDepth) && shape.channels >= 1
    ensures FramesIn(n * BytesPerFrame(shape.channels, shape.bitDepth), shape) == n
  {
    FrameSize(shape.channels, shape.bitDepth);
    var block := BytesPerFrame(shape.channels, shape.bitDepth);
    assert block >= 1 by { Monotone(1, shape.channels, shape.bitDepth / 8); }
    assert n * block == block * n + 0;
    Bits.DivModUnique(n * block, block, n, 0);
  }

  /** WAV round trip: every integer sample type, every supported bit depth no wider than it, 1 to 128
      channels of equal length, any 32-bit sample rate and any iXML text whose file stays below 2^31
      bytes. The sample rate, depth, shape and text come back as they were, and each sample as its clamp
      into the depth's range; the header check passes even where the byte rate has wrapped. */
  lemma WaveRoundTrip(ty: SampleType, a: Audio)
    requires IsSampleType(ty) && IsBitDepth(a.bitDepth) && a.bitDepth <= ty.width
    requires 1 <= |a.samples| <= 128 && Encodable(a)
    ensures DecodeWave(ty, WaveBytes(ty, a))
            == Decoded(Clamped(ty, a.bitDepth, a.samples, NumFrames(a)), a.sampleRate, a.bitDepth,
                       if a.iXML == [] then None else Some(a.iXML))
  {
    hide FindChunk, ReadInt, FormatBody, SampleBytes, DataBytes, WaveBytes, Deinterleave, Clamped, ReadFormat, DataSize;
    hide BytesPerFrame, FramesIn, TextReadable, ReadText;
    var (n, shape) := (NumFrames(a), Shape(|a.samples|, a.sampleRate, a.bitDepth));
    SampleBytesLength(ty, Wave, a);
    WaveLength(ty, a);
    var data := WaveBytes(ty, a);
    WaveContents(ty, a);
    FormatReadBack(ty, data, |a.samples|, a.sampleRate, a.bitDepth);
    FrameCount(n, shape);
    FramesRoundTrip(ty, Wave, a.bitDepth, a.samples, n, data, 44);
  }
}
