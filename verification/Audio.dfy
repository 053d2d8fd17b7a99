/** What both audio file formats have in common: the contents, the outcome of reading, the optional iXML
    chunk and the sample data. */
module Audio {
  import opened Bytes
  import opened Chunks
  import opened Frames
  import opened Options
  import opened Samples

  /** What an `AudioFile` holds: the samples by channel, the sample rate, the bit depth to save with, and
      the iXML text. */
  datatype Audio = Audio(samples: seq<seq<int>>, sampleRate: nat, bitDepth: nat, iXML: seq<byte>)

  /** What reading a file yields: the error path, the contents, or `Outside`, a file on which the code
      reads beyond the data, overflows an `int` or reinterprets floating-point samples. */
  datatype Outcome =
    | Rejected
    | Outside
    | Decoded(samples: seq<seq<int>>, sampleRate: nat, bitDepth: nat, iXML: Option<seq<byte>>)

  const IXML: seq<byte> := [0x69, 0x58, 0x4d, 0x4c]

  /** `getNumSamplesPerChannel`. */
  function NumFrames(a: Audio): nat {
    if |a.samples| > 0 then |a.samples[0]| else 0
  }

  /** The size of the sample data as the encoder computes it. */
  function DataSize(a: Audio): nat {
    NumFrames(a) * (|a.samples| * a.bitDepth / 8)
  }

  /** What the encoders need of their caller: no channel shorter than the first, a 32-bit sample rate and
      a total within `int`. */
  predicate Encodable(a: Audio) {
    && HasFrames(a.samples, NumFrames(a))
    && a.sampleRate < 0x1_0000_0000
    && DataSize(a) + |a.iXML| + 64 < 0x8000_0000
  }

  function SampleBytes(ty: SampleType, fmt: Format, a: Audio): seq<byte>
    requires Encodable(a)
  {
    if IsBitDepth(a.bitDepth) then DataBytes(ty, fmt, a.bitDepth, a.samples, NumFrames(a)) else []
  }

  function TextChunk(text: seq<byte>): seq<Chunk> {
    if text == [] then [] else [Chunk(IXML, text)]
  }

  /** The iXML chunk's length at `x`, which both decoders read as little-endian, and whether the code can
      read that much. */
  predicate TextReadable(data: seq<byte>, x: int) {
    x == -1 || (0 <= x && x + 8 < |data| && 0 <= ReadInt(data, x + 4, 4, Little) <= |data| - x - 8)
  }

  function ReadText(data: seq<byte>, x: int): Option<seq<byte>>
    requires TextReadable(data, x)
  {
    if x == -1 then None else Some(data[x + 8..x + 8 + ReadInt(data, x + 4, 4, Little)])
  }

  function Head(tag: seq<byte>, size: int, kind: seq<byte>, e: Endian): (h: seq<byte>)
    requires |tag| == 4 && |kind| == 4
    ensures |h| == 12 && h[..4] == tag && h[8..12] == kind
  {
    tag + Store(size, 4, e) + kind
  }

  // ---- sizes and positions ----------------------------------------------------------

  /** For valid depths the two ways the code computes the size of a frame agree. */
  lemma FrameSize(channels: nat, depth: nat)
    requires IsBitDepth(depth)
    ensures channels * depth / 8 == BytesPerFrame(channels, depth)
  {
  }

  lemma SampleBytesLength(ty: SampleType, fmt: Format, a: Audio)
    requires Encodable(a) && IsBitDepth(a.bitDepth)
    ensures SampleBytes(ty, fmt, a) == DataBytes(ty, fmt, a.bitDepth, a.samples, NumFrames(a))
    ensures |SampleBytes(ty, fmt, a)| == DataSize(a) == NumFrames(a) * BytesPerFrame(|a.samples|, a.bitDepth)
  {
    FrameSize(|a.samples|, a.bitDepth);
    DataLength(ty, fmt, a.bitDepth, a.samples, NumFrames(a));
  }

  lemma LayoutLength(cs: seq<Chunk>, e: Endian)
    requires WellFormed(cs)
    ensures cs == [] ==> |Layout(cs, e)| == 0
    ensures cs != [] ==> |Layout(cs, e)| == 8 + |cs[0].body| + |Layout(cs[1..], e)|
  {
  }

  lemma TextLength(text: seq<byte>, e: Endian)
    ensures |Layout(TextChunk(text), e)| == if text == [] then 0 else 8 + |text|
  {
    LayoutLength(TextChunk(text), e);
    hide Layout;
    if text != [] {
      LayoutLength(TextChunk(text)[1..], e);
    }
  }

  /** The position of a chunk in a list of two or three. */
  lemma Located3(cs: seq<Chunk>, id: seq<byte>)
    requires 2 <= |cs| <= 3
    ensures Located(cs, id, 12)
            == if cs[0].id == id then 12
               else if cs[1].id == id then 20 + |cs[0].body|
               else if |cs| == 3 && cs[2].id == id then 28 + |cs[0].body| + |cs[1].body|
               else -1
  {
    var (tail, last) := (cs[1..], cs[2..]);
    assert tail[1..] == last && (|cs| == 3 ==> last == [cs[2]]);
    var at := 28 + |cs[0].body| + |cs[1].body|;
    assert Located(last, id, at) == if |cs| == 3 && cs[2].id == id then at else -1;
    assert Located(tail, id, 20 + |cs[0].body|) == if cs[1].id == id then 20 + |cs[0].body| else Located(last, id, at);
  }

  // ---- the file, byte by byte ----------------------------------------------------------

  /** The size of `frames` frames of `channels` samples of `b` bytes, and where sample `i` of channel `c` is when
      they start at `start`. */
  function SizeOf(frames: nat, channels: nat, b: nat): nat {
    frames * (channels * b)
  }

  function SampleIndex(start: nat, channels: nat, b: nat, i: nat, c: nat): nat {
    start + (i * channels + c) * b
  }

  predicate HasSample(a: Audio, i: nat, c: nat) {
    c < |a.samples| && i < |a.samples[c]| && i < |a.samples[0]|
  }

  /** Sample `i` of channel `c` in a file that holds the sample data from `start` on. */
  lemma SampleStands(ty: SampleType, fmt: Format, a: Audio, data: seq<byte>, start: nat, i: nat, c: nat)
    requires Encodable(a) && IsBitDepth(a.bitDepth) && HasSample(a, i, c)
    requires Stands(data, start, SampleBytes(ty, fmt, a))
    ensures Stands(data, SampleIndex(start, |a.samples|, a.bitDepth / 8, i, c), Encode(ty, fmt, a.bitDepth, a.samples[c][i]))
  {
    hide DataBytes, Place, Encode, DataSize, Stands, IsBitDepth, SampleIndex;
    DataSlice(ty, fmt, a.bitDepth, a.samples, NumFrames(a), i, c);
    PlaceIs(start, |a.samples|, a.bitDepth, i, c);
    StandsWithin(data, start, SampleBytes(ty, fmt, a), Place(|a.samples|, a.bitDepth, i, c),
                 Encode(ty, fmt, a.bitDepth, a.samples[c][i]));
  }

  lemma PlaceIs(start: nat, channels: nat, depth: nat, i: nat, c: nat)
    ensures start + Place(channels, depth, i, c) == SampleIndex(start, channels, depth / 8, i, c)
  {
    var b := depth / 8;
    assert (i * channels + c) * b == i * channels * b + c * b;
    assert i * channels * b == channels * b * i;
  }

  lemma HeadParts(data: seq<byte>, tag: seq<byte>, size: int, kind: seq<byte>, e: Endian)
    requires |tag| == 4 && |kind| == 4 && Stands(data, 0, Head(tag, size, kind, e))
    ensures Stands(data, 0, tag) && Stands(data, 8, kind)
    ensures e == Little ==> LittleEndian(data, 4, 4, size)
    ensures e == Big ==> BigEndian(data, 4, 4, size)
  {
    hide Store, Stands, LittleEndian, BigEndian;
    var head := Head(tag, size, kind, e);
    ThreeParts(tag, Store(size, 4, e), kind);
    StandsWithin(data, 0, head, 0, tag);
    StandsWithin(data, 0, head, 4, Store(size, 4, e));
    StandsWithin(data, 0, head, 8, kind);
    Written(data, 4, 4, size, e);
  }

  /** The iXML chunk from `at` on, but for its length. */
  predicate TextAt(data: seq<byte>, at: nat, text: seq<byte>) {
    at + 8 + |text| == |data| && Stands(data, at, [0x69, 0x58, 0x4d, 0x4c]) && Stands(data, at + 8, text)
  }
}
