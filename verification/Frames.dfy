/** Interleaved sample data, which both file formats store the same way: frame after frame, one sample
    per channel in each. */
module Frames {
  import opened Bytes
  import opened Samples

  /** Every channel has the samples of the first `n` frames. */
  predicate HasFrames(samples: seq<seq<int>>, n: nat) {
    forall c :: 0 <= c < |samples| ==> n <= |samples[c]|
  }

  /** The bytes of the first `c` channels of frame `i`. */
  function FrameBytes(ty: SampleType, fmt: Format, depth: nat, samples: seq<seq<int>>, i: nat, c: nat): seq<byte>
    requires IsBitDepth(depth) && HasFrames(samples, i + 1) && c <= |samples|
  {
    if c == 0 then []
    else FrameBytes(ty, fmt, depth, samples, i, c - 1) + Encode(ty, fmt, depth, samples[c - 1][i])
  }

  /** The bytes of the first `n` frames. */
  function DataBytes(ty: SampleType, fmt: Format, depth: nat, samples: seq<seq<int>>, n: nat): seq<byte>
    requires IsBitDepth(depth) && HasFrames(samples, n)
  {
    if n == 0 then []
    else DataBytes(ty, fmt, depth, samples, n - 1) + FrameBytes(ty, fmt, depth, samples, n - 1, |samples|)
  }

  function BytesPerFrame(channels: nat, depth: nat): nat {
    channels * (depth / 8)
  }

  lemma {:induction false} FrameLength(ty: SampleType, fmt: Format, depth: nat, samples: seq<seq<int>>, i: nat, c: nat)
    requires IsBitDepth(depth) && HasFrames(samples, i + 1) && c <= |samples|
    ensures |FrameBytes(ty, fmt, depth, samples, i, c)| == c * (depth / 8)
  {
    hide Encode;
    if c > 0 {
      FrameLength(ty, fmt, depth, samples, i, c - 1);
      Times(c - 1, depth / 8);
    }
  }

  lemma Times(a: nat, b: nat)
    ensures (a + 1) * b == a * b + b && b * (a + 1) == b * a + b && a * b == b * a
  {
  }

  lemma {:induction false} DataLength(ty: SampleType, fmt: Format, depth: nat, samples: seq<seq<int>>, n: nat)
    requires IsBitDepth(depth) && HasFrames(samples, n)
    ensures |DataBytes(ty, fmt, depth, samples, n)| == n * BytesPerFrame(|samples|, depth)
  {
    hide Encode, FrameBytes;
    var block := BytesPerFrame(|samples|, depth);
    if n > 0 {
      DataLength(ty, fmt, depth, samples, n - 1);
      FrameLength(ty, fmt, depth, samples, n - 1, |samples|);
      hide BytesPerFrame;
      Times(n - 1, block);
    }
  }

  /** Where sample `i` of channel `c` is, counting from the first byte of the first frame. */
  function Place(channels: nat, depth: nat, i: nat, c: nat): nat {
    BytesPerFrame(channels, depth) * i + c * (depth / 8)
  }

  lemma PlaceBound(channels: nat, depth: nat, i: nat, c: nat, n: nat)
    requires c < channels && i < n
    ensures Place(channels, depth, i, c) + depth / 8 <= n * BytesPerFrame(channels, depth)
  {
    var (block, b) := (BytesPerFrame(channels, depth), depth / 8);
    assert c * b + b <= block by { Times(c, b); Monotone(c + 1, channels, b); }
    assert block * i + block <= n * block by { Times(i, block); Monotone(i + 1, n, block); }
  }

  lemma Monotone(a: nat, b: nat, k: nat)
    requires a <= b
    ensures a * k <= b * k
  {
  }

  /** Where channel `c` is in a frame. */
  function ChannelPlace(c: nat, depth: nat): nat {
    c * (depth / 8)
  }

  lemma {:induction false} FrameSlice(ty: SampleType, fmt: Format, depth: nat, samples: seq<seq<int>>, i: nat, k: nat, c: nat)
    requires IsBitDepth(depth) && HasFrames(samples, i + 1) && c < k <= |samples|
    ensures Stands(FrameBytes(ty, fmt, depth, samples, i, k), ChannelPlace(c, depth), Encode(ty, fmt, depth, samples[c][i]))
    decreases k
  {
    hide Encode, Stands;
    var before := FrameBytes(ty, fmt, depth, samples, i, k - 1);
    var last := Encode(ty, fmt, depth, samples[k - 1][i]);
    assert FrameBytes(ty, fmt, depth, samples, i, k) == before + last;
    hide FrameBytes;
    if c < k - 1 {
      FrameSlice(ty, fmt, depth, samples, i, k - 1, c);
      StandsInFirst(before, last, ChannelPlace(c, depth), Encode(ty, fmt, depth, samples[c][i]));
    } else {
      FrameLength(ty, fmt, depth, samples, i, c);
      StandsAtEnd(before, last);
    }
  }

  /** The data holds sample `i` of channel `c` at its place. */
  lemma {:induction false} DataSlice(ty: SampleType, fmt: Format, depth: nat, samples: seq<seq<int>>, n: nat, i: nat, c: nat)
    requires IsBitDepth(depth) && HasFrames(samples, n) && i < n && c < |samples|
    ensures Stands(DataBytes(ty, fmt, depth, samples, n), Place(|samples|, depth, i, c),
                   Encode(ty, fmt, depth, samples[c][i]))
    decreases n
  {
    hide Encode, FrameBytes, DataBytes, Place, ChannelPlace, IsBitDepth, Stands;
    var (at, part) := (Place(|samples|, depth, i, c), Encode(ty, fmt, depth, samples[c][i]));
    var (before, frame) := (DataBytes(ty, fmt, depth, samples, n - 1),
                            FrameBytes(ty, fmt, depth, samples, n - 1, |samples|));
    LastFrame(ty, fmt, depth, samples, n);
    if i < n - 1 {
      DataSlice(ty, fmt, depth, samples, n - 1, i, c);
      StandsInFirst(before, frame, at, part);
    } else {
      LastPlace(ty, fmt, depth, samples, i, c);
      FrameSlice(ty, fmt, depth, samples, i, |samples|, c);
      StandsInSecond(before, frame, at, ChannelPlace(c, depth), part);
    }
  }

  lemma LastFrame(ty: SampleType, fmt: Format, depth: nat, samples: seq<seq<int>>, n: nat)
    requires IsBitDepth(depth) && HasFrames(samples, n) && n > 0
    ensures DataBytes(ty, fmt, depth, samples, n)
            == DataBytes(ty, fmt, depth, samples, n - 1) + FrameBytes(ty, fmt, depth, samples, n - 1, |samples|)
  {
  }

  lemma LastPlace(ty: SampleType, fmt: Format, depth: nat, samples: seq<seq<int>>, i: nat, c: nat)
    requires IsBitDepth(depth) && HasFrames(samples, i)
    ensures Place(|samples|, depth, i, c) == |DataBytes(ty, fmt, depth, samples, i)| + ChannelPlace(c, depth)
  {
    hide DataBytes, BytesPerFrame;
    DataLength(ty, fmt, depth, samples, i);
    Times(i, BytesPerFrame(|samples|, depth));
  }

  lemma InnerSlice(data: seq<byte>, start: nat, len: nat, lo: nat, hi: nat)
    requires start + len <= |data| && lo <= hi <= len
    ensures data[start..start + len][lo..hi] == data[start + lo..start + hi]
  {
    var (inner, outer) := (data[start..start + len][lo..hi], data[start + lo..start + hi]);
    assert forall k :: 0 <= k < hi - lo ==> inner[k] == data[start..start + len][lo + k] == outer[k];
  }

  lemma FrameStep(ty: SampleType, fmt: Format, depth: nat, samples: seq<seq<int>>, i: nat, c: nat, out: seq<byte>)
    requires IsBitDepth(depth) && HasFrames(samples, i + 1) && c <= |samples|
    ensures c == 0 ==> out + FrameBytes(ty, fmt, depth, samples, i, c) == out
    ensures c > 0 ==> out + FrameBytes(ty, fmt, depth, samples, i, c)
                      == (out + FrameBytes(ty, fmt, depth, samples, i, c - 1)) + Encode(ty, fmt, depth, samples[c - 1][i])
  {
    hide Encode;
  }

  lemma DataStep(ty: SampleType, fmt: Format, depth: nat, samples: seq<seq<int>>, n: nat, out: seq<byte>)
    requires IsBitDepth(depth) && HasFrames(samples, n)
    ensures n == 0 ==> out + DataBytes(ty, fmt, depth, samples, n) == out
    ensures n > 0 ==> out + DataBytes(ty, fmt, depth, samples, n)
                      == (out + DataBytes(ty, fmt, depth, samples, n - 1)) + FrameBytes(ty, fmt, depth, samples, n - 1, |samples|)
  {
    hide FrameBytes;
  }

  /** The inner loop of the encoders: push a sample of each channel. Fails at once on an unsupported bit
      depth. */
  method WriteFrame(ty: SampleType, fmt: Format, depth: nat, samples: seq<seq<int>>, i: nat, fileData: seq<byte>)
    returns (ok: bool, out: seq<byte>)
    requires HasFrames(samples, i + 1)
    ensures ok <==> IsBitDepth(depth) || |samples| == 0
    ensures out == if IsBitDepth(depth) then fileData + FrameBytes(ty, fmt, depth, samples, i, |samples|) else fileData
  {
    hide Encode, FrameBytes;
    out := fileData;
    if IsBitDepth(depth) {
      FrameStep(ty, fmt, depth, samples, i, 0, fileData);
    }
    var channel := 0;
    while channel < |samples|
      invariant channel <= |samples| && (!IsBitDepth(depth) ==> channel == 0 && out == fileData)
      invariant IsBitDepth(depth) ==> out == fileData + FrameBytes(ty, fmt, depth, samples, i, channel)
    {
      if !IsBitDepth(depth) {
        return false, out;
      }
      FrameStep(ty, fmt, depth, samples, i, channel + 1, fileData);
      out := out + Encode(ty, fmt, depth, samples[channel][i]);
      channel := channel + 1;
    }
    return true, out;
  }

  /** The outer loop: frame after frame. */
  method WriteFrames(ty: SampleType, fmt: Format, depth: nat, samples: seq<seq<int>>, n: nat, fileData: seq<byte>)
    returns (ok: bool, out: seq<byte>)
    requires HasFrames(samples, n)
    ensures ok <==> IsBitDepth(depth) || n == 0 || |samples| == 0
    ensures out == if IsBitDepth(depth) then fileData + DataBytes(ty, fmt, depth, samples, n) else fileData
  {
    hide DataBytes, FrameBytes;
    out := fileData;
    if IsBitDepth(depth) {
      DataStep(ty, fmt, depth, samples, 0, fileData);
    }
    var i := 0;
    while i < n
      invariant i <= n && (!IsBitDepth(depth) ==> out == fileData && (i == 0 || |samples| == 0))
      invariant IsBitDepth(depth) ==> out == fileData + DataBytes(ty, fmt, depth, samples, i)
    {
      ok, out := WriteFrame(ty, fmt, depth, samples, i, out);
      if !ok {
        return false, out;
      }
      if IsBitDepth(depth) {
        DataStep(ty, fmt, depth, samples, i + 1, fileData);
      }
      i := i + 1;
    }
    return true, out;
  }

  // ---- reading --------------------------------------------------------------------

  function SampleAt(ty: SampleType, fmt: Format, depth: nat, data: seq<byte>, at: nat): int
    requires IsBitDepth(depth)
  {
    if at + depth / 8 <= |data| then Decode(ty, fmt, depth, data[at..at + depth / 8]) else 0
  }

  /** The samples of `n` frames starting at `start`, channel by channel. */
  function Deinterleave(ty: SampleType, fmt: Format, depth: nat, data: seq<byte>, start: nat, channels: nat, n: nat)
    : seq<seq<int>>
    requires IsBitDepth(depth)
  {
    seq(channels, c requires 0 <= c < channels =>
      seq(n, i requires 0 <= i < n =>
        SampleAt(ty, fmt, depth, data, start + Place(channels, depth, i, c))))
  }

  /** The loops of the decoders: `clear`, `resize` and then push each sample onto its channel. They stop
      at the first sample that is not wholly inside the file. */
  method ReadFrames(ty: SampleType, fmt: Format, depth: nat, data: seq<byte>, start: nat, channels: nat, n: nat)
    returns (ok: bool, samples: seq<seq<int>>)
    requires IsBitDepth(depth) && channels > 0
    ensures ok <==> n == 0 || start + n * BytesPerFrame(channels, depth) <= |data|
    ensures ok ==> samples == Deinterleave(ty, fmt, depth, data, start, channels, n)
    ensures !ok ==> Cut(ty, fmt, depth, data, start, channels, n, samples)
  {
    hide SampleAt, Place;
    samples := seq(channels, _ => []);
    var i := 0;
    while i < n
      invariant i <= n && |samples| == channels
      invariant i > 0 ==> start + i * BytesPerFrame(channels, depth) <= |data|
      invariant forall c :: 0 <= c < channels ==> Channel(ty, fmt, depth, data, start, channels, c, samples[c], i)
    {
      var channel := 0;
      PlaceOfFrame(channels, depth, i);
      while channel < channels
        invariant channel <= channels && |samples| == channels
        invariant i > 0 || channel > 0 ==> start + Place(channels, depth, i, channel) <= |data|
        invariant forall c :: 0 <= c < channels ==>
          Channel(ty, fmt, depth, data, start, channels, c, samples[c], if c < channel then i + 1 else i)
      {
        var sampleIndex := start + Place(channels, depth, i, channel);
        PlaceBound(channels, depth, i, channel, n);
        if sampleIndex + depth / 8 - 1 >= |data| {
          assert CutShort(ty, fmt, depth, data, start, channels, n, samples, i, channel);
          return false, samples;
        }
        PlaceNext(channels, depth, i, channel);
        samples := samples[channel := samples[channel] + [SampleAt(ty, fmt, depth, data, sampleIndex)]];
        channel := channel + 1;
      }
      PlaceOfNextFrame(channels, depth, i);
      i := i + 1;
    }
    Deinterleaved(ty, fmt, depth, data, start, channels, n, samples);
    return true, samples;
  }

  /** The samples as far as they are wholly in the file: all up to channel `c` of frame `i`, whose own sample
      is the first that is not. */
  ghost predicate CutShort(ty: SampleType, fmt: Format, depth: nat, data: seq<byte>, start: nat, channels: nat, n: nat,
                           samples: seq<seq<int>>, i: nat, c: nat)
    requires IsBitDepth(depth)
  {
    && i < n && c < channels && start + Place(channels, depth, i, c) + depth / 8 > |data|
    && ((i == 0 && c == 0) || start + Place(channels, depth, i, c) <= |data|)
    && |samples| == channels
    && forall k :: 0 <= k < channels ==>
         Channel(ty, fmt, depth, data, start, channels, k, samples[k], if k < c then i + 1 else i)
  }

  ghost predicate Cut(ty: SampleType, fmt: Format, depth: nat, data: seq<byte>, start: nat, channels: nat, n: nat,
                      samples: seq<seq<int>>)
    requires IsBitDepth(depth)
  {
    exists i, c :: CutShort(ty, fmt, depth, data, start, channels, n, samples, i, c)
  }

  /** `s` is the first `n` samples of channel `c`. */
  predicate Channel(ty: SampleType, fmt: Format, depth: nat, data: seq<byte>, start: nat, channels: nat, c: nat,
                    s: seq<int>, n: nat)
    requires IsBitDepth(depth)
  {
    |s| == n
    && forall i :: 0 <= i < n ==> s[i] == SampleAt(ty, fmt, depth, data, start + Place(channels, depth, i, c))
  }

  lemma Deinterleaved(ty: SampleType, fmt: Format, depth: nat, data: seq<byte>, start: nat, channels: nat, n: nat,
                      samples: seq<seq<int>>)
    requires IsBitDepth(depth) && |samples| == channels
    requires forall c :: 0 <= c < channels ==> Channel(ty, fmt, depth, data, start, channels, c, samples[c], n)
    ensures samples == Deinterleave(ty, fmt, depth, data, start, channels, n)
  {
    hide SampleAt, Place;
    var d := Deinterleave(ty, fmt, depth, data, start, channels, n);
    forall c | 0 <= c < channels ensures samples[c] == d[c] {
      assert Channel(ty, fmt, depth, data, start, channels, c, samples[c], n);
      assert d[c] == seq(n, i requires 0 <= i < n => SampleAt(ty, fmt, depth, data, start + Place(channels, depth, i, c)));
    }
  }

  lemma PlaceNext(channels: nat, depth: nat, i: nat, c: nat)
    ensures Place(channels, depth, i, c + 1) == Place(channels, depth, i, c) + depth / 8
  {
    Times(c, depth / 8);
  }

  lemma PlaceOfFrame(channels: nat, depth: nat, i: nat)
    ensures Place(channels, depth, i, 0) == i * BytesPerFrame(channels, depth)
  {
    Times(i, BytesPerFrame(channels, depth));
  }

  lemma PlaceOfNextFrame(channels: nat, depth: nat, i: nat)
    ensures Place(channels, depth, i, channels) == (i + 1) * BytesPerFrame(channels, depth)
  {
    Times(i, BytesPerFrame(channels, depth));
  }

  /** The samples a round trip returns. */
  function Clamped(ty: SampleType, depth: nat, samples: seq<seq<int>>, n: nat): seq<seq<int>>
    requires HasFrames(samples, n)
  {
    seq(|samples|, c requires 0 <= c < |samples| =>
      seq(n, i requires 0 <= i < n => ClampToDepth(ty, depth, samples[c][i])))
  }

  /** Written and read back, every sample is its clamp into the depth's range. */
  lemma FramesRoundTrip(ty: SampleType, fmt: Format, depth: nat, samples: seq<seq<int>>, n: nat,
                        data: seq<byte>, start: nat)
    requires IsSampleType(ty) && IsBitDepth(depth) && depth <= ty.width && HasFrames(samples, n)
    requires var bytes := DataBytes(ty, fmt, depth, samples, n);
             start + |bytes| <= |data| && data[start..start + |bytes|] == bytes
    ensures Deinterleave(ty, fmt, depth, data, start, |samples|, n) == Clamped(ty, depth, samples, n)
  {
    hide Place, Encode, Decode, ClampToDepth, DataBytes, IsSampleType;
    var d := Deinterleave(ty, fmt, depth, data, start, |samples|, n);
    var r := Clamped(ty, depth, samples, n);
    forall c | 0 <= c < |samples| ensures d[c] == r[c] {
      forall i | 0 <= i < n ensures d[c][i] == r[c][i] {
        SampleReadBack(ty, fmt, depth, samples, n, data, start, i, c);
      }
      assert |d[c]| == |r[c]|;
    }
  }

  lemma SampleReadBack(ty: SampleType, fmt: Format, depth: nat, samples: seq<seq<int>>, n: nat,
                       data: seq<byte>, start: nat, i: nat, c: nat)
    requires IsSampleType(ty) && IsBitDepth(depth) && depth <= ty.width && HasFrames(samples, n)
    requires var bytes := DataBytes(ty, fmt, depth, samples, n);
             start + |bytes| <= |data| && data[start..start + |bytes|] == bytes
    requires i < n && c < |samples|
    ensures SampleAt(ty, fmt, depth, data, start + Place(|samples|, depth, i, c))
            == ClampToDepth(ty, depth, samples[c][i])
  {
    hide Place, Encode, Decode, ClampToDepth, DataBytes, IsSampleType;
    var bytes := DataBytes(ty, fmt, depth, samples, n);
    var at := Place(|samples|, depth, i, c);
    DataSlice(ty, fmt, depth, samples, n, i, c);
    InnerSlice(data, start, |bytes|, at, at + depth / 8);
    SampleRoundTrip(ty, fmt, depth, samples[c][i]);
  }
}
