/** `AudioFile` as the object the code works on: its fields, the encoders that push bytes onto a vector
    and the decoders that fill the fields. */
module AudioFiles {
  import opened AiffRate
  import opened Aiff
  import opened Audio
  import opened Bytes
  import opened Chunks
  import opened Frames
  import opened Options
  import opened Samples
  import opened Wave

  /** The format chunk, field by field. */
  method AddFormatChunk(fileData: seq<byte>, channels: nat, sampleRate: nat, bitDepth: nat) returns (out: seq<byte>)
    ensures out == fileData + ChunkBytes(Chunk(FMT, FormatBody(channels, sampleRate, bitDepth)), Little)
  {
    hide Store, ByteRate;
    out := FMT + Store(16, 4, Little);
    out := out + Store(PCM, 2, Little);
    out := out + Store(channels, 2, Little);
    out := out + Store(sampleRate, 4, Little);
    out := out + Store(ByteRate(channels, sampleRate, bitDepth), 4, Little);
    out := out + Store(channels * (bitDepth / 8), 2, Little);
    out := out + Store(bitDepth, 2, Little);
    assert out == ChunkBytes(Chunk(FMT, FormatBody(channels, sampleRate, bitDepth)), Little);
    out := fileData + out;
  }

  method AddCommonChunk(fileData: seq<byte>, channels: nat, frames: nat, bitDepth: nat, rate: seq<byte>)
    returns (out: seq<byte>)
    requires |rate| == 10
    ensures out == fileData + ChunkBytes(Chunk(COMM, CommonBody(channels, frames, bitDepth, rate)), Big)
  {
    hide Store;
    out := COMM + Store(18, 4, Big);
    out := out + Store(channels, 2, Big);
    out := out + Store(frames, 4, Big);
    out := out + Store(bitDepth, 2, Big);
    out := out + rate;
    assert out == ChunkBytes(Chunk(COMM, CommonBody(channels, frames, bitDepth, rate)), Big);
    out := fileData + out;
  }

  /** `addSampleRateToAiffData`. */
  method SampleRateField(sampleRate: nat, e: nat) returns (field: seq<byte>)
    requires e <= 63 && RateBytes(sampleRate, e).Some?
    ensures field == RateBytes(sampleRate, e).value
  {
    var sampleRateData := new byte[10];
    EncodeRate(sampleRate, e, sampleRateData);
    field := sampleRateData[..];
  }

  method AddTextChunk(fileData: seq<byte>, text: seq<byte>, e: Endian) returns (out: seq<byte>)
    ensures out == fileData + Layout(TextChunk(text), e)
  {
    out := fileData;
    if |text| > 0 {
      OneChunk(Chunk(IXML, text), e);
      hide Layout, Store;
      out := fileData + (IXML + Store(|text|, 4, e) + text);
    }
  }

  lemma OneChunk(c: Chunk, e: Endian)
    ensures Layout([c], e) == ChunkBytes(c, e)
  {
    assert [c][1..] == [];
    hide ChunkBytes;
  }

  lemma TwoChunks(c: Chunk, d: Chunk, rest: seq<Chunk>, e: Endian)
    ensures Layout([c, d] + rest, e) == ChunkBytes(c, e) + (ChunkBytes(d, e) + Layout(rest, e))
  {
    hide ChunkBytes;
    var cs := [c, d] + rest;
    assert cs[1..] == [d] + rest && cs[1..][1..] == rest;
  }

  lemma Regrouped(f: seq<byte>, head: seq<byte>, c: seq<byte>, d: seq<byte>, text: seq<byte>)
    ensures f + head + c + d + text == f + (head + (c + (d + text)))
  {
  }

  class AudioFile {
    const ty: SampleType
    var samples: seq<seq<int>>
    var sampleRate: nat
    var bitDepth: int
    var iXMLChunk: seq<byte>

    constructor (ty: SampleType)
      ensures this.ty == ty && samples == [[]] && sampleRate == 44100 && bitDepth == 16 && iXMLChunk == []
    {
      this.ty := ty;
      samples, sampleRate, bitDepth, iXMLChunk := [[]], 44100, 16, [];
    }

    function Contents(): Audio
      reads this
      requires bitDepth >= 0
    {
      Audio(samples, sampleRate, bitDepth, iXMLChunk)
    }

    /** `encodeWaveFile`, onto a vector that should be empty: the sizes are checked against the whole
        vector at the end, so it reports success exactly when the vector was empty. */
    method EncodeWaveFile(fileData: seq<byte>) returns (ok: bool, out: seq<byte>)
      requires bitDepth >= 0 && Encodable(Contents())
      ensures ok <==> fileData == [] && (IsBitDepth(bitDepth) || NumFrames(Contents()) == 0)
      ensures IsBitDepth(bitDepth) || NumFrames(Contents()) == 0 ==> out == fileData + WaveBytes(ty, Contents())
      ensures ok && IsBitDepth(bitDepth) ==> WaveFile(ty, Contents(), out)
    {
      hide WaveFile, Store, Layout, FormatBody, DataBytes, SampleBytes, ChunkBytes, BytesPerFrame, DataSize, WaveBytes;
      ghost var a := Contents();
      WaveLength(ty, a);
      WaveSizes(ty, a);
      var (channels, frames) := (|samples|, if |samples| > 0 then |samples[0]| else 0);
      var dataChunkSize := frames * (channels * bitDepth / 8);
      var fileSizeInBytes := 4 + 16 + 8 + 8 + dataChunkSize + (if |iXMLChunk| > 0 then 8 + |iXMLChunk| else 0);
      out := fileData + (RIFF + Store(fileSizeInBytes, 4, Little) + WAVE);
      out := AddFormatChunk(out, channels, sampleRate, bitDepth);
      ghost var before := out;
      out := out + (DATA + Store(dataChunkSize, 4, Little));
      ok, out := WriteFrames(ty, Wave, bitDepth, samples, frames, out);
      if !ok {
        return false, out;
      }
      DataChunk(before, DATA, dataChunkSize, SampleBytes(ty, Wave, a), out, Little);
      out := AddTextChunk(out, iXMLChunk, Little);
      WaveBytesInParts(ty, a, fileData, fileSizeInBytes);
      if IsBitDepth(bitDepth) {
        WaveFileWritten(ty, a);
        assert [] + WaveBytes(ty, a) == WaveBytes(ty, a);
      }
      if fileSizeInBytes != |out| - 8 || dataChunkSize != frames * (channels * (bitDepth / 8)) {
        return false, out;
      }
    }

    /** `encodeAiffFile`; `e` is the exponent `log` gave for the sample rate. */
    method EncodeAiffFile(fileData: seq<byte>, e: nat) returns (ok: bool, out: seq<byte>)
      requires bitDepth >= 0 && Encodable(Contents()) && e <= 63 && RateBytes(sampleRate, e).Some?
      ensures ok <==> fileData == [] && (IsBitDepth(bitDepth) || NumFrames(Contents()) == 0)
      ensures IsBitDepth(bitDepth) || NumFrames(Contents()) == 0 ==>
                out == fileData + AiffBytes(ty, Contents(), RateBytes(sampleRate, e).value)
      ensures ok && IsBitDepth(bitDepth) ==> AiffFile(ty, Contents(), e, out)
    {
      hide AiffFile, Store, Layout, CommonBody, DataBytes, SampleBytes, ChunkBytes, RateBytes, DataSize, AiffBytes, BytesPerFrame;
      ghost var a := Contents();
      var rate := SampleRateField(sampleRate, e);
      AiffLength(ty, a, rate);
      if IsBitDepth(bitDepth) {
        SampleBytesLength(ty, Aiff, a);
      } else {
        NoSamples(ty, Aiff, a);
      }
      var (channels, frames) := (|samples|, if |samples| > 0 then |samples[0]| else 0);
      var numBytesPerFrame := BytesPerFrame(channels, bitDepth);
      var totalNumAudioSampleBytes := frames * numBytesPerFrame;
      var soundDataChunkSize := totalNumAudioSampleBytes + 8;
      var fileSizeInBytes := 4 + 26 + 16 + totalNumAudioSampleBytes + (if |iXMLChunk| > 0 then 8 + |iXMLChunk| else 0);
      out := fileData + (FORM + Store(fileSizeInBytes, 4, Big) + AIFF);
      out := AddCommonChunk(out, channels, frames, bitDepth, rate);
      ghost var before := out;
      out := out + (SSND + Store(soundDataChunkSize, 4, Big) + Store(0, 4, Big) + Store(0, 4, Big));
      ok, out := WriteFrames(ty, Aiff, bitDepth, samples, frames, out);
      if !ok {
        return false, out;
      }
      SoundChunk(before, soundDataChunkSize, SampleBytes(ty, Aiff, a), out);
      out := AddTextChunk(out, iXMLChunk, Big);
      AiffBytesInParts(ty, a, rate, fileData, fileSizeInBytes);
      if IsBitDepth(bitDepth) {
        AiffFileWritten(ty, a, e);
        assert [] + AiffBytes(ty, a, rate) == AiffBytes(ty, a, rate);
      }
      if fileSizeInBytes != |out| - 8 || soundDataChunkSize != frames * numBytesPerFrame + 8 {
        return false, out;
      }
    }

    /** `decodeWaveFile`, on data the code can read. A file without text leaves the old text in place. */
    method DecodeWaveFile(fileData: seq<byte>) returns (ok: bool)
      requires |fileData| < 0x8000_0000 && DecodeWave(ty, fileData) != Outside
      modifies this
      ensures ok <==> DecodeWave(ty, fileData).Decoded?
      ensures ok ==> Holds(DecodeWave(ty, fileData), old(iXMLChunk))
      ensures !ok ==> iXMLChunk == old(iXMLChunk)
      ensures !IsWave(fileData) ==> samples == old(samples) && sampleRate == old(sampleRate) && bitDepth == old(bitDepth)
      ensures IsWave(fileData) ==> var f := FindChunk(fileData, FMT, 12, Little);
                                   sampleRate == RateField(fileData, f) && bitDepth == DepthField(fileData, f)
      ensures !ok ==> if GoodFormat(ty, fileData) then CutWave(ty, fileData, samples) else samples == old(samples)
    {
      hide FindChunk, Load, ReadInt, FramesIn, Deinterleave, BytesPerFrame, ReadFormat, Cut;
      var d := GetIndexOfChunk(fileData, DATA, 12, Little);
      var f := GetIndexOfChunk(fileData, FMT, 12, Little);
      var x := GetIndexOfChunk(fileData, IXML, 12, Little);
      if d == -1 || f == -1 || fileData[..4] != RIFF || fileData[8..12] != WAVE {
        return false;
      }
      sampleRate := Load(fileData[f + 12..f + 16], Little);
      bitDepth := ReadInt(fileData, f + 22, 2, Little);
      var shape := ReadFormat(ty, fileData, f);
      if shape.None? {
        return false;
      }
      FormatFieldsRead(ty, fileData, f);
      var channels := shape.value.channels;
      var numSamples := FramesIn(ReadInt(fileData, d + 4, 4, Little), shape.value);
      ok, samples := ReadFrames(ty, Wave, bitDepth, fileData, d + 8, channels, numSamples);
      if !ok {
        return false;
      }
      if x != -1 {
        iXMLChunk := fileData[x + 8..x + 8 + ReadInt(fileData, x + 4, 4, Little)];
      }
    }

    /** The fields show what was read. */
    ghost predicate Holds(r: Outcome, oldText: seq<byte>)
      reads this
    {
      r.Decoded? && samples == r.samples && sampleRate == r.sampleRate && bitDepth == r.bitDepth
      && iXMLChunk == if r.iXML.Some? then r.iXML.value else oldText
    }

    /** `decodeAiffFile`, on data the code can read. */
    method DecodeAiffFile(fileData: seq<byte>) returns (ok: bool)
      requires |fileData| < 0x8000_0000 && DecodeAiff(ty, fileData) != Outside
      modifies this
      ensures ok <==> DecodeAiff(ty, fileData).Decoded?
      ensures ok ==> Holds(DecodeAiff(ty, fileData), old(iXMLChunk))
      ensures !ok ==> iXMLChunk == old(iXMLChunk) && samples == old(samples)
      ensures !IsAiff(fileData) ==> sampleRate == old(sampleRate) && bitDepth == old(bitDepth)
      ensures IsAiff(fileData) ==> var p := FindChunk(fileData, COMM, 12, Big);
                                   Some(sampleRate) == CommonRate(fileData, p) && bitDepth == CommonDepth(fileData, p)
    {
      hide FindChunk, Load, ReadInt, Deinterleave, ReadRate, BytesPerFrame;
      var p := GetIndexOfChunk(fileData, COMM, 12, Big);
      var s := GetIndexOfChunk(fileData, SSND, 12, Big);
      var x := GetIndexOfChunk(fileData, IXML, 12, Big);
      if s == -1 || p == -1 || fileData[..4] != FORM || (fileData[8..12] != AIFF && fileData[8..12] != AIFC) {
        return false;
      }
      bitDepth := ReadInt(fileData, p + 14, 2, Big);
      var rate := DecodeRate(fileData[p + 16..p + 26]);
      sampleRate := rate.value;
      var common := ReadCommon(ty, fileData, p, sampleRate);
      if common.None? {
        return false;
      }
      var channels, numSamplesPerChannel := common.value.channels, common.value.frames;
      var soundDataChunkSize := ReadInt(fileData, s + 4, 4, Big);
      var totalNumAudioSampleBytes := numSamplesPerChannel * BytesPerFrame(channels, bitDepth);
      var samplesStartIndex := s + 16 + ReadInt(fileData, s + 8, 4, Big);
      if soundDataChunkSize - 8 != totalNumAudioSampleBytes
         || totalNumAudioSampleBytes > |fileData| - samplesStartIndex {
        return false;
      }
      var n := if numSamplesPerChannel < 0 then 0 else numSamplesPerChannel;
      ok, samples := ReadFrames(ty, Aiff, bitDepth, fileData, samplesStartIndex, channels, n);
      if x != -1 {
        iXMLChunk := fileData[x + 8..x + 8 + ReadInt(fileData, x + 4, 4, Little)];
      }
    }
  }

  lemma FormatFieldsRead(ty: SampleType, data: seq<byte>, f: nat)
    requires f + 24 <= |data| && ReadFormat(ty, data, f).Some?
    ensures ReadFormat(ty, data, f).value.sampleRate == Load(data[f + 12..f + 16], Little)
    ensures ReadFormat(ty, data, f).value.bitDepth == ReadInt(data, f + 22, 2, Little)
  {
    hide Load, ReadInt, ByteRate;
  }

  lemma SoundChunk(before: seq<byte>, size: nat, samples: seq<byte>, out: seq<byte>)
    requires size == |samples| + 8
    requires out == before + (SSND + Store(size, 4, Big) + Store(0, 4, Big) + Store(0, 4, Big)) + samples
    ensures out == before + ChunkBytes(Chunk(SSND, SoundBody(samples)), Big)
  {
    hide Store;
    var zero := Store(0, 4, Big);
    assert SSND + Store(size, 4, Big) + zero + zero + samples == SSND + Store(size, 4, Big) + (zero + zero + samples);
  }

  lemma AiffBytesInParts(ty: SampleType, a: Audio, rate: seq<byte>, fileData: seq<byte>, size: nat)
    requires Encodable(a) && |rate| == 10 && size + 8 == |AiffBytes(ty, a, rate)|
    ensures fileData + AiffBytes(ty, a, rate)
            == fileData + (FORM + Store(size, 4, Big) + AIFF)
               + ChunkBytes(Chunk(COMM, CommonBody(|a.samples|, NumFrames(a), a.bitDepth, rate)), Big)
               + ChunkBytes(Chunk(SSND, SoundBody(SampleBytes(ty, Aiff, a))), Big) + Layout(TextChunk(a.iXML), Big)
  {
    hide Store, Layout, CommonBody, SoundBody, SampleBytes, ChunkBytes, Encodable;
    var cs := AiffChunks(ty, a, rate);
    TwoChunks(cs[0], cs[1], TextChunk(a.iXML), Big);
    assert |AiffBytes(ty, a, rate)| == 12 + |Layout(cs, Big)|;
    Regrouped(fileData, FORM + Store(size, 4, Big) + AIFF, ChunkBytes(cs[0], Big), ChunkBytes(cs[1], Big),
              Layout(TextChunk(a.iXML), Big));
  }

  /** The two ways the WAV encoder computes the size of the data chunk, and its size. */
  lemma WaveSizes(ty: SampleType, a: Audio)
    requires Encodable(a)
    ensures var size := NumFrames(a) * (|a.samples| * a.bitDepth / 8);
            IsBitDepth(a.bitDepth) || NumFrames(a) == 0 ==>
              |SampleBytes(ty, Wave, a)| == size == NumFrames(a) * (|a.samples| * (a.bitDepth / 8))
    ensures IsBitDepth(a.bitDepth) ==> SampleBytes(ty, Wave, a) == DataBytes(ty, Wave, a.bitDepth, a.samples, NumFrames(a))
    ensures !IsBitDepth(a.bitDepth) ==> SampleBytes(ty, Wave, a) == []
  {
    if IsBitDepth(a.bitDepth) {
      SampleBytesLength(ty, Wave, a);
    } else {
      NoSamples(ty, Wave, a);
    }
    hide DataBytes, Encodable;
  }

  lemma NoSamples(ty: SampleType, fmt: Format, a: Audio)
    requires Encodable(a) && !IsBitDepth(a.bitDepth)
    ensures SampleBytes(ty, fmt, a) == [] && (NumFrames(a) == 0 ==> DataSize(a) == 0)
  {
  }

  lemma DataChunk(before: seq<byte>, id: seq<byte>, size: nat, samples: seq<byte>, out: seq<byte>, e: Endian)
    requires size == |samples| && out == before + (id + Store(size, 4, e)) + samples
    ensures out == before + ChunkBytes(Chunk(id, samples), e)
  {
    hide Store;
  }

  lemma WaveBytesInParts(ty: SampleType, a: Audio, fileData: seq<byte>, size: nat)
    requires Encodable(a) && size + 8 == |WaveBytes(ty, a)|
    ensures fileData + WaveBytes(ty, a)
            == fileData + (RIFF + Store(size, 4, Little) + WAVE)
               + ChunkBytes(Chunk(FMT, FormatBody(|a.samples|, a.sampleRate, a.bitDepth)), Little)
               + ChunkBytes(Chunk(DATA, SampleBytes(ty, Wave, a)), Little) + Layout(TextChunk(a.iXML), Little)
  {
    hide Store, Layout, FormatBody, SampleBytes, ChunkBytes, Encodable;
    var cs := WaveChunks(ty, a);
    TwoChunks(cs[0], cs[1], TextChunk(a.iXML), Little);
    assert |WaveBytes(ty, a)| == 12 + |Layout(cs, Little)|;
    Regrouped(fileData, RIFF + Store(size, 4, Little) + WAVE, ChunkBytes(cs[0], Little), ChunkBytes(cs[1], Little),
              Layout(TextChunk(a.iXML), Little));
  }
}
