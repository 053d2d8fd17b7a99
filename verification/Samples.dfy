/** `AudioSampleConverter` for integer sample types: between a sample of type T and the integer a file
    of a given bit depth stores. Conversions between C++ integer types are written out as `Cast`. */
module Samples {
  import opened Bytes

  /** An integer sample type: its width in bits and whether it is signed. */
  datatype SampleType = SampleType(width: nat, signed: bool)

  predicate IsSampleType(ty: SampleType) {
    ty.width == 8 || ty.width == 16 || ty.width == 32 || ty.width == 64
  }

  predicate IsBitDepth(depth: int) {
    depth == 8 || depth == 16 || depth == 24 || depth == 32
  }

  function Values(width: nat): nat {
    match width
    case 8 => 0x100
    case 16 => 0x1_0000
    case 24 => 0x100_0000
    case 32 => 0x1_0000_0000
    case _ => 0x1_0000_0000_0000_0000
  }

  /** The range of the integers of a type, or of a bit depth read as such a type. */
  function Min(width: nat, signed: bool): int {
    if signed then 0 - Values(width) / 2 else 0
  }

  function Max(width: nat, signed: bool): int {
    if signed then Values(width) / 2 - 1 else Values(width) - 1
  }

  predicate InRange(ty: SampleType, v: int) {
    Min(ty.width, ty.signed) <= v <= Max(ty.width, ty.signed)
  }

  /** Conversion to an integer type: modulo 2^width, into its range. */
  function Cast(width: nat, signed: bool, v: int): int {
    var r := v % Values(width);
    if signed && 2 * r >= Values(width) then r - Values(width) else r
  }

  lemma CastInRange(width: nat, signed: bool, v: int)
    requires Min(width, signed) <= v <= Max(width, signed)
    ensures Cast(width, signed, v) == v
  {
  }

  function Clamp(v: int, lo: int, hi: int): int {
    var v1 := if hi < v then hi else v;
    if v1 < lo then lo else v1
  }

  /** `clamp`, whose bounds are converted to the sample type first. */
  function ClampT(ty: SampleType, v: int, lo: int, hi: int): int {
    Clamp(v, Cast(ty.width, ty.signed, lo), Cast(ty.width, ty.signed, hi))
  }

  // ---- from samples -------------------------------------------------------------

  function ToUnsignedByte(ty: SampleType, v: int): int {
    Cast(8, false, if ty.signed then ClampT(ty, v, -128, 127) + 128 else ClampT(ty, v, 0, 255))
  }

  function ToSignedByte(ty: SampleType, v: int): int {
    Cast(8, true, if ty.signed then ClampT(ty, v, -128, 127) else ClampT(ty, v, 0, 255) - 128)
  }

  function To16(ty: SampleType, v: int): int {
    Cast(16, true, if ty.signed then ClampT(ty, v, -32768, 32767) else ClampT(ty, v, 0, 65535) - 32768)
  }

  function To24(ty: SampleType, v: int): int {
    Cast(32, true, if ty.signed then ClampT(ty, v, -8388608, 8388607) else ClampT(ty, v, 0, 16777215) - 8388608)
  }

  function To32(ty: SampleType, v: int): int {
    Cast(32, true,
         if ty.signed then ClampT(ty, v, -2147483648, 2147483647) else ClampT(ty, v, 0, 4294967295) - 2147483648)
  }

  // ---- to samples ---------------------------------------------------------------

  function FromUnsignedByte(ty: SampleType, s: int): int {
    Cast(ty.width, ty.signed, if ty.signed then s - 128 else s)
  }

  function FromSignedByte(ty: SampleType, s: int): int {
    Cast(ty.width, ty.signed, if ty.signed then s else Cast(8, false, s + 128))
  }

  function From16(ty: SampleType, s: int): int {
    Cast(ty.width, ty.signed, if ty.signed then s else Cast(16, false, s + 32768))
  }

  function From24(ty: SampleType, s: int): int {
    if ty.signed then ClampT(ty, Cast(ty.width, ty.signed, s), -8388608, 8388607)
    else ClampT(ty, Cast(ty.width, ty.signed, s + 8388608), 0, 16777215)
  }

  function From32(ty: SampleType, s: int): int {
    if ty.signed then Cast(ty.width, ty.signed, s)
    else ClampT(ty, Cast(ty.width, ty.signed, s + 2147483648), 0, 4294967295)
  }

  // ---- in a file ------------------------------------------------------------------

  /** WAV files are little-endian and store 8-bit samples unsigned, AIFF files are big-endian and store
      them signed. */
  datatype Format = Wave | Aiff
  {
    function Order(): Endian { if Wave? then Little else Big }
  }

  function Encode(ty: SampleType, fmt: Format, depth: nat, v: int): (b: seq<byte>)
    requires IsBitDepth(depth)
    ensures |b| == depth / 8
  {
    match depth
    case 8 => Store(if fmt == Wave then ToUnsignedByte(ty, v) else ToSignedByte(ty, v), 1, fmt.Order())
    case 16 => Store(To16(ty, v), 2, fmt.Order())
    case 24 => Store(To24(ty, v), 3, fmt.Order())
    case 32 => Store(To32(ty, v), 4, fmt.Order())
  }

  function Decode(ty: SampleType, fmt: Format, depth: nat, b: seq<byte>): int
    requires IsBitDepth(depth) && |b| == depth / 8
  {
    match depth
    case 8 =>
      if fmt == Wave then FromUnsignedByte(ty, Load(b, Little)) else FromSignedByte(ty, Signed(Load(b, Big), 1))
    case 16 => From16(ty, Signed(Load(b, fmt.Order()), 2))
    case 24 => From24(ty, Signed(Load(b, fmt.Order()), 3))
    case 32 => From32(ty, Signed(Load(b, fmt.Order()), 4))
  }

  /** A sample clamped into the range of a bit depth. */
  function ClampToDepth(ty: SampleType, depth: nat, v: int): int {
    Clamp(v, Min(depth, ty.signed), Max(depth, ty.signed))
  }

  lemma ClampTIsClamp(ty: SampleType, v: int, lo: int, hi: int)
    requires InRange(ty, lo) && InRange(ty, hi)
    ensures ClampT(ty, v, lo, hi) == Clamp(v, lo, hi)
  {
    CastInRange(ty.width, ty.signed, lo);
    CastInRange(ty.width, ty.signed, hi);
  }

  /** What the file stores for a sample already clamped: two's complement round zero. */
  function Stored(ty: SampleType, depth: nat, c: int): int {
    if ty.signed then c else c - Values(depth) / 2
  }

  lemma Stores(ty: SampleType, depth: nat, v: int)
    requires IsSampleType(ty) && IsBitDepth(depth) && depth <= ty.width
    ensures var c := ClampToDepth(ty, depth, v);
            && (depth == 8 ==> ToUnsignedByte(ty, v) == Stored(ty, depth, c) + 128
                               && ToSignedByte(ty, v) == Stored(ty, depth, c))
            && (depth == 16 ==> To16(ty, v) == Stored(ty, depth, c))
            && (depth == 24 ==> To24(ty, v) == Stored(ty, depth, c))
            && (depth == 32 ==> To32(ty, v) == Stored(ty, depth, c))
  {
    hide Cast, ClampT;
    var c := ClampToDepth(ty, depth, v);
    assert Min(depth, ty.signed) <= c <= Max(depth, ty.signed);
    ClampTIsClamp(ty, v, Min(depth, ty.signed), Max(depth, ty.signed));
    CastInRange(if depth == 24 then 32 else depth, true, Stored(ty, depth, c));
    if depth == 8 {
      CastInRange(8, false, Stored(ty, depth, c) + 128);
    }
  }

  lemma Restores(ty: SampleType, depth: nat, c: int)
    requires IsSampleType(ty) && IsBitDepth(depth) && depth <= ty.width
    requires Min(depth, ty.signed) <= c <= Max(depth, ty.signed)
    ensures var s := Stored(ty, depth, c);
            && (depth == 8 ==> FromUnsignedByte(ty, s + 128) == c == FromSignedByte(ty, s))
            && (depth == 16 ==> From16(ty, s) == c)
            && (depth == 24 ==> From24(ty, s) == c)
            && (depth == 32 ==> From32(ty, s) == c)
  {
    hide Cast, ClampT;
    CastInRange(ty.width, ty.signed, c);
    CastInRange(depth, false, Stored(ty, depth, c) + Values(depth) / 2);
    ClampTIsClamp(ty, c, Min(depth, ty.signed), Max(depth, ty.signed));
  }

  /** The two's complement integer a file of a bit depth holds for a sample: an unsigned sample is moved down
      by half the range, and what is out of range goes to the nearer end. */
  function FileValue(ty: SampleType, depth: nat, v: int): int {
    var half := Scale(depth / 8) / 2;
    var x := if ty.signed then v else v - half;
    if x < -half then -half else if x >= half then half - 1 else x
  }

  lemma FileValueIsStored(ty: SampleType, depth: nat, v: int)
    requires IsBitDepth(depth)
    ensures FileValue(ty, depth, v) == Stored(ty, depth, ClampToDepth(ty, depth, v))
  {
    Scales();
    hide Scale;
  }

  /** The bytes of a sample in a file. WAV: the least significant byte first, 8-bit samples moved up by 128.
      AIFF: the most significant byte first. */
  lemma SampleByte(ty: SampleType, fmt: Format, depth: nat, v: int, k: nat)
    requires IsSampleType(ty) && IsBitDepth(depth) && depth <= ty.width && k < depth / 8
    ensures var s := FileValue(ty, depth, v);
            Encode(ty, fmt, depth, v)[k]
              == match fmt
                 case Wave => (if depth == 8 then s + 128 else s) / Scale(k) % 256
                 case Aiff => s / Scale(depth / 8 - 1 - k) % 256
  {
    FileValueIsStored(ty, depth, v);
    Stores(ty, depth, v);
    var s := FileValue(ty, depth, v);
    StoreByte(if depth == 8 && fmt == Wave then s + 128 else s, depth / 8, fmt.Order(), k);
    hide Store, Scale, FileValue, ClampToDepth, Stored, ToUnsignedByte, ToSignedByte, To16, To24, To32;
  }

  /** Stored and read back, a sample is its clamp into the depth's range, when the depth is no wider than
      the sample type. */
  lemma SampleRoundTrip(ty: SampleType, fmt: Format, depth: nat, v: int)
    requires IsSampleType(ty) && IsBitDepth(depth) && depth <= ty.width
    ensures Decode(ty, fmt, depth, Encode(ty, fmt, depth, v)) == ClampToDepth(ty, depth, v)
  {
    hide Scale, Load, Store, Signed, ToUnsignedByte, ToSignedByte, To16, To24, To32;
    hide FromUnsignedByte, FromSignedByte, From16, From24, From32;
    Scales();
    var c := ClampToDepth(ty, depth, v);
    var s := Stored(ty, depth, c);
    Stores(ty, depth, v);
    Restores(ty, depth, c);
    assert 0 - Values(depth) / 2 <= s < Values(depth) / 2;
    hide ClampToDepth, Stored;
    if depth == 8 {
      UnsignedRoundTrip(s + 128, 1, Little);
    }
    SignedRoundTrip(s, depth / 8, fmt.Order());
  }

  /** The integer the bytes of a sample stand for. */
  function ValueIn(fmt: Format, b: seq<byte>): int {
    if fmt == Wave && |b| == 1 then Load(b, Little) - 128 else Signed(Load(b, fmt.Order()), |b|)
  }

  lemma ValueInRange(fmt: Format, b: seq<byte>)
    requires 1 <= |b| <= 4
    ensures var half := Scale(|b|) / 2; -half <= ValueIn(fmt, b) < half
    ensures Store(ValueIn(fmt, b) + (if fmt == Wave && |b| == 1 then 128 else 0), |b|, fmt.Order()) == b
  {
    Scales();
    LoadBound(b, Little);
    StoreLoad(b, Little);
    StoreSigned(b, fmt.Order());
    hide Scale, Load, Store, Signed;
  }

  lemma DecodeIs(ty: SampleType, fmt: Format, depth: nat, b: seq<byte>)
    requires IsSampleType(ty) && IsBitDepth(depth) && depth <= ty.width && |b| == depth / 8
    ensures Decode(ty, fmt, depth, b) == ValueIn(fmt, b) + if ty.signed then 0 else Scale(depth / 8) / 2
  {
    Scales();
    ValueInRange(fmt, b);
    var c := ValueIn(fmt, b) + if ty.signed then 0 else Scale(depth / 8) / 2;
    hide Scale, Load, Store, Signed;
    Restores(ty, depth, c);
    hide FromUnsignedByte, FromSignedByte, From16, From24, From32;
  }

  /** Read and stored back, the bytes of a file are what they were: every bit pattern of a depth no wider than
      the sample type is a sample of its own. */
  lemma SampleBytesSurvive(ty: SampleType, fmt: Format, depth: nat, b: seq<byte>)
    requires IsSampleType(ty) && IsBitDepth(depth) && depth <= ty.width && |b| == depth / 8
    ensures Encode(ty, fmt, depth, Decode(ty, fmt, depth, b)) == b
  {
    hide Scale, Load, Store, Signed, Decode, ValueIn, ToUnsignedByte, ToSignedByte, To16, To24, To32, ClampToDepth;
    ValueInRange(fmt, b);
    DecodeIs(ty, fmt, depth, b);
    var v := Decode(ty, fmt, depth, b);
    Stores(ty, depth, v);
    InDepth(ty, depth, ValueIn(fmt, b));
  }

  lemma InDepth(ty: SampleType, depth: nat, s: int)
    requires IsBitDepth(depth) && var half := Scale(depth / 8) / 2; -half <= s < half
    ensures var v := s + if ty.signed then 0 else Scale(depth / 8) / 2;
            Stored(ty, depth, ClampToDepth(ty, depth, v)) == s
  {
    Scales();
    hide Scale;
  }
}
