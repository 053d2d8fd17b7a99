/** The 80-bit sample-rate field of an AIFF file: a sign bit, 15 bits of exponent and 64 bits of mantissa.
    The exponent the code computes with `log` is a parameter `e`; the rest of its arithmetic is exact on
    32-bit rates and is done here on integers. */
module AiffRate {
  import opened Bits
  import opened Bytes
  import opened Options

  const BIAS: nat := 16383

  /** The rate divided by 2^e and scaled by 2^63. */
  function Mantissa(rate: nat, e: nat): nat
    requires e <= 63
  {
    rate * Pow2(63 - e)
  }

  /** The ten bytes, unless the mantissa overflows 64 bits. */
  function RateBytes(rate: nat, e: nat): (r: Option<seq<byte>>)
    requires e <= 63
    ensures r.Some? ==> |r.value| == 10
  {
    var biased := e + BIAS;
    if Mantissa(rate, e) >= WORD then None
    else Some([biased / 256 % 128, biased % 256] + Store(Mantissa(rate, e), 8, Big))
  }

  /** mantissa / 2^63 * 2^exponent, truncated: the shifts cancel. */
  function Scaled63(mantissa: nat, exponent: nat): nat {
    Quotient(mantissa * Pow2(exponent), Pow2(63))
  }

  function Quotient(n: nat, d: nat): nat
    requires d >= 1
  {
    n / d
  }

  /** The rate read from ten bytes and truncated to 32 bits, or `None` where it does not fit. */
  function ReadRate(b: seq<byte>): Option<nat>
    requires |b| == 10
  {
    var exponent := (b[0] % 128 * 256 + b[1] - BIAS) % 0x1_0000;
    var value := Scaled63(Load(b[2..], Big), exponent);
    if value >= 0x1_0000_0000 || (b[0] >= 128 && value >= 1) then None else Some(value)
  }

  // ---- packing and unpacking ---------------------------------------------------------

  /** `encodeAiffSampleRate` on a non-negative rate. */
  method EncodeRate(rate: nat, e: nat, bytes: array<byte>)
    requires e <= 63 && bytes.Length == 10 && RateBytes(rate, e).Some?
    modifies bytes
    ensures bytes[..] == RateBytes(rate, e).value
  {
    hide Pow2, Store, Scale;
    var biasedExponent := e + BIAS;
    var mantissa := Mantissa(rate, e);
    bytes[0] := biasedExponent / 256 % 128;
    bytes[1] := biasedExponent % 256;
    var i := 0;
    while i < 8
      invariant 0 <= i <= 8 && bytes[0] == biasedExponent / 256 % 128 && bytes[1] == biasedExponent % 256
      invariant forall k :: 0 <= k < i ==> bytes[2 + k] == Store(mantissa, 8, Big)[k]
    {
      StoreByte(mantissa, 8, Big, i);
      bytes[2 + i] := mantissa / Scale(7 - i) % 256;
      i := i + 1;
    }
  }

  lemma {:induction false} LoadMore(b: seq<byte>, n: nat)
    requires n < |b|
    ensures Load(b[..n + 1], Big) == 256 * Load(b[..n], Big) + b[n]
  {
    assert b[..n + 1][..n] == b[..n];
  }

  /** The loop of `decodeAiffSampleRate` that puts the mantissa together. */
  method UnpackMantissa(b: seq<byte>) returns (mantissa: nat)
    requires |b| == 10
    ensures mantissa == Load(b[2..], Big)
  {
    hide Load, Pow2, Or;
    mantissa := 0;
    var i := 2;
    assert Load(b[2..][..0], Big) == 0 by { LoadEmpty(b[2..][..0]); }
    while i < 10
      invariant 2 <= i <= 10 && mantissa == Load(b[2..][..i - 2], Big)
    {
      assert Pow2(8) == 256 by { Pow2Of8(); }
      OrIsSum(mantissa, b[i], 8);
      LoadMore(b[2..], i - 2);
      MantissaFits(b[2..], i - 1);
      mantissa := Or(mantissa * 256 % WORD, b[i]);
      i := i + 1;
    }
    assert b[2..][..8] == b[2..];
  }

  /** `decodeAiffSampleRate` and the conversion of its result to 32 bits. */
  method DecodeRate(b: seq<byte>) returns (rate: Option<nat>)
    requires |b| == 10
    ensures rate == ReadRate(b)
  {
    hide Load, Scaled63;
    var exponent := (b[0] % 128 * 256 + b[1] - BIAS) % 0x1_0000;
    var mantissa := UnpackMantissa(b);
    var value := Scaled63(mantissa, exponent);
    return if value >= 0x1_0000_0000 || (b[0] >= 128 && value >= 1) then None else Some(value);
  }

  lemma LoadEmpty(b: seq<byte>)
    requires b == []
    ensures Load(b, Big) == 0
  {
  }

  lemma Pow2Of8()
    ensures Pow2(8) == 256
  {
  }

  lemma MantissaFits(b: seq<byte>, n: nat)
    requires n <= |b| == 8
    ensures Load(b[..n], Big) < WORD
  {
    LoadBound(b[..n], Big);
    ScaleUpTo8(n);
  }

  lemma ScaleUpTo8(n: nat)
    requires n <= 8
    ensures Scale(n) <= WORD == Scale(8)
  {
    Scales();
    assert Scale(5) == 256 * Scale(4) && Scale(6) == 256 * Scale(5);
    assert Scale(7) == 256 * Scale(6) && Scale(8) == 256 * Scale(7);
  }

  // ---- the round trip --------------------------------------------------------------------

  /** The mantissa fits 64 bits exactly when the exponent is not too small. */
  lemma MantissaFitsExactly(rate: nat, e: nat)
    requires e <= 63
    ensures Mantissa(rate, e) < WORD <==> rate < Pow2(e + 1)
  {
    hide Pow2;
    WordIsPow2();
    Pow2Add(63 - e, e + 1);
    SameOrder(rate, Pow2(e + 1), Pow2(63 - e), WORD);
  }

  lemma SameOrder(a: nat, b: nat, k: nat, product: nat)
    requires k >= 1 && product == k * b
    ensures a * k < product <==> a < b
  {
    assert k * b == b * k;
    if a < b {
      Scaled(a, b, k);
    } else {
      Grows(b, a, k);
    }
  }

  lemma Scaled(a: nat, b: nat, k: nat)
    requires a < b && k >= 1
    ensures a * k < b * k
  {
  }

  lemma Grows(a: nat, b: nat, k: nat)
    requires a <= b
    ensures a * k <= b * k
  {
  }

  /** With whatever exponent the logarithm gave, encoding works out exactly when the rate is below
      2^(e+1), and decoding then gives back every 32-bit rate. */
  lemma RateRoundTrip(rate: nat, e: nat)
    requires rate < 0x1_0000_0000 && e <= 63
    ensures RateBytes(rate, e).Some? <==> rate < Pow2(e + 1)
    ensures rate < Pow2(e + 1) ==> ReadRate(RateBytes(rate, e).value) == Some(rate)
  {
    hide Pow2, Load, Store;
    MantissaFitsExactly(rate, e);
    if rate < Pow2(e + 1) {
      var (m, b) := (Mantissa(rate, e), RateBytes(rate, e).value);
      assert b[2..] == Store(m, 8, Big);
      ScaleUpTo8(8);
      UnsignedRoundTrip(m, 8, Big);
      ExponentReadBack(e);
      ValueReadBack(rate, e);
    }
  }

  lemma ExponentReadBack(e: nat)
    requires e <= 63
    ensures var biased := e + BIAS;
            biased / 256 % 128 < 128 && (biased / 256 % 128 % 128 * 256 + biased % 256 - BIAS) % 0x1_0000 == e
  {
    var biased := e + BIAS;
    assert biased / 256 == 63 || biased / 256 == 64;
  }

  lemma ValueReadBack(rate: nat, e: nat)
    requires e <= 63
    ensures Scaled63(Mantissa(rate, e), e) == rate
  {
    hide Pow2;
    Pow2Add(63 - e, e);
    var n: nat := 63;
    Regroup(rate, Pow2(63 - e), Pow2(e), Pow2(n));
  }

  lemma Regroup(rate: nat, p: nat, q: nat, r: nat)
    requires p * q == r >= 1
    ensures Quotient(rate * p * q, r) == rate
  {
    assert rate * p * q == rate * (p * q) == r * rate;
    DivModUnique(r * rate, r, rate, 0);
  }

  /** The field, byte by byte: a clear sign, the exponent plus 16383, and the rate as a fraction of 2^63 with
      the binary point after its first bit. */
  lemma RateWritten(rate: nat, e: nat)
    requires e <= 63 && RateBytes(rate, e).Some?
    ensures var b := RateBytes(rate, e).value;
            BigEndian(b, 0, 2, 16383 + e) && BigEndian(b, 2, 8, rate * Pow2(63 - e))
  {
    hide Pow2, Store, Load, Stands, LittleEndian, BigEndian;
    var b := RateBytes(rate, e).value;
    StandsAtEnd(b[..2], Store(Mantissa(rate, e), 8, Big));
    assert b == b[..2] + Store(Mantissa(rate, e), 8, Big);
    Written(b, 2, 8, Mantissa(rate, e), Big);
    ExponentWritten(b, e);
  }

  lemma ExponentWritten(b: seq<byte>, e: nat)
    requires |b| >= 2 && e <= 63 && b[0] == (e + BIAS) / 256 % 128 && b[1] == (e + BIAS) % 256
    ensures BigEndian(b, 0, 2, 16383 + e)
  {
    Scales();
    assert (e + BIAS) / 256 == 63 || (e + BIAS) / 256 == 64;
    var field := b[0..2];
    assert field[0] == (16383 + e) / Scale(1) % 256 && field[1] == (16383 + e) / Scale(0) % 256;
  }

  /** What is read is the mantissa's fraction times two to the exponent, rounded down; a negative rate, and one
      of 2^32 or more, fit no 32 bits. */
  lemma RateRead(b: seq<byte>, e: nat, mantissa: nat)
    requires |b| == 10 && (b[0] as int) % 128 * 256 + b[1] == 16383 + e && e < 0x4000 && mantissa == Load(b[2..], Big)
    ensures match ReadRate(b)
            case Some(v) => && v < 0x1_0000_0000 && v * Pow2(63) <= mantissa * Pow2(e) < (v + 1) * Pow2(63)
                            && (b[0] >= 128 ==> v == 0)
            case None => mantissa * Pow2(e) >= Pow2(63) && (b[0] >= 128 || mantissa * Pow2(e) >= 0x1_0000_0000 * Pow2(63))
  {
    hide Pow2, Load;
    var n: nat := 63;
    Quotients(mantissa * Pow2(e), Pow2(n));
    var v := Quotient(mantissa * Pow2(e), Pow2(n));
    if v >= 0x1_0000_0000 {
      Grows(0x1_0000_0000, v, Pow2(n));
    }
    if v >= 1 {
      Grows(1, v, Pow2(n));
    }
  }

  lemma Quotients(n: nat, d: nat)
    requires d >= 1
    ensures Quotient(n, d) * d <= n < (Quotient(n, d) + 1) * d
  {
    var q := n / d;
    assert n == d * q + n % d && (q + 1) * d == d * q + d;
  }

  /** The exact logarithm. */
  function FloorLog2(n: nat): (e: nat)
    requires n >= 1
    ensures Pow2(e) <= n < Pow2(e + 1)
  {
    if n == 1 then 0 else 1 + FloorLog2(n / 2)
  }

  /** With the exact exponent every rate from 1 to 2^32 - 1 survives. */
  lemma RateRoundTripExact(rate: nat)
    requires 1 <= rate < 0x1_0000_0000
    ensures FloorLog2(rate) <= 31 && RateBytes(rate, FloorLog2(rate)).Some?
    ensures ReadRate(RateBytes(rate, FloorLog2(rate)).value) == Some(rate)
  {
    hide Pow2, RateBytes, ReadRate;
    var e := FloorLog2(rate);
    Pow2Of32();
    assert e <= 31 by {
      if e > 32 { Pow2Monotone(32, e); }
    }
    RateRoundTrip(rate, e);
  }

  /** 44100 Hz. */
  lemma RateOf44100()
    ensures FloorLog2(44100) == 15
    ensures var r := RateBytes(44100, 15); r.Some? && r.value == [0x40, 0x0e, 0xac, 0x44, 0, 0, 0, 0, 0, 0]
  {
    hide Store, Pow2, FloorLog2;
    SomePowers();
    LogOf44100();
    var n: nat := 48;
    assert Mantissa(44100, 15) == 44100 * Pow2(n) == 0xac44_0000_0000_0000;
    EightBytes();
    var first: seq<byte> := [0x40, 0x0e];
    assert RateBytes(44100, 15).value == first + [0xac, 0x44, 0, 0, 0, 0, 0, 0];
  }

  lemma LogOf44100()
    ensures FloorLog2(44100) == 15
  {
    hide Pow2, FloorLog2;
    SomePowers();
    var e := FloorLog2(44100);
    if e < 15 {
      Pow2Monotone(e + 1, 15);
    } else if e > 15 {
      Pow2Monotone(16, e);
    }
  }

  lemma SomePowers()
    ensures Pow2(15) == 0x8000 && Pow2(16) == 0x1_0000 && Pow2(48) == 0x1_0000_0000_0000
  {
    Pow2Of8();
    Pow2Add(8, 8);
    assert Pow2(16) == 2 * Pow2(15);
    Pow2Of32();
    hide Pow2;
    Pow2Add(32, 16);
  }

  lemma EightBytes()
    ensures Store(0xac44_0000_0000_0000, 8, Big) == [0xac, 0x44, 0, 0, 0, 0, 0, 0]
  {
    assert Store(0xac, 1, Big) == [0xac];
    assert Store(0xac44, 2, Big) == [0xac, 0x44];
    assert Store(0xac44_00, 3, Big) == [0xac, 0x44, 0];
    assert Store(0xac44_0000, 4, Big) == [0xac, 0x44, 0, 0];
    assert Store(0xac44_0000_00, 5, Big) == [0xac, 0x44, 0, 0, 0];
    assert Store(0xac44_0000_0000, 6, Big) == [0xac, 0x44, 0, 0, 0, 0];
    assert Store(0xac44_0000_0000_00, 7, Big) == [0xac, 0x44, 0, 0, 0, 0, 0];
  }
}
