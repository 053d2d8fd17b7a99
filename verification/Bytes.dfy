/** Integers as bytes in either byte order, two's complement. */
module Bytes {
  import opened Bits

  type byte = x: int | 0 <= x < 256

  datatype Endian = Little | Big

  /** 256 to the power `n`: the number of values of `n` bytes. */
  function Scale(n: nat): (r: nat)
    ensures r >= 1
  {
    if n == 0 then 1 else 256 * Scale(n - 1)
  }

  lemma Scales()
    ensures Scale(1) == 0x100 && Scale(2) == 0x1_0000 && Scale(3) == 0x100_0000 && Scale(4) == 0x1_0000_0000
  {
    assert Scale(1) == 256 * Scale(0);
    assert Scale(2) == 256 * Scale(1);
    assert Scale(3) == 256 * Scale(2);
    assert Scale(4) == 256 * Scale(3);
  }

  /** The low `n` bytes of `i`, each cut out by an arithmetic shift and the mask 0xFF. */
  function Store(i: int, n: nat, e: Endian): (b: seq<byte>)
    ensures |b| == n
    decreases n
  {
    if n == 0 then []
    else if e == Little then [i % 256] + Store(i / 256, n - 1, e)
    else Store(i / 256, n - 1, e) + [i % 256]
  }

  /** The bytes put together by shifts and ors, as an unsigned number. */
  function Load(b: seq<byte>, e: Endian): nat {
    if b == [] then 0
    else if e == Little then b[0] + 256 * Load(b[1..], e)
    else 256 * Load(b[..|b| - 1], e) + b[|b| - 1]
  }

  /** An `n`-byte unsigned number read as two's complement. */
  function Signed(u: nat, n: nat): int {
    if 2 * u >= Scale(n) then u - Scale(n) else u
  }

  function ReadInt(data: seq<byte>, at: nat, n: nat, e: Endian): int
    requires at + n <= |data|
  {
    Signed(Load(data[at..at + n], e), n)
  }

  lemma ModScale(i: int, n: nat)
    requires n > 0
    ensures i % 256 + 256 * ((i / 256) % Scale(n - 1)) == i % Scale(n)
  {
    var m := Scale(n - 1);
    assert Scale(n) == 256 * m;
    hide Scale;
    var q, r := (i / 256) / m, (i / 256) % m;
    assert i / 256 == m * q + r;
    assert i == 256 * (i / 256) + i % 256;
    assert 256 * (m * q) == (256 * m) * q;
    DivModUnique(i, 256 * m, q, 256 * r + i % 256);
  }

  /** Reading back what was written gives the number modulo 256^n. */
  lemma {:induction false} LoadStore(i: int, n: nat, e: Endian)
    ensures Load(Store(i, n, e), e) == i % Scale(n)
    decreases n
  {
    if n > 0 {
      LoadStore(i / 256, n - 1, e);
      ModScale(i, n);
      var b := Store(i, n, e);
      if e == Little {
        assert b[1..] == Store(i / 256, n - 1, e);
      } else {
        assert b[..|b| - 1] == Store(i / 256, n - 1, e);
      }
      hide Scale;
    } else {
      assert i % 1 == 0;
    }
  }

  lemma DivDiv(v: int, m: nat)
    requires m >= 1
    ensures v / 256 / m == v / (256 * m)
  {
    var q, r := v / 256 / m, v / 256 % m;
    assert v / 256 == m * q + r && v == 256 * (v / 256) + v % 256;
    assert 256 * (m * q) == (256 * m) * q;
    DivModUnique(v, 256 * m, q, 256 * r + v % 256);
  }

  /** Byte `k` of a number of `n` bytes: its digit to the base 256 with weight 256^k in a little-endian number
      and 256^(n-1-k) in a big-endian one. */
  lemma {:induction false} StoreByte(v: int, n: nat, e: Endian, k: nat)
    requires k < n
    ensures Store(v, n, e)[k] == v / Scale(if e == Little then k else n - 1 - k) % 256
    decreases n
  {
    var weight := if e == Little then k else n - 1 - k;
    if weight > 0 {
      StoreByte(v / 256, n - 1, e, if e == Little then k - 1 else k);
      DivDiv(v, Scale(weight - 1));
      assert Scale(weight) == 256 * Scale(weight - 1);
    }
  }

  // ---- parts of a file ------------------------------------------------------------

  /** The bytes hold the part at the given place. */
  predicate Stands(bytes: seq<byte>, at: nat, part: seq<byte>) {
    at + |part| <= |bytes| && bytes[at..at + |part|] == part
  }

  lemma StandsInFirst(a: seq<byte>, b: seq<byte>, at: nat, part: seq<byte>)
    requires Stands(a, at, part)
    ensures Stands(a + b, at, part)
  {
    assert (a + b)[at..at + |part|] == a[at..at + |part|];
  }

  lemma StandsInSecond(a: seq<byte>, b: seq<byte>, at: nat, lo: nat, part: seq<byte>)
    requires at == |a| + lo && Stands(b, lo, part)
    ensures Stands(a + b, at, part)
  {
    assert (a + b)[at..at + |part|] == b[lo..lo + |part|];
  }

  lemma StandsAtStart(a: seq<byte>, b: seq<byte>)
    ensures Stands(a + b, 0, a)
  {
  }

  lemma StandsAtEnd(a: seq<byte>, b: seq<byte>)
    ensures Stands(a + b, |a|, b)
  {
  }

  /** A part of a part. */
  lemma StandsWithin(bytes: seq<byte>, at: nat, whole: seq<byte>, lo: nat, part: seq<byte>)
    requires Stands(bytes, at, whole) && Stands(whole, lo, part)
    ensures Stands(bytes, at + lo, part)
  {
    var (inner, outer) := (whole[lo..lo + |part|], bytes[at + lo..at + lo + |part|]);
    assert forall k :: 0 <= k < |part| ==> inner[k] == whole[lo + k] == bytes[at..at + |whole|][lo + k] == outer[k];
  }

  lemma ThreeParts(a: seq<byte>, b: seq<byte>, c: seq<byte>)
    ensures Stands(a + b + c, 0, a) && Stands(a + b + c, |a|, b) && Stands(a + b + c, |a| + |b|, c)
  {
    assert (a + b + c)[|a|..|a| + |b|] == b;
    StandsAtEnd(a + b, c);
  }

  /** The number `v` stands in `n` bytes from `at` on, the least significant byte first. */
  ghost predicate LittleEndian(data: seq<byte>, at: nat, n: nat, v: int) {
    at + n <= |data|
    && var field := data[at..at + n];
       forall k :: 0 <= k < n ==> field[k] == v / Scale(k) % 256
  }

  /** The same, the most significant byte first. */
  ghost predicate BigEndian(data: seq<byte>, at: nat, n: nat, v: int) {
    at + n <= |data|
    && var field := data[at..at + n];
       forall k :: 0 <= k < n ==> field[k] == v / Scale(n - 1 - k) % 256
  }

  lemma Written(data: seq<byte>, at: nat, n: nat, v: int, e: Endian)
    requires Stands(data, at, Store(v, n, e))
    ensures e == Little ==> LittleEndian(data, at, n, v)
    ensures e == Big ==> BigEndian(data, at, n, v)
  {
    hide Store, Scale;
    var field := data[at..at + n];
    forall k | 0 <= k < n ensures field[k] == v / Scale(if e == Little then k else n - 1 - k) % 256 {
      StoreByte(v, n, e, k);
    }
  }

  lemma FieldWritten(data: seq<byte>, at: nat, body: seq<byte>, lo: nat, n: nat, v: int, e: Endian)
    requires Stands(data, at, body) && Stands(body, lo, Store(v, n, e))
    ensures e == Little ==> LittleEndian(data, at + lo, n, v)
    ensures e == Big ==> BigEndian(data, at + lo, n, v)
  {
    hide Store, LittleEndian, BigEndian, Stands;
    StandsWithin(data, at, body, lo, Store(v, n, e));
    Written(data, at + lo, n, v, e);
  }

  /** Every `n`-byte two's complement integer survives being written and read. */
  lemma SignedRoundTrip(i: int, n: nat, e: Endian)
    requires 0 <= 2 * i + Scale(n) && 2 * i < Scale(n)
    ensures Signed(Load(Store(i, n, e), e), n) == i
  {
    LoadStore(i, n, e);
    var m := Scale(n);
    hide Scale, Load, Store;
    if i < 0 {
      DivModUnique(i, m, -1, i + m);
    } else {
      DivModUnique(i, m, 0, i);
    }
  }

  /** An `n`-byte unsigned integer survives too. */
  lemma UnsignedRoundTrip(i: nat, n: nat, e: Endian)
    requires i < Scale(n)
    ensures Load(Store(i, n, e), e) == i
  {
    LoadStore(i, n, e);
    hide Scale, Load, Store;
    DivModUnique(i, Scale(n), 0, i);
  }

  lemma {:induction false} LoadBound(b: seq<byte>, e: Endian)
    ensures Load(b, e) < Scale(|b|)
  {
    if b != [] {
      LoadBound(b[1..], e);
      LoadBound(b[..|b| - 1], e);
    }
  }

  /** Reading a number where it stands. */
  lemma Reads(data: seq<byte>, at: nat, n: nat, v: nat, e: Endian)
    requires v < Scale(n) && (if e == Little then LittleEndian(data, at, n, v) else BigEndian(data, at, n, v))
    ensures Load(data[at..at + n], e) == v && (2 * v < Scale(n) ==> ReadInt(data, at, n, e) == v)
  {
    hide Store, Scale, Load;
    var field := data[at..at + n];
    forall k | 0 <= k < n ensures field[k] == Store(v, n, e)[k] {
      StoreByte(v, n, e, k);
    }
    assert field == Store(v, n, e);
    UnsignedRoundTrip(v, n, e);
  }

  /** `Store` is the only way to write a number in a given number of bytes. */
  lemma {:induction false} StoreLoad(b: seq<byte>, e: Endian)
    ensures Store(Load(b, e), |b|, e) == b
  {
    if b != [] {
      if e == Little {
        StoreLoad(b[1..], e);
        assert b == [b[0]] + b[1..];
        DivModUnique(Load(b, e), 256, Load(b[1..], e), b[0]);
      } else {
        StoreLoad(b[..|b| - 1], e);
        assert b == b[..|b| - 1] + [b[|b| - 1]];
        DivModUnique(Load(b, e), 256, Load(b[..|b| - 1], e), b[|b| - 1]);
      }
    }
  }

  /** The same for two's complement: what is read from bytes is written as those bytes. */
  lemma StoreSigned(b: seq<byte>, e: Endian)
    ensures var s := Signed(Load(b, e), |b|);
            Store(s, |b|, e) == b && 0 <= 2 * s + Scale(|b|) && 2 * s < Scale(|b|)
  {
    LoadBound(b, e);
    StoreLoad(b, e);
    hide Scale, Load, Store;
    var (m, u) := (Scale(|b|), Load(b, e));
    var s := Signed(u, |b|);
    if s < 0 {
      DivModUnique(s, m, -1, u);
    } else {
      DivModUnique(s, m, 0, u);
    }
    LoadStore(s, |b|, e);
    StoreLoad(Store(s, |b|, e), e);
  }

  /** Putting a byte below a shifted value: or is addition. */
  lemma {:induction false} OrIsSum(hi: nat, lo: nat, k: nat)
    requires lo < Pow2(k)
    ensures Or(hi * Pow2(k), lo) == hi * Pow2(k) + lo
    decreases k
  {
    if k > 0 && hi > 0 && lo > 0 {
      var m := Pow2(k - 1);
      assert Pow2(k) == 2 * m && hi * Pow2(k) == 2 * (hi * m);
      OrIsSum(hi, lo / 2, k - 1);
      OrTwice(hi * m, lo);
    }
  }

  lemma OrTwice(x: nat, lo: nat)
    requires x > 0 && lo > 0
    ensures Or(2 * x, lo) == 2 * Or(x, lo / 2) + lo % 2
  {
    assert (2 * x) / 2 == x && (2 * x) % 2 == 0;
  }
}
