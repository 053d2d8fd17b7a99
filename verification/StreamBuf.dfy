/** `asio::basic_streambuf`: one growing array with a get area `[g, ge)` and a put area `[p, pe)`, whose
    bytes between `g` and `p` are the input sequence. Positions are offsets into the array. */
module StreamBuf {
  import opened Options

  const BUFFER_DELTA: nat := 128
  const INT_LIMIT: nat := 0x8000_0000

  /** `static_cast<int>` of a size, as `pbump` and `gbump` need it. */
  function ToInt(n: nat): int {
    var r := n % 0x1_0000_0000;
    if r >= INT_LIMIT then r - 0x1_0000_0000 else r
  }

  /** The cast is exact exactly below 2^31. */
  lemma BumpIsExact(n: nat)
    ensures ToInt(n) == n <==> n < 0x8000_0000
  {
  }

  function Min(a: nat, b: nat): nat {
    if a <= b then a else b
  }

  /** Where the put area ends after room was made for `n` characters behind `size`: where it did, unless that
      leaves too little room even with the contents shifted down. `room` is what was left before. */
  function GrownTo(end: nat, size: nat, n: nat, room: nat): nat {
    if n <= room || size + n <= end then end else size + n
  }

  /** The contents after `reserve` has thrown: the shift has been done but the positions not moved. */
  function AfterThrow(contents: seq<char>, g: nat): (r: seq<char>)
    ensures |r| == |contents|
  {
    seq(|contents|, k requires 0 <= k < |contents| => if g + k < |contents| then contents[g + k] else contents[k])
  }

  /** Every element equals the one `g` places further on, as far as there is one. */
  predicate Periodic(contents: seq<char>, g: nat) {
    forall k :: 0 <= k && g + k < |contents| ==> contents[k] == contents[g + k]
  }

  /** A throw leaves the contents as they were exactly when they repeat with the get position as period. */
  lemma ThrowIsHarmless(contents: seq<char>, g: nat)
    ensures AfterThrow(contents, g) == contents <==> Periodic(contents, g)
  {
    var r := AfterThrow(contents, g);
    if r == contents {
      forall k | 0 <= k && g + k < |contents| ensures contents[k] == contents[g + k] {
        assert r[k] == contents[k];
      }
    } else {
      var k :| 0 <= k < |contents| && r[k] != contents[k];
    }
  }

  /** By position and size alone: a throw leaves all contents of a length as they were exactly when the get
      position is 0, so that there is nothing to shift, or at least that length, so that the shift does not
      reach them. */
  lemma ThrowIsHarmlessForAll(len: nat, g: nat)
    ensures (forall c: seq<char> :: |c| == len ==> AfterThrow(c, g) == c) <==> g == 0 || g >= len
  {
    if g == 0 || g >= len {
      forall c: seq<char> | |c| == len ensures AfterThrow(c, g) == c {
        assert forall k :: 0 <= k < len ==> AfterThrow(c, g)[k] == c[k];
      }
    } else {
      var c := seq(len, k => if k == g then 'b' else 'a');
      assert AfterThrow(c, g)[0] == 'b' && c[0] == 'a';
    }
  }

  lemma MinBound(a: nat, b: nat)
    ensures Min(a, b) <= b
  {
  }

  /** The next `n` characters of the array join the contents. */
  lemma Grown(s: seq<char>, g: nat, p: nat, n: nat, appended: seq<char>, consumed: nat)
    requires g <= p <= p + n <= |s|
    ensures s[g..p + n] == s[g..p] + s[p..p + n]
    ensures consumed <= |appended| ==>
              Rest(appended + s[p..p + n], consumed) == Rest(appended, consumed) + s[p..p + n]
  {
  }

  /** What is left of `s` without its first `n` characters. */
  function Rest(s: seq<char>, n: nat): seq<char>
    requires n <= |s|
  {
    s[n..]
  }

  /** The first `n` characters of the contents go. */
  lemma Shrunk(s: seq<char>, g: nat, p: nat, n: nat, appended: seq<char>, consumed: nat)
    requires g <= g + n <= p <= |s|
    ensures s[g + n..p] == Rest(s[g..p], n)
    ensures consumed <= |appended| && s[g..p] == Rest(appended, consumed) ==>
              consumed + n <= |appended| && s[g + n..p] == Rest(appended, consumed + n)
  {
    assert s[..p][g..][n..] == s[..p][g + n..];
    if consumed <= |appended| {
      assert consumed + n <= |appended| ==> appended[consumed..][n..] == appended[consumed + n..];
    }
  }

  /** The array after the contents were moved to its start. */
  function Shifted(s: seq<char>, g: nat, p: nat): seq<char>
    requires g <= p <= |s|
  {
    s[g..p] + s[p - g..]
  }

  lemma ShiftedSlices(s: seq<char>, g: nat, p: nat)
    requires g <= p <= |s|
    ensures Shifted(s, g, p)[0..p - g] == s[g..p]
    ensures Shifted(s, g, p)[g..p] == AfterThrow(s[g..p], g)
  {
    var (r, c, t) := (Shifted(s, g, p), s[g..p], AfterThrow(s[g..p], g));
    forall k | 0 <= k < p - g ensures r[g..p][k] == t[k] {
      assert r[g..p][k] == r[g + k];
    }
  }

  class BasicStreambuf {
    var buffer: array<char>
    var g: int
    var ge: int
    var p: int
    var pe: nat
    const maxSize: nat

    // everything ever appended, and how much of it was consumed
    ghost var appended: seq<char>
    ghost var consumed: nat

    ghost predicate Valid()
      reads this
    {
      && 0 <= g <= ge <= p <= pe <= maxSize
      && buffer.Length == (if pe == 0 then 1 else pe)
    }

    /** `data()`. */
    ghost function Contents(): (s: seq<char>)
      reads this, buffer
      requires Valid()
      ensures |s| == p - g <= maxSize
    {
      buffer[g..p]
    }

    /** The contents are what was appended less what was consumed, in order. */
    ghost predicate Faithful()
      reads this, buffer
      requires Valid()
    {
      consumed <= |appended| && Contents() == Rest(appended, consumed)
    }

    constructor (maximumSize: nat)
      ensures Valid() && fresh(buffer) && maxSize == maximumSize && Contents() == [] && appended == [] && Faithful()
      ensures g == p == 0 && pe == Min(maximumSize, 128)
    {
      var pend := Min(maximumSize, BUFFER_DELTA);
      maxSize := maximumSize;
      buffer := new char[if pend == 0 then 1 else pend](_ => '\0');
      g, ge, p, pe := 0, 0, 0, pend;
      appended, consumed := [], 0;
    }

    method Size() returns (n: nat)
      requires Valid()
      ensures n == |Contents()| <= maxSize
    {
      n := p - g;
    }

    /** `reserve`: room for `n` more characters, shifting the contents down and growing the array as
        needed. It throws exactly when the contents and `n` together exceed the maximum size. */
    method Reserve(n: nat) returns (ok: bool)
      requires Valid()
      modifies this, buffer
      ensures Valid() && (buffer == old(buffer) || fresh(buffer))
      ensures appended == old(appended) && consumed == old(consumed)
      ensures ok <==> |old(Contents())| + n <= maxSize
      ensures ok ==> Contents() == old(Contents()) && n <= pe - p && g == if n <= old(pe - p) then old(g) else 0
      ensures ok ==> pe == GrownTo(old(pe), |old(Contents())|, n, old(pe - p))
      ensures !ok ==> Contents() == AfterThrow(old(Contents()), old(g)) && g == old(g) && pe == old(pe)
    {
      hide AfterThrow;
      if n <= pe - p {
        return true;
      }
      var pnext := p - g;
      ShiftDown();
      ghost var shifted := buffer[..];
      if n > pe - pnext && !(n <= maxSize && pnext <= maxSize - n) {
        assert buffer[g..p] == shifted[g..p];
        return false;
      }
      Settle(n, pnext);
      return true;
    }

    /** The rest of `reserve` once it cannot throw: grow if needed and set the positions. */
    method Settle(n: nat, pnext: nat)
      requires Valid() && pnext == p - g && pnext + n <= maxSize && n > pe - p
      modifies this
      ensures Valid() && (buffer == old(buffer) || fresh(buffer))
      ensures appended == old(appended) && consumed == old(consumed)
      ensures g == 0 && Contents() == old(buffer[0..pnext]) && n <= pe - p && pe == GrownTo(old(pe), pnext, n, old(pe - p))
    {
      ghost var before := buffer[0..pnext];
      var pend := pe;
      if n > pend - pnext {
        pend := pnext + n;
        Resize(if pend == 0 then 1 else pend);
      }
      assert buffer[0..pnext] == before;
      g, ge, p, pe := 0, pnext, pnext, pend;
    }

    /** `memmove` of the contents to the start of the array, if they are not there already. */
    method ShiftDown()
      requires Valid()
      modifies buffer
      ensures buffer[..] == old(Shifted(buffer[..], g, p))
      ensures buffer[0..p - g] == old(Contents()) && buffer[g..p] == AfterThrow(old(Contents()), g)
    {
      hide AfterThrow;
      ShiftedSlices(buffer[..], g, p);
      if g > 0 {
        forall k | 0 <= k < p - g {
          buffer[k] := buffer[g + k];
        }
      }
      assert buffer[..] == old(Shifted(buffer[..], g, p));
      assert buffer[0..p - g] == buffer[..][0..p - g] && buffer[g..p] == buffer[..][g..p];
    }

    /** `vector::resize` to a larger size. */
    method Resize(length: nat)
      requires length >= buffer.Length
      modifies this`buffer
      ensures fresh(buffer) && buffer.Length == length
      ensures forall k :: 0 <= k < old(buffer.Length) ==> buffer[k] == old(buffer[k])
    {
      var larger := new char[length](_ => '\0');
      forall k | 0 <= k < buffer.Length {
        larger[k] := buffer[k];
      }
      buffer := larger;
    }

    /** `prepare`: the output sequence of `n` characters starts at the returned position. */
    method Prepare(n: nat) returns (at: Option<nat>)
      requires Valid()
      modifies this, buffer
      ensures Valid() && (buffer == old(buffer) || fresh(buffer))
      ensures appended == old(appended) && consumed == old(consumed)
      ensures at.Some? <==> |old(Contents())| + n <= maxSize
      ensures at.Some? ==> at.value == p && p + n <= pe && Contents() == old(Contents())
                           && (old(Faithful()) ==> Faithful()) && g == if n <= old(pe - p) then old(g) else 0
      ensures at.None? ==> Contents() == AfterThrow(old(Contents()), old(g)) && g == old(g)
                           && (Contents() == old(Contents()) <==> old(Periodic(Contents(), g)))
                           && (g == 0 || g >= |Contents()| ==> Contents() == old(Contents()))
    {
      ThrowIsHarmless(Contents(), g);
      ThrowIsHarmlessForAll(|Contents()|, g);
      var ok := Reserve(n);
      return if ok then Some(p) else None;
    }

    /** The caller fills the start of the output sequence. */
    method Fill(chars: seq<char>)
      requires Valid() && |chars| <= pe - p
      modifies buffer
      ensures Valid() && Contents() == old(Contents()) && buffer[p..p + |chars|] == chars
      ensures old(Faithful()) ==> Faithful()
    {
      forall k | 0 <= k < |chars| {
        buffer[p + k] := chars[k];
      }
      assert Contents() == old(Contents());
    }

    /** `commit`: the first `n` characters of the output sequence, or all of it, join the contents. The put
        position moves by that many, and so the contents grow by them, exactly when they are fewer than
        2^31. */
    method Commit(n: nat)
      requires Valid()
      modifies this
      ensures buffer == old(buffer) && pe == old(pe) && g == old(g)
      ensures p == old(p) + Min(n, old(pe - p)) <==> Min(n, old(pe - p)) < 0x8000_0000
      ensures Min(n, old(pe - p)) < 0x8000_0000 ==>
                && Valid() && Contents() == old(Contents()) + old(buffer[p..p + Min(n, pe - p)])
                && (old(Faithful()) ==> Faithful() && consumed == old(consumed)
                                        && appended == old(appended) + old(buffer[p..p + Min(n, pe - p)]))
    {
      hide ToInt, Min, Rest;
      var n1 := Min(n, pe - p);
      MinBound(n, pe - p);
      BumpIsExact(n1);
      ghost var s := buffer[..];
      Grown(s, g, p, n1, appended, consumed);
      appended := appended + buffer[p..p + n1];
      p := p + ToInt(n1);
      ge := p;
      assert buffer[..] == s;
    }

    /** `consume`: the first `n` characters of the contents, or all of them, are gone. The get position moves
        by that many exactly when they are fewer than 2^31. */
    method Consume(n: nat)
      requires Valid()
      modifies this
      ensures buffer == old(buffer) && pe == old(pe) && p == old(p)
      ensures g == old(g) + Min(n, old(p - g)) <==> Min(n, old(p - g)) < 0x8000_0000
      ensures Min(n, old(p - g)) < 0x8000_0000 ==>
                && Valid() && Contents() == Rest(old(Contents()), Min(n, old(p - g)))
                && (old(Faithful()) ==> Faithful() && appended == old(appended)
                                        && consumed == old(consumed) + Min(n, old(p - g)))
    {
      hide ToInt, Rest;
      ghost var s := buffer[..];
      if ge < p {
        ge := p;
      }
      var n1: nat := n;
      if g + n > p {
        n1 := p - g;
      }
      BumpIsExact(n1);
      Shrunk(s, g, p, n1, appended, consumed);
      g := g + ToInt(n1);
      consumed := consumed + n1;
      assert buffer[..] == s;
    }

    /** `overflow`: append one character, making room if there is none. It throws exactly when the
        contents have reached the maximum size, and then leaves them as they are. */
    method Overflow(c: Option<char>) returns (ok: bool)
      requires Valid()
      modifies this, buffer
      ensures Valid() && (buffer == old(buffer) || fresh(buffer))
      ensures ok <==> c == None || |old(Contents())| < maxSize
      ensures g == old(g) || g == 0
      ensures ok && c.Some? ==>
                var size := |old(Contents())|;
                pe == if old(p < pe) then old(pe) else GrownTo(old(pe), size, Min(128, maxSize - size), 0)
      ensures Contents() == if ok && c.Some? then old(Contents()) + [c.value] else old(Contents())
      ensures old(Faithful()) ==> Faithful() && consumed == old(consumed)
                                  && appended == if ok && c.Some? then old(appended) + [c.value] else old(appended)
    {
      if c == None {
        return true;
      }
      if p == pe {
        var bufferSize := p - g;
        if bufferSize < maxSize && maxSize - bufferSize < BUFFER_DELTA {
          ok := Reserve(maxSize - bufferSize);
        } else {
          ok := Reserve(BUFFER_DELTA);
        }
        if !ok {
          ThrowIsHarmlessForAll(|old(Contents())|, 0);
          return false;
        }
      }
      PushOne(c.value);
      return true;
    }

    /** Store a character at the put position and move on. */
    method PushOne(c: char)
      requires Valid() && p < pe
      modifies this, buffer
      ensures Valid() && buffer == old(buffer) && g == old(g) && Contents() == old(Contents()) + [c]
      ensures consumed == old(consumed) && appended == old(appended) + [c]
      ensures old(Faithful()) ==> Faithful()
    {
      hide Rest;
      ghost var s := buffer[..][p := c];
      Grown(s, g, p, 1, appended, consumed);
      buffer[p] := c;
      p := p + 1;
      appended := appended + [c];
      assert buffer[..] == s && s[p - 1..p] == [c];
    }

    /** `underflow`: the first character of the contents, or end of file. */
    method Underflow() returns (c: Option<char>)
      requires Valid()
      modifies this
      ensures Valid() && buffer == old(buffer) && g == old(g) && Contents() == old(Contents())
      ensures c == if Contents() == [] then None else Some(Contents()[0])
      ensures old(Faithful()) ==> Faithful()
    {
      if g < p {
        ge := p;
        return Some(buffer[g]);
      }
      return None;
    }
  }

  lemma ShiftedByOne()
    ensures AfterThrow("abc", 1) == "bcc"
  {
    var r := AfterThrow("abc", 1);
    assert r[0] == 'b' && r[1] == 'c' && r[2] == 'c';
  }

  lemma RestOfFour()
    ensures Rest("xabc", 1) == "abc"
  {
  }

  /** A buffer of at most 4 characters that has taken "xabc" and given up the "x". */
  method TakeFour() returns (b: BasicStreambuf)
    ensures fresh(b) && fresh(b.buffer) && b.Valid() && b.Faithful() && b.maxSize == 4
    ensures b.Contents() == "abc" && b.g == 1
  {
    RestOfFour();
    hide AfterThrow, Periodic, Rest;
    b := new BasicStreambuf(4);
    var at := b.Prepare(4);
    b.Fill("xabc");
    assert b.p == 0 && b.pe == 4 && b.buffer[0..4] == "xabc";
    b.Commit(4);
    assert b.Contents() == [] + "xabc" == "xabc";
    b.Consume(1);
  }

  /** Asked for 5 more characters than it may hold, the buffer throws and is left with "bcc", though "abc" is
      what was appended and not consumed. */
  method ThrowCanCorrupt() returns (b: BasicStreambuf)
    ensures fresh(b) && b.Valid() && b.Contents() == "bcc"
    ensures b.consumed <= |b.appended| && Rest(b.appended, b.consumed) == "abc"
  {
    hide AfterThrow, Periodic, Rest;
    b := TakeFour();
    ShiftedByOne();
    var at := b.Prepare(5);
  }
}
