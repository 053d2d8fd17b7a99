/** The control connection's line splitter: received chunks are appended to a buffer, and every complete
    line is cut off the front and, unless empty, handed to the parser. */
module Lines {
  const NEWLINE: char := '\n'

  predicate NoNewline(s: string) {
    '\n' !in s
  }

  /** The position of the first newline, or the length if there is none. */
  function FirstNewline(s: string): (p: nat)
    ensures p <= |s| && NoNewline(s[..p]) && (p < |s| ==> s[p] == NEWLINE)
  {
    if s == [] || s[0] == NEWLINE then 0 else 1 + FirstNewline(s[1..])
  }

  /** The non-empty newline-terminated lines of a stream, in order. */
  function LinesOf(s: string): seq<string>
    decreases |s|
  {
    var p := FirstNewline(s);
    if p == |s| then []
    else (if p == 0 then [] else [s[..p]]) + LinesOf(s[p + 1..])
  }

  /** What follows the last newline. */
  function Leftover(s: string): string
    decreases |s|
  {
    var p := FirstNewline(s);
    if p == |s| then s else Leftover(s[p + 1..])
  }

  lemma {:induction false} NewlineIsFirst(a: string, s: string)
    requires NoNewline(a) && s != [] && s[0] == NEWLINE
    ensures FirstNewline(a + s) == |a|
  {
    if a == [] {
      assert a + s == s;
    } else {
      assert a[0] in a;
      assert forall x :: x in a[1..] ==> x in a;
      NewlineIsFirst(a[1..], s);
      assert (a + s)[1..] == a[1..] + s;
    }
  }

  lemma {:induction false} NoneAtAll(s: string)
    requires NoNewline(s)
    ensures FirstNewline(s) == |s|
  {
    if s != [] {
      assert s[0] in s;
      assert forall x :: x in s[1..] ==> x in s;
      NoneAtAll(s[1..]);
    }
  }

  lemma FirstIsSame(a: string, b: string)
    requires FirstNewline(a) < |a|
    ensures FirstNewline(a + b) == FirstNewline(a)
  {
    var p := FirstNewline(a);
    assert a + b == a[..p] + (a[p..] + b);
    NewlineIsFirst(a[..p], a[p..] + b);
  }

  /** Lines can be split off the front of a stream before the rest has arrived: only the leftover has to
      be kept. */
  lemma {:induction false} SplitEarly(a: string, b: string)
    ensures LinesOf(a + b) == LinesOf(a) + LinesOf(Leftover(a) + b)
    ensures Leftover(a + b) == Leftover(Leftover(a) + b)
    decreases |a|
  {
    hide LinesOf, Leftover, FirstNewline;
    var p := FirstNewline(a);
    CutFirst(a);
    if p < |a| {
      FirstIsSame(a, b);
      var rest := a[p + 1..];
      assert (a + b)[p + 1..] == rest + b && (a + b)[..p] == a[..p];
      CutFirst(a + b);
      SplitEarly(rest, b);
    } else {
      assert [] + LinesOf(a + b) == LinesOf(a + b);
    }
  }

  /** The first line cut off, if there is one. */
  lemma CutFirst(s: string)
    ensures var p := FirstNewline(s);
            if p == |s| then LinesOf(s) == [] && Leftover(s) == s
            else LinesOf(s) == (if p == 0 then [] else [s[..p]]) + LinesOf(s[p + 1..])
                 && Leftover(s) == Leftover(s[p + 1..])
  {
  }

  lemma {:induction false} LeftoverIsPlain(s: string)
    ensures NoNewline(Leftover(s)) && |Leftover(s)| <= |s| && s[|s| - |Leftover(s)|..] == Leftover(s)
    ensures Leftover(Leftover(s)) == Leftover(s) && LinesOf(Leftover(s)) == []
    decreases |s|
  {
    hide LinesOf, Leftover, FirstNewline;
    var p := FirstNewline(s);
    CutFirst(s);
    if p < |s| {
      LeftoverIsPlain(s[p + 1..]);
      var l := Leftover(s);
      SuffixOfSuffix(s, p + 1, |s| - p - 1 - |l|);
    } else {
      assert s[..p] == s && s[0..] == s;
    }
  }

  lemma SuffixOfSuffix(s: string, i: nat, j: nat)
    requires i + j <= |s|
    ensures s[i..][j..] == s[i + j..]
  {
  }

  /** `controlServerThread`'s buffer and the lines handed to the parser so far. */
  class LineSplitter {
    var lineBuf: string
    ghost var received: string
    var handled: seq<string>

    ghost predicate Valid()
      reads this
    {
      handled == LinesOf(received) && lineBuf == Leftover(received)
    }

    constructor ()
      ensures Valid() && received == [] && handled == []
    {
      lineBuf, received, handled := [], [], [];
    }

    /** One `recv` and the loop after it: whatever way the stream was cut into chunks, the lines handled
        are those of the whole stream and the buffer is its newline-free end. */
    method Receive(chunk: string)
      requires Valid()
      modifies this
      ensures Valid() && received == old(received) + chunk
      ensures NoNewline(lineBuf) && |lineBuf| <= |received| && received[|received| - |lineBuf|..] == lineBuf
    {
      hide LinesOf, Leftover, FirstNewline;
      SplitEarly(received, chunk);
      received := received + chunk;
      lineBuf := lineBuf + chunk;
      ghost var (all, before) := (lineBuf, handled);
      while true
        invariant received == old(received) + chunk
        invariant before + LinesOf(all) == handled + LinesOf(lineBuf) && Leftover(all) == Leftover(lineBuf)
        decreases |lineBuf|
      {
        var pos := FirstNewline(lineBuf);
        CutFirst(lineBuf);
        if pos == |lineBuf| {
          break;
        }
        var line := lineBuf[..pos];
        ghost var rest := LinesOf(lineBuf[pos + 1..]);
        assert pos != 0 ==> handled + ([line] + rest) == handled + [line] + rest;
        assert pos == 0 ==> [] + rest == rest;
        lineBuf := lineBuf[pos + 1..];
        if line != [] {
          handled := handled + [line];
        }
      }
      LeftoverIsPlain(received);
    }
  }

  /** The lines and the leftover of a stream received in any number of pieces. */
  function Feed(chunks: seq<string>): (seq<string>, string)
  {
    if chunks == [] then ([], [])
    else
      var (lines, buf) := Feed(chunks[..|chunks| - 1]);
      var all := buf + chunks[|chunks| - 1];
      (lines + LinesOf(all), Leftover(all))
  }

  function Flatten(chunks: seq<string>): string {
    if chunks == [] then [] else Flatten(chunks[..|chunks| - 1]) + chunks[|chunks| - 1]
  }

  /** Segmentation independence: the outcome depends only on the bytes, not on how they were cut. */
  lemma {:induction false} SegmentationIndependence(chunks: seq<string>)
    ensures Feed(chunks) == (LinesOf(Flatten(chunks)), Leftover(Flatten(chunks)))
  {
    if chunks != [] {
      var (before, last) := (chunks[..|chunks| - 1], chunks[|chunks| - 1]);
      SegmentationIndependence(before);
      SplitEarly(Flatten(before), last);
    }
  }

  /** `LinesOf` in terms of the stream alone: terminated lines without newlines, joined up, give the
      stream's lines back. */
  lemma {:induction false} LinesOfTerminated(lines: seq<string>, rest: string)
    requires NoNewline(rest) && forall k :: 0 <= k < |lines| ==> NoNewline(lines[k])
    ensures LinesOf(Terminated(lines) + rest) == NonEmpty(lines) && Leftover(Terminated(lines) + rest) == rest
  {
    if lines == [] {
      assert Terminated(lines) + rest == rest;
      NoneAtAll(rest);
    } else {
      var tail := Terminated(lines[1..]) + rest;
      var s := Terminated(lines) + rest;
      assert s == lines[0] + ([NEWLINE] + tail);
      NewlineIsFirst(lines[0], [NEWLINE] + tail);
      assert s[..|lines[0]|] == lines[0] && s[|lines[0]| + 1..] == tail;
      LinesOfTerminated(lines[1..], rest);
    }
  }

  function Terminated(lines: seq<string>): string {
    if lines == [] then [] else lines[0] + ['\n'] + Terminated(lines[1..])
  }

  function NonEmpty(lines: seq<string>): seq<string> {
    if lines == [] then []
    else (if lines[0] == [] then [] else [lines[0]]) + NonEmpty(lines[1..])
  }
}
