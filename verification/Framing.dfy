/** Newline framing of the append-only journals. */
module Framing {
  import opened Basics

  /** The file holding exactly these lines. */
  function Frame(lines: seq<Bytes>): Bytes {
    if lines == [] then [] else lines[0] + [NEWLINE] + Frame(lines[1..])
  }

  /** Position of the first newline, or the length when there is none. */
  function NewlineAt(b: Bytes): (n: nat)
    ensures n <= |b|
    ensures NewlineFree(b[..n])
    ensures n < |b| ==> b[n] == NEWLINE
  {
    if b == [] || b[0] == NEWLINE then 0 else 1 + NewlineAt(b[1..])
  }

  /** The terminated lines of a file, and the unterminated bytes behind them. */
  function SplitLines(b: Bytes): (r: (seq<Bytes>, Bytes))
    decreases |b|
  {
    var n := NewlineAt(b);
    if n == |b| then ([], b)
    else
      var (lines, tail) := SplitLines(b[n + 1..]);
      ([b[..n]] + lines, tail)
  }

  function Lines(b: Bytes): seq<Bytes> { SplitLines(b).0 }

  function Tail(b: Bytes): Bytes { SplitLines(b).1 }

  ghost predicate AllNewlineFree(lines: seq<Bytes>) {
    forall i :: 0 <= i < |lines| ==> NewlineFree(lines[i])
  }

  lemma {:induction false} FrameAppend(a: seq<Bytes>, b: seq<Bytes>)
    ensures Frame(a + b) == Frame(a) + Frame(b)
  {
    if a == [] {
      assert a + b == b;
    } else {
      assert (a + b)[1..] == a[1..] + b;
      FrameAppend(a[1..], b);
    }
  }

  lemma FrameNothing()
    ensures Frame([]) == []
  {
  }

  lemma FrameCons(line: Bytes, lines: seq<Bytes>)
    ensures Frame([line] + lines) == line + [NEWLINE] + Frame(lines)
  {
    assert ([line] + lines)[1..] == lines;
  }

  lemma SplitAround(b: Bytes, n: nat)
    requires n < |b| && b[n] == NEWLINE
    ensures b == b[..n] + [NEWLINE] + b[n + 1..]
  {
  }

  lemma SplitUncons(b: Bytes)
    ensures NewlineAt(b) == |b| ==> SplitLines(b) == ([], b)
    ensures var n := NewlineAt(b);
            n < |b| ==> SplitLines(b) == ([b[..n]] + SplitLines(b[n + 1..]).0, SplitLines(b[n + 1..]).1)
  {
    hide NewlineAt, NewlineFree;
  }

  lemma AllNewlineFreeNone()
    ensures AllNewlineFree([])
  {
  }

  lemma AllNewlineFreeCons(line: Bytes, lines: seq<Bytes>)
    requires NewlineFree(line) && AllNewlineFree(lines)
    ensures AllNewlineFree([line] + lines)
  {
  }

  lemma {:induction false} SplitIsFrame(b: Bytes)
    ensures Frame(Lines(b)) + Tail(b) == b
    ensures AllNewlineFree(Lines(b)) && NewlineFree(Tail(b))
    decreases |b|
  {
    hide *;
    SplitUncons(b);
    var n := NewlineAt(b);
    if n == |b| {
      assert b[..n] == b;
      SplitParts(b);
      FrameNothing();
    } else {
      var rest := b[n + 1..];
      SplitAround(b, n);
      SplitIsFrame(rest);
      SplitParts(b);
      SplitParts(rest);
      FrameCons(b[..n], Lines(rest));
      AllNewlineFreeCons(b[..n], Lines(rest));
      var head := b[..n] + [NEWLINE];
      assert head + Frame(Lines(rest)) + Tail(rest) == head + (Frame(Lines(rest)) + Tail(rest));
    }
  }

  lemma SplitParts(b: Bytes)
    ensures SplitLines(b) == (Lines(b), Tail(b))
    ensures Lines(b) == [] ==> AllNewlineFree(Lines(b))
  {
    hide SplitLines;
  }

  lemma {:induction false} NewlineAtLine(line: Bytes, rest: Bytes)
    requires NewlineFree(line)
    ensures NewlineAt(line + [NEWLINE] + rest) == |line|
  {
    var b := line + [NEWLINE] + rest;
    if line != [] {
      assert b[0] == line[0];
      assert b[1..] == line[1..] + [NEWLINE] + rest;
      NewlineAtLine(line[1..], rest);
    }
  }

  lemma {:induction false} NewlineAtNone(b: Bytes)
    requires NewlineFree(b)
    ensures NewlineAt(b) == |b|
  {
    if b != [] {
      NewlineAtNone(b[1..]);
    }
  }

  /** Framing is injective: the file determines its lines and its unterminated tail. */
  lemma {:induction false} SplitFrame(lines: seq<Bytes>, tail: Bytes)
    requires AllNewlineFree(lines) && NewlineFree(tail)
    ensures SplitLines(Frame(lines) + tail) == (lines, tail)
  {
    var b := Frame(lines) + tail;
    if lines == [] {
      assert b == tail;
      NewlineAtNone(tail);
    } else {
      var rest := Frame(lines[1..]) + tail;
      assert b == lines[0] + [NEWLINE] + rest;
      NewlineAtLine(lines[0], rest);
      assert b[|lines[0]| + 1..] == rest;
      assert b[..|lines[0]|] == lines[0];
      SplitFrame(lines[1..], tail);
      assert [lines[0]] + lines[1..] == lines;
    }
  }

  lemma {:induction false} SplitAfterFrame(lines: seq<Bytes>, rest: Bytes)
    requires AllNewlineFree(lines)
    ensures Lines(Frame(lines) + rest) == lines + Lines(rest) && Tail(Frame(lines) + rest) == Tail(rest)
  {
    SplitIsFrame(rest);
    FrameAppend(lines, Lines(rest));
    assert Frame(lines) + rest == Frame(lines + Lines(rest)) + Tail(rest);
    SplitFrame(lines + Lines(rest), Tail(rest));
  }

  /** The kept length of a repaired file. */
  function TailStart(b: Bytes): (n: nat)
    ensures n <= |b|
  {
    SplitIsFrame(b);
    |b| - |Tail(b)|
  }

  lemma TailStartCuts(b: Bytes)
    ensures b[..TailStart(b)] == Frame(Lines(b))
    ensures b[TailStart(b)..] == Tail(b)
  {
    SplitIsFrame(b);
    var head := Frame(Lines(b));
    assert (head + Tail(b))[..|head|] == head;
  }

  lemma {:induction false} FrameEndsInNewline(lines: seq<Bytes>)
    ensures var f := Frame(lines); f == [] || f[|f| - 1] == NEWLINE
  {
    if lines != [] {
      FrameEndsInNewline(lines[1..]);
    }
  }

  /** The kept prefix is the longest one that is empty or ends in a newline. */
  lemma TailStartIsLongest(b: Bytes, n: nat)
    requires n <= |b|
    ensures n == TailStart(b) <==> (n == 0 || b[n - 1] == NEWLINE) && NewlineFree(b[n..])
  {
    SplitIsFrame(b);
    TailStartCuts(b);
    var kept := TailStart(b);
    FrameEndsInNewline(Lines(b));
    assert kept == 0 || b[..kept][kept - 1] == NEWLINE;
    if n < kept {
      assert b[n..][kept - 1 - n] == NEWLINE;
    } else if kept < n {
      assert b[kept..][n - 1 - kept] == b[n - 1];
    }
  }

  /** A write of lines that is cut at any byte leaves some of the lines and an unterminated rest. */
  lemma {:induction false} CutFrame(lines: seq<Bytes>, k: nat) returns (m: nat, rest: Bytes)
    requires AllNewlineFree(lines)
    requires k <= |Frame(lines)|
    ensures m <= |lines|
    ensures Frame(lines)[..k] == Frame(lines[..m]) + rest
    ensures NewlineFree(rest)
    ensures k == |Frame(lines)| ==> m == |lines| && rest == []
  {
    var f := Frame(lines);
    var cut := f[..k];
    if lines == [] {
      m, rest := 0, [];
    } else {
      var first := lines[0] + [NEWLINE];
      if k < |first| {
        m, rest := 0, cut;
        assert cut == lines[0][..k];
      } else {
        m, rest := CutFrame(lines[1..], k - |first|);
        assert cut == first + Frame(lines[1..])[..k - |first|];
        m := m + 1;
        assert lines[..m][1..] == lines[1..][..m - 1];
        assert Frame(lines[..m]) == first + Frame(lines[1..][..m - 1]);
      }
    }
  }

  /** What a kill during an append leaves: the kept lines, a prefix of the new ones, a torn rest. */
  lemma AppendCut(kept: seq<Bytes>, added: seq<Bytes>, k: nat) returns (m: nat)
    requires AllNewlineFree(kept) && AllNewlineFree(added)
    requires k <= |Frame(added)|
    ensures m <= |added|
    ensures Lines(Frame(kept) + Frame(added)[..k]) == kept + added[..m]
    ensures k == |Frame(added)| ==> m == |added| && Tail(Frame(kept) + Frame(added)[..k]) == []
  {
    var rest;
    m, rest := CutFrame(added, k);
    FrameAppend(kept, added[..m]);
    assert Frame(kept) + Frame(added)[..k] == Frame(kept + added[..m]) + rest;
    SplitFrame(kept + added[..m], rest);
  }

  lemma SplitExact(lines: seq<Bytes>)
    requires AllNewlineFree(lines)
    ensures Lines(Frame(lines)) == lines && Tail(Frame(lines)) == []
  {
    assert Frame(lines) + [] == Frame(lines);
    SplitFrame(lines, []);
  }

  // ---------- Byte offsets of lines ----------

  /** The number of leading lines that end exactly at a byte offset, if any do. */
  function Boundary(lines: seq<Bytes>, offset: nat): (k: Option<nat>)
    ensures k.Some? ==> k.value <= |lines|
  {
    if offset == 0 then Some(0)
    else if lines == [] || offset < |lines[0]| + 1 then None
    else match Boundary(lines[1..], offset - |lines[0]| - 1)
      case None => None
      case Some(k) => Some(k + 1)
  }

  lemma {:induction false} BoundaryOfPrefix(lines: seq<Bytes>, k: nat)
    requires k <= |lines|
    ensures Boundary(lines, |Frame(lines[..k])|) == Some(k)
  {
    if k > 0 {
      assert lines[..k][1..] == lines[1..][..k - 1];
      BoundaryOfPrefix(lines[1..], k - 1);
    }
  }

  /** An offset is a boundary exactly when some prefix of the lines has that many bytes. */
  lemma {:induction false} BoundaryIsPrefix(lines: seq<Bytes>, offset: nat)
    ensures Boundary(lines, offset).Some? ==> |Frame(lines[..Boundary(lines, offset).value])| == offset
    ensures forall k :: 0 <= k <= |lines| && |Frame(lines[..k])| == offset ==> Boundary(lines, offset) == Some(k)
  {
    forall k | 0 <= k <= |lines| && |Frame(lines[..k])| == offset ensures Boundary(lines, offset) == Some(k) {
      BoundaryOfPrefix(lines, k);
    }
    if Boundary(lines, offset).Some? && offset != 0 {
      var k := Boundary(lines, offset).value;
      BoundaryIsPrefix(lines[1..], offset - |lines[0]| - 1);
      assert lines[..k][1..] == lines[1..][..k - 1];
    }
  }
}
