/**
 * The three loops that read journal files: the backward tail scan that repairs
 * an interrupted append, the loader of outbox.jsonl, and the block-wise scanner
 * of failed.jsonl.
 */
module JournalFiles {
  import opened Basics
  import opened Codec
  import opened Framing

  // ---------- Specifications ----------

  function DecodeAll(lines: seq<Bytes>): (r: Option<seq<Event>>)
    ensures r.Some? ==> |r.value| == |lines|
  {
    if lines == [] then Some([])
    else match (Decode(lines[0]), DecodeAll(lines[1..]))
      case (Some(e), Some(es)) => Some([e] + es)
      case _ => None
  }

  function EncodeAll(events: seq<Event>): (lines: seq<Bytes>)
    ensures |lines| == |events|
    ensures forall i :: 0 <= i < |events| ==> lines[i] == Encode(events[i])
  {
    if events == [] then [] else [Encode(events[0])] + EncodeAll(events[1..])
  }

  /** Loading what was appended returns the same events. */
  lemma {:induction false} EncodeAllRoundTrip(events: seq<Event>)
    ensures DecodeAll(EncodeAll(events)) == Some(events)
    ensures AllNewlineFree(EncodeAll(events))
  {
    if events != [] {
      EventRoundTrip(events[0]);
      EventNewlineFree(events[0]);
      EncodeAllRoundTrip(events[1..]);
      assert [events[0]] + events[1..] == events;
    }
  }

  datatype JournalEntry = JournalEntry(event: Event, start: nat, end: nat, bytes: nat, eventBytes: nat)

  /** The entries of a journal whose first line starts at the given byte. */
  function EntriesFrom(lines: seq<Bytes>, start: nat): (entries: seq<JournalEntry>)
    requires DecodeAll(lines).Some?
    ensures |entries| == |lines|
  {
    if lines == [] then []
    else
      [EntryAt(lines[0], start)] + EntriesFrom(lines[1..], start + |lines[0]| + 1)
  }

  function EntryAt(line: Bytes, start: nat): JournalEntry
    requires Decode(line).Some?
  {
    var event := Decode(line).value;
    JournalEntry(event, start, start + |line| + 1, |line| + 1, |Encode(event)|)
  }

  lemma DecodeAllCons(line: Bytes, lines: seq<Bytes>)
    ensures DecodeAll([line] + lines) ==
            if Decode(line).Some? && DecodeAll(lines).Some? then Some([Decode(line).value] + DecodeAll(lines).value)
            else None
  {
    hide Decode;
    assert ([line] + lines)[1..] == lines;
  }

  lemma DecodeAllUncons(lines: seq<Bytes>)
    ensures lines == [] ==> DecodeAll(lines) == Some([])
    ensures lines != [] && DecodeAll(lines).Some? ==> Decode(lines[0]).Some? && DecodeAll(lines[1..]).Some?
  {
    hide Decode;
  }

  lemma {:induction false} DecodeAllAppend(a: seq<Bytes>, b: seq<Bytes>)
    ensures DecodeAll(a + b) ==
            if DecodeAll(a).Some? && DecodeAll(b).Some? then Some(DecodeAll(a).value + DecodeAll(b).value) else None
  {
    hide *;
    DecodeAllUncons(a);
    if a == [] {
      assert a + b == b;
      assert DecodeAll(b).Some? ==> [] + DecodeAll(b).value == DecodeAll(b).value;
    } else {
      var (line, rest) := (a[0], a[1..]);
      DecodeAllAppend(rest, b);
      DecodeAllCons(line, rest);
      DecodeAllCons(line, rest + b);
      assert a == [line] + rest && a + b == [line] + (rest + b);
      if DecodeAll(a).Some? && DecodeAll(b).Some? {
        assert [Decode(line).value] + (DecodeAll(rest).value + DecodeAll(b).value) ==
               DecodeAll(a).value + DecodeAll(b).value;
      }
    }
  }

  lemma EntriesCons(line: Bytes, lines: seq<Bytes>, start: nat)
    requires Decode(line).Some? && DecodeAll(lines).Some?
    ensures DecodeAll([line] + lines).Some?
    ensures EntriesFrom([line] + lines, start) == [EntryAt(line, start)] + EntriesFrom(lines, start + |line| + 1)
  {
    hide Decode, Encode;
    DecodeAllCons(line, lines);
    assert ([line] + lines)[1..] == lines;
  }

  lemma {:induction false} EntriesAppend(a: seq<Bytes>, b: seq<Bytes>, start: nat)
    requires DecodeAll(a).Some? && DecodeAll(b).Some?
    ensures DecodeAll(a + b).Some?
    ensures EntriesFrom(a + b, start) == EntriesFrom(a, start) + EntriesFrom(b, start + |Frame(a)|)
  {
    hide *;
    DecodeAllUncons(a);
    if a == [] {
      assert a + b == b;
      FrameNothing();
      assert EntriesFrom(a, start) == [];
      assert [] + EntriesFrom(b, start) == EntriesFrom(b, start);
    } else {
      var (line, rest) := (a[0], a[1..]);
      assert a == [line] + rest && a + b == [line] + (rest + b);
      var next := start + |line| + 1;
      EntriesAppend(rest, b, next);
      EntriesCons(line, rest, start);
      EntriesCons(line, rest + b, start);
      FrameCons(line, rest);
      var later := EntriesFrom(b, next + |Frame(rest)|);
      assert [EntryAt(line, start)] + (EntriesFrom(rest, next) + later)
          == ([EntryAt(line, start)] + EntriesFrom(rest, next)) + later;
    }
  }

  /** Every entry spans exactly its line: contiguous byte ranges in file order. */
  lemma {:induction false} EntrySpansLine(lines: seq<Bytes>, start: nat, i: nat)
    requires DecodeAll(lines).Some?
    requires i < |lines|
    ensures var entry := EntriesFrom(lines, start)[i];
            && entry.start == start + |Frame(lines[..i])|
            && entry.end == start + |Frame(lines[..i + 1])|
            && entry.bytes == |lines[i]| + 1
            && entry.event == DecodeAll(lines).value[i]
            && entry.eventBytes == |Encode(entry.event)|
  {
    hide Decode, Encode;
    if i == 0 {
      assert lines[..1][1..] == [];
    } else {
      EntrySpansLine(lines[1..], start + |lines[0]| + 1, i - 1);
      assert lines[..i][1..] == lines[1..][..i - 1];
      assert lines[..i + 1][1..] == lines[1..][..i];
    }
  }

  datatype IdAt = IdAt(id: Bytes, offset: nat)

  datatype ScanEnd = Complete | Malformed | Unterminated

  /** IDs and byte offsets of the records up to the first malformed one, and whether all were sound. */
  function ScanLines(lines: seq<Bytes>, offset: nat): (seq<IdAt>, bool) {
    if lines == [] then ([], true)
    else match DecodeFailed(lines[0])
      case None => ([], false)
      case Some(id) =>
        var (rest, sound) := ScanLines(lines[1..], offset + |lines[0]| + 1);
        ([IdAt(id, offset)] + rest, sound)
  }

  /** The part of a file before an end bound. */
  function Bounded(file: Bytes, end: Option<nat>): Bytes {
    if end.Some? && end.value < |file| then file[..end.value] else file
  }

  lemma BoundedIsPrefix(file: Bytes, end: Option<nat>)
    ensures var limit := if end.Some? && end.value < |file| then end.value else |file|;
            Bounded(file, end) == file[..limit]
  {
  }

  /** The scan of a byte prefix, by splitting it on newlines at once. */
  function ScanOf(prefix: Bytes): (seq<IdAt>, ScanEnd) {
    var (ids, sound) := ScanLines(Lines(prefix), 0);
    (ids, if !sound then Malformed else if Tail(prefix) != [] then Unterminated else Complete)
  }

  lemma ScanLinesCons(line: Bytes, lines: seq<Bytes>, offset: nat)
    requires DecodeFailed(line).Some?
    ensures var (rest, sound) := ScanLines(lines, offset + |line| + 1);
            ScanLines([line] + lines, offset) == ([IdAt(DecodeFailed(line).value, offset)] + rest, sound)
  {
    hide DecodeFailed;
    assert ([line] + lines)[1..] == lines;
  }

  lemma ScanLinesUncons(lines: seq<Bytes>, offset: nat)
    ensures lines == [] ==> ScanLines(lines, offset) == ([], true)
    ensures lines != [] && DecodeFailed(lines[0]).None? ==> ScanLines(lines, offset) == ([], false)
  {
    hide DecodeFailed;
  }

  lemma {:induction false} ScanLinesAppend(a: seq<Bytes>, b: seq<Bytes>, offset: nat)
    requires ScanLines(a, offset).1
    ensures ScanLines(a + b, offset) ==
            (ScanLines(a, offset).0 + ScanLines(b, offset + |Frame(a)|).0, ScanLines(b, offset + |Frame(a)|).1)
  {
    hide *;
    ScanLinesUncons(a, offset);
    if a == [] {
      assert a + b == b;
      FrameNothing();
      assert [] + ScanLines(b, offset).0 == ScanLines(b, offset).0;
    } else {
      var (line, rest) := (a[0], a[1..]);
      var next := offset + |line| + 1;
      assert a == [line] + rest && a + b == [line] + (rest + b);
      ScanLinesCons(line, rest, offset);
      ScanLinesCons(line, rest + b, offset);
      FrameCons(line, rest);
      ScanLinesAppend(rest, b, next);
      var first := [IdAt(DecodeFailed(line).value, offset)];
      var later := ScanLines(b, offset + |Frame(a)|).0;
      assert first + (ScanLines(rest, next).0 + later) == (first + ScanLines(rest, next).0) + later;
    }
  }

  lemma DecodeAllOne(line: Bytes)
    requires Decode(line).Some?
    ensures DecodeAll([line]) == Some([Decode(line).value])
  {
    hide Decode;
    assert [line][1..] == [];
    assert [Decode(line).value] + [] == [Decode(line).value];
  }

  /** A reader has consumed exactly these lines of a file. */
  ghost predicate Consumed(file: Bytes, start: nat, done: seq<Bytes>) {
    start <= |file| && AllNewlineFree(done) && file[..start] == Frame(done)
  }

  lemma ConsumedNothing(file: Bytes)
    ensures Consumed(file, 0, []) && Frame([]) == []
    ensures DecodeAll([]) == Some([]) && EntriesFrom([], 0) == []
    ensures forall offset :: ScanLines([], offset) == ([], true)
  {
  }

  lemma ConsumeLine(file: Bytes, start: nat, done: seq<Bytes>)
    requires Consumed(file, start, done)
    requires NewlineAt(file[start..]) < |file| - start
    ensures var end := start + NewlineAt(file[start..]);
            && Consumed(file, end + 1, done + [file[start..end]])
            && Lines(file) == done + ([file[start..end]] + Lines(file[end + 1..]))
  {
    hide SplitLines, NewlineAt;
    var rest := file[start..];
    var width := NewlineAt(rest);
    var line := file[start..start + width];
    assert line == rest[..width];
    var later := file[start + width + 1..];
    FrameAppend(done, [line]);
    assert Frame([line]) == line + [NEWLINE];
    assert file[..start + width + 1] == file[..start] + (line + [NEWLINE]);
    assert file == Frame(done + [line]) + later;
    SplitAfterFrame(done + [line], later);
    assert done + [line] + Lines(later) == done + ([line] + Lines(later));
  }

  lemma ConsumedAll(file: Bytes, start: nat, done: seq<Bytes>)
    requires Consumed(file, start, done)
    requires NewlineFree(file[start..])
    ensures Lines(file) == done && Tail(file) == file[start..]
    ensures start == |Frame(done)|
  {
    assert file == Frame(done) + file[start..];
    SplitFrame(done, file[start..]);
  }

  lemma ConsumedLength(file: Bytes, start: nat, done: seq<Bytes>)
    requires Consumed(file, start, done)
    ensures start == |Frame(done)|
  {
  }

  lemma NewlineFreeNothing(b: Bytes)
    requires |b| == 0
    ensures NewlineFree(b)
  {
  }

  lemma LoadOneMore(done: seq<Bytes>, line: Bytes)
    requires DecodeAll(done).Some? && Decode(line).Some?
    ensures DecodeAll(done + [line]).Some?
    ensures var start := |Frame(done)|;
            var event := Decode(line).value;
            EntriesFrom(done + [line], 0) == EntriesFrom(done, 0) +
              [JournalEntry(event, start, start + |line| + 1, |line| + 1, |Encode(event)|)]
  {
    hide Decode, Encode;
    DecodeAllOne(line);
    EntriesAppend(done, [line], 0);
    EntriesCons(line, [], |Frame(done)|);
    assert [line] + [] == [line];
  }

  lemma LoadStopsAt(done: seq<Bytes>, line: Bytes, later: seq<Bytes>)
    requires Decode(line).None?
    ensures DecodeAll(done + ([line] + later)).None?
  {
    hide Decode;
    assert DecodeAll([line] + later).None?;
    DecodeAllAppend(done, [line] + later);
  }

  lemma ScanLinesOne(line: Bytes, offset: nat)
    requires DecodeFailed(line).Some?
    ensures ScanLines([line], offset) == ([IdAt(DecodeFailed(line).value, offset)], true)
  {
    hide DecodeFailed;
    var id := DecodeFailed(line).value;
    assert [line][1..] == [];
    assert [IdAt(id, offset)] + [] == [IdAt(id, offset)];
  }

  /** A malformed record stops the scan, whatever follows it. */
  lemma ScanStopsAt(done: seq<Bytes>, line: Bytes, later: seq<Bytes>, offset: nat)
    requires ScanLines(done, offset).1 && DecodeFailed(line).None?
    ensures ScanLines(done + ([line] + later), offset) == (ScanLines(done, offset).0, false)
  {
    hide DecodeFailed;
    ScanLinesAppend(done, [line] + later, offset);
    assert ScanLines(done, offset).0 + [] == ScanLines(done, offset).0;
  }

  lemma {:induction false} ScanUnsoundAppend(a: seq<Bytes>, b: seq<Bytes>, offset: nat)
    requires !ScanLines(a, offset).1
    ensures ScanLines(a + b, offset) == ScanLines(a, offset)
  {
    hide DecodeFailed;
    assert (a + b)[1..] == a[1..] + b;
    if DecodeFailed(a[0]).Some? {
      ScanUnsoundAppend(a[1..], b, offset + |a[0]| + 1);
    }
  }

  /** Bytes behind a malformed record do not change what the scan yields. */
  lemma ScanStaysUnsound(data: Bytes, later: Bytes, offset: nat)
    requires !ScanLines(Lines(data), offset).1
    ensures ScanLines(Lines(data + later), offset) == ScanLines(Lines(data), offset)
  {
    hide DecodeFailed;
    SplitIsFrame(data);
    var rest := Tail(data) + later;
    assert data + later == Frame(Lines(data)) + rest;
    SplitAfterFrame(Lines(data), rest);
    ScanUnsoundAppend(Lines(data), Lines(rest), offset);
  }

  /** A malformed record inside a block ends the scan of the whole prefix. */
  lemma ScanStopsInData(prefix: Bytes, start: nat, position: nat, done: seq<Bytes>)
    requires Consumed(prefix, start, done) && start <= position <= |prefix|
    requires ScanLines(done, 0).1
    requires var data := prefix[start..position]; !ScanLines(Lines(data), start).1
    ensures ScanOf(prefix) ==
            (ScanLines(done, 0).0 + ScanLines(Lines(prefix[start..position]), start).0, Malformed)
  {
    hide ScanLines, SplitLines;
    var data := prefix[start..position];
    var later := prefix[position..];
    assert prefix == Frame(done) + (data + later);
    SplitAfterFrame(done, data + later);
    ScanStaysUnsound(data, later, start);
    ScanLinesAppend(done, Lines(data + later), 0);
  }

  /** A sound block moves the consumed position to the start of its unterminated rest. */
  lemma ScanThroughData(prefix: Bytes, start: nat, position: nat, done: seq<Bytes>, inner: nat)
    requires Consumed(prefix, start, done) && start <= position <= |prefix|
    requires ScanLines(done, 0).1
    requires var data := prefix[start..position];
             inner <= |data| && Consumed(data, inner, Lines(data)) && data[inner..] == Tail(data)
    ensures var data := prefix[start..position];
            && start + inner <= position
            && prefix[start + inner..position] == data[inner..]
            && NewlineFree(data[inner..])
            && Consumed(prefix, start + inner, done + Lines(data))
            && ScanLines(done + Lines(data), 0) ==
                 (ScanLines(done, 0).0 + ScanLines(Lines(data), start).0, ScanLines(Lines(data), start).1)
  {
    hide ScanLines, SplitLines;
    var data := prefix[start..position];
    SplitIsFrame(data);
    FrameAppend(done, Lines(data));
    assert prefix[..start + inner] == prefix[..start] + data[..inner];
    ScanLinesAppend(done, Lines(data), 0);
  }

  lemma ScanOfParts(prefix: Bytes)
    requires ScanLines(Lines(prefix), 0).1
    ensures ScanOf(prefix) == (ScanLines(Lines(prefix), 0).0, if Tail(prefix) != [] then Unterminated else Complete)
  {
    hide ScanLines, SplitLines;
  }

  // ---------- Loops ----------

  /** lastIndexOf(0x0a) on one block. */
  method LastNewline(block: Bytes) returns (found: Option<nat>)
    ensures found.None? ==> NewlineFree(block)
    ensures found.Some? ==>
              found.value < |block| && block[found.value] == NEWLINE && NewlineFree(block[found.value + 1..])
  {
    var i := |block|;
    assert |block[i..]| == 0;
    while i > 0
      invariant 0 <= i <= |block|
      invariant NewlineFree(block[i..])
    {
      i := i - 1;
      if block[i] == NEWLINE {
        return Some(i);
      }
    }
    return None;
  }

  lemma NewlineFreeExtends(file: Bytes, from: nat, to: nat)
    requires from <= to <= |file|
    requires NewlineFree(file[from..to]) && NewlineFree(file[to..])
    ensures NewlineFree(file[from..])
  {
    assert file[from..] == file[from..to] + file[to..];
  }

  /**
   * truncateIncompleteTail: scans backwards block by block for the last newline.
   * The result is the kept length whatever the block size is.
   */
  method RepairedLength(file: Bytes, blockSize: nat) returns (length: nat)
    requires blockSize > 0
    ensures length == TailStart(file)
  {
    hide TailStart;
    var position := |file|;
    length := 0;
    assert |file[position..]| == 0;
    while position > 0
      invariant 0 <= position <= |file|
      invariant length == 0
      invariant NewlineFree(file[position..])
    {
      var count := if blockSize < position then blockSize else position;
      var below := position - count;
      var block := file[below..position];
      var found := LastNewline(block);
      if found.Some? {
        length := below + found.value + 1;
        assert file[length..position] == block[found.value + 1..];
        assert file[length - 1] == block[found.value];
        NewlineFreeExtends(file, length, position);
        TailStartIsLongest(file, length);
        return;
      }
      NewlineFreeExtends(file, below, position);
      position := below;
    }
    assert file[0..] == file[position..];
    TailStartIsLongest(file, 0);
  }

  datatype LoadError = TailNotRepaired | InvalidLine(start: nat)

  /** loadJournal: succeeds exactly on a terminated file of decodable lines, with contiguous offsets. */
  method LoadJournal(file: Bytes) returns (r: Result<seq<JournalEntry>, LoadError>)
    ensures r.Ok? <==> Tail(file) == [] && DecodeAll(Lines(file)).Some?
    ensures r.Ok? ==> r.value == EntriesFrom(Lines(file), 0)
  {
    hide *;
    var entries: seq<JournalEntry> := [];
    var start := 0;
    ghost var done: seq<Bytes> := [];
    ConsumedNothing(file);
    while start < |file|
      invariant start <= |file| && Consumed(file, start, done)
      invariant start == |Frame(done)|
      invariant DecodeAll(done).Some? && entries == EntriesFrom(done, 0)
    {
      var length := NewlineAt(file[start..]);
      if length == |file| - start {
        assert file[start..][..length] == file[start..];
        ConsumedAll(file, start, done);
        return Err(TailNotRepaired);
      }
      var newline := start + length;
      var line := file[start..newline];
      ConsumeLine(file, start, done);
      match Decode(line) {
        case None =>
          LoadStopsAt(done, line, Lines(file[newline + 1..]));
          return Err(InvalidLine(start));
        case Some(event) =>
          var end := newline + 1;
          LoadOneMore(done, line);
          entries := entries + [JournalEntry(event, start, end, end - start, |Encode(event)|)];
          done := done + [line];
          start := end;
          ConsumedLength(file, start, done);
      }
    }
    assert NewlineFree(file[start..]) by { NewlineFreeNothing(file[start..]); }
    ConsumedAll(file, start, done);
    return Ok(entries);
  }

  /** The line loop over one block of data: yields its finished records and keeps the rest. */
  method ScanData(data: Bytes, offset: nat) returns (ids: seq<IdAt>, sound: bool, start: nat)
    ensures (ids, sound) == ScanLines(Lines(data), offset)
    ensures sound ==> start <= |data| && Consumed(data, start, Lines(data)) && data[start..] == Tail(data)
  {
    hide *;
    ids := [];
    start := 0;
    ghost var done: seq<Bytes> := [];
    ConsumedNothing(data);
    while true
      invariant start <= |data| && Consumed(data, start, done)
      invariant start == |Frame(done)|
      invariant ScanLines(done, offset) == (ids, true)
      decreases |data| - start
    {
      var width := NewlineAt(data[start..]);
      if width == |data| - start {
        assert data[start..][..width] == data[start..];
        ConsumedAll(data, start, done);
        return ids, true, start;
      }
      var line := data[start..start + width];
      ConsumeLine(data, start, done);
      match DecodeFailed(line) {
        case None =>
          ScanStopsAt(done, line, Lines(data[start + width + 1..]), offset);
          return ids, false, start;
        case Some(id) =>
          ScanLinesOne(line, offset + start);
          ScanLinesAppend(done, [line], offset);
          ids := ids + [IdAt(id, offset + start)];
          done := done + [line];
          start := start + width + 1;
          ConsumedLength(data, start, done);
      }
    }
  }

  /**
   * failedJournalIds: reads blocks, joins each with the carried partial line and
   * yields every finished record. For every block size and end bound the result
   * is the one of splitting the bounded prefix at once.
   */
  method ScanFailedJournal(file: Bytes, end: Option<nat>, blockSize: nat)
    returns (ids: seq<IdAt>, finish: ScanEnd)
    requires blockSize > 0
    ensures (ids, finish) == ScanOf(Bounded(file, end))
  {
    hide *;
    ghost var limit := if end.Some? && end.value < |file| then end.value else |file|;
    ghost var prefix := Bounded(file, end);
    BoundedIsPrefix(file, end);
    ids := [];
    var position := 0;
    var lineStart := 0;
    var partial: Bytes := [];
    ghost var done: seq<Bytes> := [];
    ConsumedNothing(prefix);
    NewlineFreeNothing(partial);
    while end.None? || position < end.value
      invariant 0 <= lineStart <= position <= limit
      invariant prefix[lineStart..position] == partial && NewlineFree(partial)
      invariant Consumed(prefix, lineStart, done)
      invariant ScanLines(done, 0) == (ids, true)
      decreases |file| - position
    {
      var wanted := if end.Some? && end.value - position < blockSize then end.value - position else blockSize;
      var length := if |file| - position < wanted then |file| - position else wanted;
      if length == 0 {
        break;
      }
      var data := partial + file[position..position + length];
      assert position + length <= limit;
      assert file[..limit][position..position + length] == file[position..position + length];
      position := position + length;
      assert data == prefix[lineStart..position];
      var more, sound, start := ScanData(data, lineStart);
      if !sound {
        ScanStopsInData(prefix, lineStart, position, done);
        return ids + more, Malformed;
      }
      ScanThroughData(prefix, lineStart, position, done, start);
      ids := ids + more;
      done := done + Lines(data);
      lineStart := lineStart + start;
      partial := data[start..];
    }
    assert position == limit == |prefix|;
    assert prefix[lineStart..position] == prefix[lineStart..];
    ConsumedAll(prefix, lineStart, done);
    finish := if partial != [] then Unterminated else Complete;
    ScanOfParts(prefix);
  }
}
