/**
 * The outbox as values: its in-memory fields, the file operations and the next
 * memory of every operation, and how memory, disk and abstract queue agree.
 */
module OutboxModel {
  import opened Basics
  import opened Codec
  import opened Disk
  import opened Framing
  import opened JournalFiles
  import opened Recovery

  const COMPACT_THRESHOLD_BYTES: nat := 4 * 1024 * 1024

  /** One unconfirmed event, its journal line length with newline, and its JSON length. */
  datatype PendingEntry = PendingEntry(event: Event, bytes: nat, eventBytes: nat)

  datatype Memory = Memory(
    pending: seq<PendingEntry>,
    checkpointOffset: nat,
    journalBaseCount: nat,
    confirmedSinceCompaction: nat,
    journalEntryCount: nat)
  {
    function RecordedCount(): nat { journalBaseCount + journalEntryCount }

    function State(): CheckpointState {
      CheckpointState(checkpointOffset, journalBaseCount, confirmedSinceCompaction)
    }
  }

  function EventsOf(pending: seq<PendingEntry>): (events: seq<Event>)
    ensures |events| == |pending|
    ensures forall i :: 0 <= i < |pending| ==> events[i] == pending[i].event
  {
    seq(|pending|, i requires 0 <= i < |pending| => pending[i].event)
  }

  function PendingBytes(pending: seq<PendingEntry>): nat {
    if pending == [] then 0 else pending[0].bytes + PendingBytes(pending[1..])
  }

  /** The pending entries that loading these journal lines yields. */
  function Loaded(lines: seq<Bytes>): (pending: seq<PendingEntry>)
    requires DecodeAll(lines).Some?
    ensures |pending| == |lines|
  {
    if lines == [] then []
    else
      var event := Decode(lines[0]).value;
      [PendingEntry(event, |lines[0]| + 1, |Encode(event)|)] + Loaded(lines[1..])
  }

  /** The pending entries of events as appendMany and compact push them. */
  function Fresh(events: seq<Event>): (pending: seq<PendingEntry>)
    ensures |pending| == |events|
    ensures forall i :: 0 <= i < |events| ==>
              pending[i] == PendingEntry(events[i], |Encode(events[i])| + 1, |Encode(events[i])|)
  {
    seq(|events|, i requires 0 <= i < |events| =>
      PendingEntry(events[i], |Encode(events[i])| + 1, |Encode(events[i])|))
  }

  // ---------- Agreement of memory and disk ----------

  function JournalLines(d: Disk): seq<Bytes> { Lines(Read(d, Journal)) }

  function FailedLines(d: Disk): seq<Bytes> { Lines(Read(d, Failed)) }

  /** The files are those of a running outbox; only the failed journal may have a torn tail, after a write fault. */
  predicate RunningDisk(d: Disk) {
    && Manifest !in d.docs
    && Journal in d.text && Tail(d.text[Journal]) == []
    && DecodeAll(JournalLines(d)).Some?
    && DecodeFailedAll(FailedLines(d)).Some?
  }

  predicate Synced(d: Disk, m: Memory) {
    && RunningDisk(d)
    && Checkpoint in d.docs && d.docs[Checkpoint] == DocOf(m.State())
    && var lines := JournalLines(d);
       && m.confirmedSinceCompaction <= |lines| == m.journalEntryCount
       && m.checkpointOffset == |Frame(lines[..m.confirmedSinceCompaction])|
       && DecodeAll(lines[m.confirmedSinceCompaction..]).Some?
       && m.pending == Loaded(lines[m.confirmedSinceCompaction..])
  }

  function FailedIds(d: Disk): seq<Bytes>
    requires DecodeFailedAll(FailedLines(d)).Some?
  {
    DecodeFailedAll(FailedLines(d)).value
  }

  /** The abstract queue of a running outbox. */
  function QueueOfMemory(d: Disk, m: Memory): Queue
    requires DecodeFailedAll(FailedLines(d)).Some?
  {
    Queue(EventsOf(m.pending), m.RecordedCount(), FailedIds(d))
  }

  // ---------- Facts about loading ----------

  lemma LoadedCons(line: Bytes, lines: seq<Bytes>)
    requires DecodeAll([line] + lines).Some?
    ensures Decode(line).Some? && DecodeAll(lines).Some?
    ensures Loaded([line] + lines) ==
            [PendingEntry(Decode(line).value, |line| + 1, |Encode(Decode(line).value)|)] + Loaded(lines)
  {
    hide Decode, Encode;
    DecodeAllCons(line, lines);
    assert ([line] + lines)[1..] == lines;
  }

  lemma LoadedNothing()
    ensures DecodeAll([]) == Some([]) && Loaded([]) == []
  {
  }

  lemma DecodeAllSlice(lines: seq<Bytes>, k: nat)
    requires DecodeAll(lines).Some? && k <= |lines|
    ensures DecodeAll(lines[..k]) == Some(DecodeAll(lines).value[..k])
    ensures DecodeAll(lines[k..]) == Some(DecodeAll(lines).value[k..])
  {
    hide *;
    assert lines == lines[..k] + lines[k..];
    DecodeAllAppend(lines[..k], lines[k..]);
  }

  lemma {:induction false} LoadedAppend(a: seq<Bytes>, b: seq<Bytes>)
    requires DecodeAll(a).Some? && DecodeAll(b).Some?
    ensures DecodeAll(a + b).Some?
    ensures Loaded(a + b) == Loaded(a) + Loaded(b)
  {
    hide *;
    DecodeAllAppend(a, b);
    if a == [] {
      LoadedNothing();
      assert a + b == b;
      assert [] + Loaded(b) == Loaded(b);
    } else {
      var (line, rest) := (a[0], a[1..]);
      assert a == [line] + rest && a + b == [line] + (rest + b);
      LoadedCons(line, rest);
      LoadedCons(line, rest + b);
      LoadedAppend(rest, b);
      var first := [PendingEntry(Decode(line).value, |line| + 1, |Encode(Decode(line).value)|)];
      assert first + (Loaded(rest) + Loaded(b)) == (first + Loaded(rest)) + Loaded(b);
    }
  }

  lemma EventsOfCons(entry: PendingEntry, pending: seq<PendingEntry>)
    ensures EventsOf([entry] + pending) == [entry.event] + EventsOf(pending)
    ensures EventsOf([]) == []
  {
  }

  lemma {:induction false} LoadedEvents(lines: seq<Bytes>)
    requires DecodeAll(lines).Some?
    ensures EventsOf(Loaded(lines)) == DecodeAll(lines).value
  {
    hide *;
    if lines == [] {
      LoadedNothing();
      EventsOfCons(PendingEntry(Event([], []), 0, 0), []);
    } else {
      var (line, rest) := (lines[0], lines[1..]);
      assert lines == [line] + rest;
      LoadedCons(line, rest);
      DecodeAllCons(line, rest);
      LoadedEvents(rest);
      EventsOfCons(PendingEntry(Decode(line).value, |line| + 1, |Encode(Decode(line).value)|), Loaded(rest));
    }
  }

  lemma {:induction false} LoadedBytes(lines: seq<Bytes>)
    requires DecodeAll(lines).Some?
    ensures PendingBytes(Loaded(lines)) == |Frame(lines)|
  {
    hide Decode, Encode;
    if lines != [] {
      LoadedBytes(lines[1..]);
      assert Loaded(lines)[1..] == Loaded(lines[1..]);
    }
  }

  lemma FreshCons(e: Event, events: seq<Event>)
    ensures Fresh([e] + events) == [PendingEntry(e, |Encode(e)| + 1, |Encode(e)|)] + Fresh(events)
    ensures EncodeAll([e] + events) == [Encode(e)] + EncodeAll(events)
    ensures Fresh([]) == [] && EncodeAll([]) == []
  {
    hide Encode;
    assert ([e] + events)[1..] == events;
  }

  lemma {:induction false} LoadedFresh(events: seq<Event>)
    ensures DecodeAll(EncodeAll(events)) == Some(events)
    ensures Loaded(EncodeAll(events)) == Fresh(events)
  {
    hide *;
    EncodeAllRoundTrip(events);
    if events == [] {
      LoadedNothing();
      assert Fresh(events) == [] && EncodeAll(events) == [];
    } else {
      var (e, rest) := (events[0], events[1..]);
      assert events == [e] + rest;
      LoadedFresh(rest);
      EventRoundTrip(e);
      FreshCons(e, rest);
      LoadedCons(Encode(e), EncodeAll(rest));
    }
  }

  // ---------- Accounting of a running outbox ----------

  /**
   * The checkpoint offset is the bytes of the confirmed lines, the file is those plus
   * the pending bytes, the entry count is confirmed plus pending, and opening the
   * directory would recover exactly this memory's queue.
   */
  lemma SyncedAccounting(d: Disk, m: Memory)
    requires Synced(d, m)
    ensures |Read(d, Journal)| == m.checkpointOffset + PendingBytes(m.pending)
    ensures m.journalEntryCount == m.confirmedSinceCompaction + |m.pending|
    ensures View(d) == Ok(QueueOfMemory(d, m))
  {
    hide Lines, Tail, DecodeAll, DecodeFailedAll, Loaded, Frame, NewlineFree, QueueOf;
    var lines := JournalLines(d);
    var k := m.confirmedSinceCompaction;
    SyncedLines(d, m);
    assert lines == lines[..k] + lines[k..];
    FrameAppend(lines[..k], lines[k..]);
    LoadedBytes(lines[k..]);
    DecodeAllSlice(lines, k);
    LoadedEvents(lines[k..]);
    QueueOfLines(Read(d, Journal), Read(d, Failed), m.State(), lines, k);
  }

  lemma SyncedLines(d: Disk, m: Memory)
    requires Synced(d, m)
    ensures Read(d, Journal) == Frame(JournalLines(d)) && AllNewlineFree(JournalLines(d))
    ensures Manifest !in d.docs && LoadCheckpoint(d) == m.State() && DecodeFailedAll(FailedLines(d)).Some?
    ensures JournalLines(d) == Lines(Read(d, Journal)) && FailedLines(d) == Lines(Read(d, Failed))
    ensures var (lines, k) := (JournalLines(d), m.confirmedSinceCompaction);
            && k <= |lines| == m.journalEntryCount
            && DecodeAll(lines).Some? && DecodeAll(lines[k..]).Some?
            && m.pending == Loaded(lines[k..]) && m.checkpointOffset == |Frame(lines[..k])|
  {
    hide Lines, Tail, DecodeAll, DecodeFailedAll, Loaded, Frame, NewlineFree;
    SplitIsFrame(Read(d, Journal));
    assert Frame(JournalLines(d)) + [] == Frame(JournalLines(d));
  }

  /** The view of a directory with the documents and failed records of a running one. */
  lemma ViewBeside(d: Disk, m: Memory, d': Disk)
    requires Synced(d, m)
    requires d'.docs == d.docs && Read(d', Failed) == Read(d, Failed)
    ensures View(d') == QueueOf(Read(d', Journal), Read(d, Failed), m.State())
  {
    hide QueueOf, Lines, Tail, DecodeAll, DecodeFailedAll, Loaded, Frame;
  }

  lemma MakeSynced(d: Disk, m: Memory, lines: seq<Bytes>)
    requires Manifest !in d.docs && Journal in d.text && DecodeFailedAll(FailedLines(d)).Some?
    requires d.text[Journal] == Frame(lines) && AllNewlineFree(lines) && DecodeAll(lines).Some?
    requires Checkpoint in d.docs && d.docs[Checkpoint] == DocOf(m.State())
    requires m.confirmedSinceCompaction <= |lines| == m.journalEntryCount
    requires m.checkpointOffset == |Frame(lines[..m.confirmedSinceCompaction])|
    requires DecodeAll(lines[m.confirmedSinceCompaction..]).Some?
    requires m.pending == Loaded(lines[m.confirmedSinceCompaction..])
    ensures Synced(d, m) && JournalLines(d) == lines
  {
    hide Lines, Tail, DecodeAll, DecodeFailedAll, Loaded, Frame, NewlineFree;
    SplitExact(lines);
  }

  // ---------- appendMany ----------

  function AppendOps(events: seq<Event>): seq<FileOp> {
    if events == [] then [] else [Append(Journal, Frame(EncodeAll(events)))]
  }

  function AppendMemory(m: Memory, events: seq<Event>): Memory {
    m.(pending := m.pending + Fresh(events), journalEntryCount := m.journalEntryCount + |events|)
  }

  lemma EncodeAllPrefix(events: seq<Event>, n: nat)
    requires n <= |events|
    ensures EncodeAll(events)[..n] == EncodeAll(events[..n])
  {
  }

  lemma AppendDone(d: Disk, m: Memory, events: seq<Event>)
    requires Synced(d, m)
    ensures var d1 := ExecAll(d, AppendOps(events));
            && Synced(d1, AppendMemory(m, events))
            && Read(d1, Failed) == Read(d, Failed)
            && JournalLines(d1) == JournalLines(d) + EncodeAll(events)
  {
    hide Lines, Tail, DecodeAll, DecodeFailedAll, Loaded, EncodeAll, Frame, NewlineFree;
    var added := EncodeAll(events);
    if events == [] {
      assert m.pending + Fresh(events) == m.pending;
      assert AppendMemory(m, events) == m;
      assert JournalLines(d) + added == JournalLines(d);
    } else {
      var lines := JournalLines(d);
      var k := m.confirmedSinceCompaction;
      SyncedLines(d, m);
      LoadedFresh(events);
      EncodeAllRoundTrip(events);
      ExecOne(d, Append(Journal, Frame(added)));
      FrameAppend(lines, added);
      DecodeAllAppend(lines, added);
      assert (lines + added)[..k] == lines[..k] && (lines + added)[k..] == lines[k..] + added;
      LoadedAppend(lines[k..], added);
      MakeSynced(ExecAll(d, AppendOps(events)), AppendMemory(m, events), lines + added);
    }
  }

  /** A kill during appendMany leaves the old queue followed by a prefix of the interrupted call. */
  lemma AppendKilled(d: Disk, m: Memory, events: seq<Event>, d': Disk) returns (n: nat)
    requires Synced(d, m)
    requires KilledDuring(d, AppendOps(events), d')
    ensures n <= |events|
    ensures View(d') == Ok(Queue(EventsOf(m.pending) + events[..n], m.RecordedCount() + n, FailedIds(d)))
  {
    hide Lines, Tail, DecodeAll, DecodeFailedAll, Loaded, EncodeAll, Frame, QueueOf, NewlineFree;
    SyncedAccounting(d, m);
    assert EventsOf(m.pending) + events[..0] == EventsOf(m.pending);
    if d' == d {
      n := 0;
    } else {
      var added := EncodeAll(events);
      EncodeAllRoundTrip(events);
      SyncedLines(d, m);
      var cut := AppendKilledAt(d, Journal, Frame(added), d');
      n := AppendCut(JournalLines(d), added, cut);
      EncodeAllPrefix(events, n);
      AppendedView(d, m, events[..n], d');
    }
  }

  /** A disk whose journal has some more complete lines shows them behind the pending events. */
  lemma AppendedView(d: Disk, m: Memory, more: seq<Event>, d': Disk)
    requires Synced(d, m)
    requires d'.docs == d.docs && Read(d', Failed) == Read(d, Failed)
    requires Lines(Read(d', Journal)) == JournalLines(d) + EncodeAll(more)
    ensures View(d') == Ok(Queue(EventsOf(m.pending) + more, m.RecordedCount() + |more|, FailedIds(d)))
  {
    hide *;
    SyncedLines(d, m);
    StateFields(d, m);
    ViewBeside(d, m, d');
    AppendedQueue(Read(d', Journal), Read(d, Failed), m, JournalLines(d), more);
  }

  /** The lines decode, and the events from line k on are the given ones. */
  predicate DecodesFrom(all: seq<Bytes>, k: nat, pending: seq<Event>) {
    k <= |all| && DecodeAll(all).Some? && DecodeAll(all).value[k..] == pending
  }

  lemma AppendedQueue(journal: Bytes, failed: Bytes, m: Memory, lines: seq<Bytes>, more: seq<Event>)
    requires m.confirmedSinceCompaction <= |lines| == m.journalEntryCount
    requires m.checkpointOffset == |Frame(lines[..m.confirmedSinceCompaction])|
    requires DecodeAll(lines).Some? && DecodeAll(lines[m.confirmedSinceCompaction..]).Some?
    requires m.pending == Loaded(lines[m.confirmedSinceCompaction..])
    requires Lines(journal) == lines + EncodeAll(more) && DecodeFailedAll(Lines(failed)).Some?
    ensures QueueOf(journal, failed, m.State()) ==
            Ok(Queue(EventsOf(m.pending) + more, m.RecordedCount() + |more|, DecodeFailedAll(Lines(failed)).value))
  {
    hide *;
    var (k, all) := (m.confirmedSinceCompaction, lines + EncodeAll(more));
    DecodedBehind(lines, k, more);
    assert |all| == |lines| + |more| && all[..k] == lines[..k];
    StateFields(EMPTY_DISK, m);
    QueueWithPending(journal, failed, m.State(), all, k, EventsOf(m.pending) + more);
  }

  lemma QueueWithPending(journal: Bytes, failed: Bytes, state: CheckpointState, all: seq<Bytes>, k: nat,
      pending: seq<Event>)
    requires Lines(journal) == all && DecodeFailedAll(Lines(failed)).Some?
    requires DecodesFrom(all, k, pending) && k <= |all| && state.offset == |Frame(all[..k])|
    ensures QueueOf(journal, failed, state) ==
            Ok(Queue(pending, state.journalBaseCount + |all|, DecodeFailedAll(Lines(failed)).value))
  {
    hide DecodeAll, Lines, DecodeFailedAll, Frame, QueueOf;
    QueueOfLines(journal, failed, state, all, k);
  }

  lemma DecodedBehind(lines: seq<Bytes>, k: nat, more: seq<Event>)
    requires k <= |lines| && DecodeAll(lines).Some? && DecodeAll(lines[k..]).Some?
    ensures var all := lines + EncodeAll(more);
            && |all| == |lines| + |more| && all[..k] == lines[..k]
            && DecodesFrom(all, k, EventsOf(Loaded(lines[k..])) + more)
  {
    hide DecodeAll, EncodeAll, EventsOf, Loaded;
    EncodeAllRoundTrip(more);
    DecodeAllAppend(lines, EncodeAll(more));
    DecodeAllSlice(lines, k);
    LoadedEvents(lines[k..]);
    SliceOfAppend(DecodeAll(lines).value, more, k);
    SliceOfAppend(lines, EncodeAll(more), k);
  }

  lemma SliceOfAppend<T>(a: seq<T>, b: seq<T>, k: nat)
    requires k <= |a|
    ensures (a + b)[..k] == a[..k] && (a + b)[k..] == a[k..] + b
  {
  }

  lemma StateFields(d: Disk, m: Memory)
    ensures m.State() == CheckpointState(m.checkpointOffset, m.journalBaseCount, m.confirmedSinceCompaction)
    ensures m.RecordedCount() == m.journalBaseCount + m.journalEntryCount
    ensures DecodeFailedAll(FailedLines(d)).Some? ==> FailedIds(d) == DecodeFailedAll(FailedLines(d)).value
    ensures JournalLines(d) == Lines(Read(d, Journal)) && FailedLines(d) == Lines(Read(d, Failed))
  {
    hide Lines, DecodeFailedAll, Read;
  }

  // ---------- compact ----------

  function CompactedState(m: Memory): CheckpointState {
    CheckpointState(0, m.journalBaseCount + m.confirmedSinceCompaction, 0)
  }

  function CompactMemory(m: Memory): Memory {
    Memory(Fresh(EventsOf(m.pending)), 0, m.journalBaseCount + m.confirmedSinceCompaction, 0, |m.pending|)
  }

  /** The new journal first, then the manifest, and only then the swap and the checkpoint. */
  function CompactOps(m: Memory): seq<FileOp> {
    [WriteText(Compact, Frame(EncodeAll(EventsOf(m.pending))))]
    + AtomicWrite(Manifest, DocOf(CompactedState(m)))
    + [RenameText(Compact, Journal)]
    + AtomicWrite(Checkpoint, DocOf(CompactedState(m)))
    + [UnlinkDoc(Manifest)]
  }

  /** The disk once the manifest is in place. */
  function Manifested(d: Disk, m: Memory): Disk {
    WithDoc(WithText(d, Compact, Frame(EncodeAll(EventsOf(m.pending)))), Manifest, DocOf(CompactedState(m)))
  }

  lemma ManifestedView(d: Disk, m: Memory)
    requires Synced(d, m)
    ensures ManifestUsable(Manifested(d, m))
    ensures View(Manifested(d, m)) == View(d)
    ensures QueueOf(Frame(EncodeAll(EventsOf(m.pending))), Read(d, Failed), CompactedState(m)) == View(d)
  {
    hide Lines, Tail, DecodeAll, DecodeFailedAll, Loaded, EncodeAll, NewlineFree, QueueOf;
    SyncedAccounting(d, m);
    var events := EventsOf(m.pending);
    var lines := EncodeAll(events);
    EncodeAllRoundTrip(events);
    SplitExact(lines);
    assert lines[..0] == [] && events[0..] == events;
    QueueOfLines(Frame(lines), Read(d, Failed), CompactedState(m), lines, 0);
  }

  lemma CompactSplit(d: Disk, m: Memory)
    requires Synced(d, m)
    ensures var d1 := Manifested(d, m);
            var start := [WriteText(Compact, Frame(EncodeAll(EventsOf(m.pending))))]
                         + AtomicWrite(Manifest, DocOf(CompactedState(m)));
            && ExecAll(d, start) == d1
            && ManifestUsable(d1) && CompactOps(m) == start + FinishCompactionOps(d1)
            && (forall d' :: KilledDuring(d, start, d') ==> View(d') == View(d))
  {
    hide QueueOf, EncodeAll, Frame, Synced, EventsOf, View;
    SyncedLines(d, m);
    var content := Frame(EncodeAll(EventsOf(m.pending)));
    var write := [WriteText(Compact, content)];
    var manifest := AtomicWrite(Manifest, DocOf(CompactedState(m)));
    ExecOne(d, write[0]);
    ExecAppend(d, write, manifest);
    AtomicWriteDone(WithText(d, Compact, content), Manifest, DocOf(CompactedState(m)));
    ManifestedView(d, m);
    var d1 := Manifested(d, m);
    assert FinishCompactionOps(d1) ==
           [RenameText(Compact, Journal)] + AtomicWrite(Checkpoint, DocOf(CompactedState(m))) + [UnlinkDoc(Manifest)];
    assert CompactOps(m) == write + manifest + FinishCompactionOps(d1);
    forall d' | KilledDuring(d, write + manifest, d') ensures View(d') == View(d) {
      CompactStartKilled(d, content, DocOf(CompactedState(m)), d');
    }
  }

  /** Until the manifest is in place, the half-written new journal is invisible. */
  lemma CompactStartKilled(d: Disk, content: Bytes, doc: Doc, d': Disk)
    requires Manifest !in d.docs
    requires KilledDuring(d, [WriteText(Compact, content)] + AtomicWrite(Manifest, doc), d')
    ensures View(d') == View(d) || d' == WithDoc(WithText(d, Compact, content), Manifest, doc)
  {
    hide QueueOf;
    var write := [WriteText(Compact, content)];
    ExecOne(d, write[0]);
    KilledInStages(d, write, AtomicWrite(Manifest, doc), d');
    if KilledDuring(d, write, d') {
      KilledDuringOne(d, write[0], d');
    } else {
      AtomicWriteKilled(WithText(d, Compact, content), Manifest, doc, d');
    }
  }

  /**
   * Compaction is crash-atomic: a kill between any two of its file steps, or inside
   * one, leaves a directory that opens to exactly the same pending events, the same
   * recorded count and the same failed records.
   */
  lemma CompactKilled(d: Disk, m: Memory, d': Disk)
    requires Synced(d, m)
    requires KilledDuring(d, CompactOps(m), d')
    ensures View(d') == View(d)
  {
    CompactSplit(d, m);
    var d1 := Manifested(d, m);
    var start := [WriteText(Compact, Frame(EncodeAll(EventsOf(m.pending))))]
                 + AtomicWrite(Manifest, DocOf(CompactedState(m)));
    KilledInStages(d, start, FinishCompactionOps(d1), d');
    if !KilledDuring(d, start, d') {
      ManifestedView(d, m);
      FinishCompactionKilled(d1, d');
      SameSettledView(d1, d');
    }
  }

  lemma CompactDone(d: Disk, m: Memory)
    requires Synced(d, m)
    ensures var d2 := ExecAll(d, CompactOps(m));
            && Synced(d2, CompactMemory(m)) && View(d2) == View(d)
            && Read(d2, Failed) == Read(d, Failed)
            && Read(d2, Journal) == Frame(EncodeAll(EventsOf(m.pending)))
  {
    CompactSplit(d, m);
    ManifestedView(d, m);
    var d1 := Manifested(d, m);
    var start := [WriteText(Compact, Frame(EncodeAll(EventsOf(m.pending))))]
                 + AtomicWrite(Manifest, DocOf(CompactedState(m)));
    ExecAppend(d, start, FinishCompactionOps(d1));
    FinishCompactionDone(d1);
    var d2 := ExecAll(d, CompactOps(m));
    SameSettledView(d1, d2);
    FinishedCheckpoint(d1, CompactedState(m));
    CompactedSync(d, m, d2);
  }

  lemma FinishedCheckpoint(d: Disk, state: CheckpointState)
    requires Manifest in d.docs && ManifestState(d.docs[Manifest]) == Some(state) && Compact in d.text
    ensures var d1 := ExecAll(d, FinishCompactionOps(d));
            && Journal in d1.text && Checkpoint in d1.docs && d1.docs[Checkpoint] == DocOf(state)
  {
    var swap := [RenameText(Compact, Journal)];
    var write := AtomicWrite(Checkpoint, DocOf(state));
    assert FinishCompactionOps(d) == swap + (write + [UnlinkDoc(Manifest)]);
    ExecAppend(d, swap, write + [UnlinkDoc(Manifest)]);
    ExecOne(d, swap[0]);
    var d1 := ExecAll(d, swap);
    ExecAppend(d1, write, [UnlinkDoc(Manifest)]);
    AtomicWriteDone(d1, Checkpoint, DocOf(state));
    ExecOne(ExecAll(d1, write), UnlinkDoc(Manifest));
  }

  lemma CompactedSync(d: Disk, m: Memory, d2: Disk)
    requires Synced(d, m)
    requires Manifest !in d2.docs && Journal in d2.text
    requires Read(d2, Journal) == Frame(EncodeAll(EventsOf(m.pending))) && Read(d2, Failed) == Read(d, Failed)
    requires Checkpoint in d2.docs && d2.docs[Checkpoint] == DocOf(CompactedState(m))
    ensures Synced(d2, CompactMemory(m))
  {
    hide Lines, Tail, DecodeAll, DecodeFailedAll, Loaded, EncodeAll, NewlineFree;
    var events := EventsOf(m.pending);
    var lines := EncodeAll(events);
    EncodeAllRoundTrip(events);
    LoadedFresh(events);
    assert lines[..0] == [] && lines[0..] == lines;
    MakeSynced(d2, CompactMemory(m), lines);
  }

  // ---------- confirm ----------

  function AdvanceMemory(m: Memory, count: nat): Memory
    requires count <= |m.pending|
  {
    m.(pending := m.pending[count..],
       checkpointOffset := m.checkpointOffset + PendingBytes(m.pending[..count]),
       confirmedSinceCompaction := m.confirmedSinceCompaction + count)
  }

  function ConfirmOps(m: Memory, count: nat): seq<FileOp>
    requires count <= |m.pending|
  {
    if count == 0 then []
    else
      var advanced := AdvanceMemory(m, count);
      AtomicWrite(Checkpoint, DocOf(advanced.State()))
      + (if advanced.checkpointOffset >= COMPACT_THRESHOLD_BYTES then CompactOps(advanced) else [])
  }

  function ConfirmMemory(m: Memory, count: nat): Memory
    requires count <= |m.pending|
  {
    if count == 0 then m
    else
      var advanced := AdvanceMemory(m, count);
      if advanced.checkpointOffset >= COMPACT_THRESHOLD_BYTES then CompactMemory(advanced) else advanced
  }

  lemma AdvanceSync(d: Disk, m: Memory, count: nat)
    requires Synced(d, m) && count <= |m.pending|
    ensures Synced(WithDoc(d, Checkpoint, DocOf(AdvanceMemory(m, count).State())), AdvanceMemory(m, count))
  {
    hide Lines, Tail, DecodeAll, DecodeFailedAll, Loaded, Frame, NewlineFree;
    var lines := JournalLines(d);
    var k := m.confirmedSinceCompaction;
    var open := lines[k..];
    SyncedLines(d, m);
    DecodeAllSlice(open, count);
    assert open == open[..count] + open[count..];
    LoadedAppend(open[..count], open[count..]);
    assert m.pending[..count] == Loaded(open[..count]) && m.pending[count..] == Loaded(open[count..]);
    LoadedBytes(open[..count]);
    assert lines[..k + count] == lines[..k] + open[..count];
    FrameAppend(lines[..k], open[..count]);
    assert lines[k + count..] == open[count..];
    MakeSynced(WithDoc(d, Checkpoint, DocOf(AdvanceMemory(m, count).State())), AdvanceMemory(m, count), lines);
  }

  /** A kill during confirm leaves the queue either before or after the confirmation. */
  lemma ConfirmKilled(d: Disk, m: Memory, count: nat, d': Disk)
    requires Synced(d, m) && count <= |m.pending|
    requires KilledDuring(d, ConfirmOps(m, count), d')
    ensures View(d') == Ok(QueueOfMemory(d, m)) || View(d') == Ok(QueueOfMemory(d, AdvanceMemory(m, count)))
  {
    hide QueueOf;
    SyncedAccounting(d, m);
    if count > 0 {
      var advanced := AdvanceMemory(m, count);
      var write := AtomicWrite(Checkpoint, DocOf(advanced.State()));
      var rest := if advanced.checkpointOffset >= COMPACT_THRESHOLD_BYTES then CompactOps(advanced) else [];
      var d1 := WithDoc(d, Checkpoint, DocOf(advanced.State()));
      AdvanceSync(d, m, count);
      SyncedAccounting(d1, advanced);
      AtomicWriteDone(d, Checkpoint, DocOf(advanced.State()));
      assert ConfirmOps(m, count) == write + rest;
      KilledInStages(d, write, rest, d');
      if KilledDuring(d, write, d') {
        AtomicWriteKilled(d, Checkpoint, DocOf(advanced.State()), d');
      } else if rest != [] {
        CompactKilled(d1, advanced, d');
      }
    }
  }

  lemma ConfirmDone(d: Disk, m: Memory, count: nat)
    requires Synced(d, m) && count <= |m.pending|
    ensures var d1 := ExecAll(d, ConfirmOps(m, count));
            var m1 := ConfirmMemory(m, count);
            && Synced(d1, m1)
            && EventsOf(m1.pending) == EventsOf(m.pending)[count..]
            && m1.RecordedCount() == m.RecordedCount()
            && Read(d1, Failed) == Read(d, Failed)
  {
    if count == 0 {
      assert EventsOf(m.pending)[0..] == EventsOf(m.pending);
    } else {
      hide *;
      var advanced := AdvanceMemory(m, count);
      var d1 := WithDoc(d, Checkpoint, DocOf(advanced.State()));
      AdvanceSync(d, m, count);
      AdvanceFacts(d, m, count);
      var write := AtomicWrite(Checkpoint, DocOf(advanced.State()));
      AtomicWriteDone(d, Checkpoint, DocOf(advanced.State()));
      if advanced.checkpointOffset >= COMPACT_THRESHOLD_BYTES {
        ExecAppend(d, write, CompactOps(advanced));
        CompactDone(d1, advanced);
        SyncedCounts(d1, advanced);
        CompactFacts(advanced);
      }
    }
  }

  lemma AdvanceFacts(d: Disk, m: Memory, count: nat)
    requires 0 < count <= |m.pending|
    ensures var advanced := AdvanceMemory(m, count);
            && EventsOf(advanced.pending) == EventsOf(m.pending)[count..]
            && advanced.RecordedCount() == m.RecordedCount()
            && Read(WithDoc(d, Checkpoint, DocOf(advanced.State())), Failed) == Read(d, Failed)
            && (advanced.checkpointOffset < COMPACT_THRESHOLD_BYTES ==>
                 ConfirmMemory(m, count) == advanced &&
                 ConfirmOps(m, count) == AtomicWrite(Checkpoint, DocOf(advanced.State())))
            && (advanced.checkpointOffset >= COMPACT_THRESHOLD_BYTES ==>
                 ConfirmMemory(m, count) == CompactMemory(advanced) &&
                 ConfirmOps(m, count) == AtomicWrite(Checkpoint, DocOf(advanced.State())) + CompactOps(advanced))
  {
    hide AtomicWrite, CompactOps, CompactMemory;
  }

  /** Compaction keeps the pending events and the number ever recorded. */
  lemma CompactFacts(m: Memory)
    requires m.journalEntryCount == m.confirmedSinceCompaction + |m.pending|
    ensures EventsOf(CompactMemory(m).pending) == EventsOf(m.pending)
    ensures CompactMemory(m).RecordedCount() == m.RecordedCount()
  {
  }

  lemma SyncedCounts(d: Disk, m: Memory)
    requires Synced(d, m)
    ensures m.journalEntryCount == m.confirmedSinceCompaction + |m.pending|
  {
    SyncedAccounting(d, m);
  }

  // ---------- quarantine ----------

  /** The first occurrence of every event whose id is not already known. */
  function NewFailures(events: seq<Event>, known: set<Bytes>): (failures: seq<Event>)
    ensures |failures| <= |events|
  {
    if events == [] then []
    else if events[0].eventId in known then NewFailures(events[1..], known)
    else [events[0]] + NewFailures(events[1..], known + {events[0].eventId})
  }

  function IdsOf(events: seq<Event>): (ids: seq<Bytes>)
    ensures |ids| == |events|
    ensures forall i :: 0 <= i < |events| ==> ids[i] == events[i].eventId
  {
    seq(|events|, i requires 0 <= i < |events| => events[i].eventId)
  }

  function EncodeFailedAll(detail: Bytes, events: seq<Event>): (lines: seq<Bytes>)
    ensures |lines| == |events|
    ensures forall i :: 0 <= i < |events| ==> lines[i] == EncodeFailed(detail, events[i])
  {
    seq(|events|, i requires 0 <= i < |events| => EncodeFailed(detail, events[i]))
  }

  function QuarantineOps(failures: seq<Event>, detail: Bytes): seq<FileOp> {
    if failures == [] then [] else [Append(Failed, Frame(EncodeFailedAll(detail, failures)))]
  }

  lemma DecodeFailedAllCons(line: Bytes, lines: seq<Bytes>)
    ensures DecodeFailedAll([line] + lines) ==
            if DecodeFailed(line).Some? && DecodeFailedAll(lines).Some?
            then Some([DecodeFailed(line).value] + DecodeFailedAll(lines).value) else None
    ensures DecodeFailedAll([]) == Some([])
  {
    hide DecodeFailed;
    assert ([line] + lines)[1..] == lines;
  }

  lemma {:induction false} DecodeFailedAllAppend(a: seq<Bytes>, b: seq<Bytes>)
    requires DecodeFailedAll(a).Some? && DecodeFailedAll(b).Some?
    ensures DecodeFailedAll(a + b) == Some(DecodeFailedAll(a).value + DecodeFailedAll(b).value)
  {
    hide *;
    if a == [] {
      DecodeFailedAllCons([], []);
      assert a + b == b;
      assert [] + DecodeFailedAll(b).value == DecodeFailedAll(b).value;
    } else {
      var (line, rest) := (a[0], a[1..]);
      assert a == [line] + rest && a + b == [line] + (rest + b);
      DecodeFailedAllCons(line, rest);
      DecodeFailedAllCons(line, rest + b);
      DecodeFailedAllAppend(rest, b);
      var first := [DecodeFailed(line).value];
      assert first + (DecodeFailedAll(rest).value + DecodeFailedAll(b).value)
          == (first + DecodeFailedAll(rest).value) + DecodeFailedAll(b).value;
    }
  }

  lemma EncodeFailedAllCons(detail: Bytes, e: Event, events: seq<Event>)
    ensures EncodeFailedAll(detail, [e] + events) == [EncodeFailed(detail, e)] + EncodeFailedAll(detail, events)
    ensures IdsOf([e] + events) == [e.eventId] + IdsOf(events)
    ensures EncodeFailedAll(detail, []) == [] && IdsOf([]) == []
  {
    hide EncodeFailed;
  }

  lemma {:induction false} FailedAllRoundTrip(detail: Bytes, events: seq<Event>)
    ensures DecodeFailedAll(EncodeFailedAll(detail, events)) == Some(IdsOf(events))
    ensures AllNewlineFree(EncodeFailedAll(detail, events))
  {
    hide *;
    if events == [] {
      EncodeFailedAllCons(detail, Event([], []), []);
      DecodeFailedAllCons([], []);
      AllNewlineFreeNone();
    } else {
      var (e, rest) := (events[0], events[1..]);
      assert events == [e] + rest;
      FailedRoundTrip(detail, e);
      FailedNewlineFree(detail, e);
      FailedAllRoundTrip(detail, rest);
      EncodeFailedAllCons(detail, e, rest);
      DecodeFailedAllCons(EncodeFailed(detail, e), EncodeFailedAll(detail, rest));
      AllNewlineFreeCons(EncodeFailed(detail, e), EncodeFailedAll(detail, rest));
    }
  }

  /** A kill, or a failing write, during quarantine leaves the old records and a prefix of the new ones. */
  lemma QuarantineKilled(d: Disk, m: Memory, failures: seq<Event>, detail: Bytes, d': Disk) returns (n: nat)
    requires Synced(d, m) && Tail(Read(d, Failed)) == []
    requires KilledDuring(d, QuarantineOps(failures, detail), d')
    ensures n <= |failures|
    ensures Synced(d', m)
    ensures FailedIds(d') == FailedIds(d) + IdsOf(failures)[..n]
    ensures d' == ExecAll(d, QuarantineOps(failures, detail)) ==> n == |failures| && Tail(Read(d', Failed)) == []
  {
    hide Lines, Tail, DecodeAll, DecodeFailedAll, Loaded, EncodeFailedAll, Frame, NewlineFree, Synced;
    assert FailedIds(d) + IdsOf(failures)[..0] == FailedIds(d) by { SyncedFailed(d, m); }
    if failures == [] {
      n := 0;
    } else {
      var added := EncodeFailedAll(detail, failures);
      FailedAllRoundTrip(detail, failures);
      ExecOne(d, Append(Failed, Frame(added)));
      var lines := FailedLines(d);
      SyncedFailed(d, m);
      SplitIsFrame(Read(d, Failed));
      assert Frame(lines) + [] == Frame(lines);
      var cut := AppendKilledAt(d, Failed, Frame(added), d');
      if d' == d && d' != Exec(d, Append(Failed, Frame(added))) {
        n := 0;
      } else {
        n := AppendCut(lines, added, cut);
        assert d'.text[Failed] == Frame(lines) + Frame(added)[..cut];
        FailedPrefix(detail, failures, n);
        DecodeFailedAllAppend(lines, added[..n]);
        SyncedUnderFailed(d, m, d');
      }
    }
  }

  lemma SyncedFailed(d: Disk, m: Memory)
    requires Synced(d, m)
    ensures DecodeFailedAll(FailedLines(d)).Some?
  {
  }

  lemma SyncedUnderFailed(d: Disk, m: Memory, d': Disk)
    requires Synced(d, m)
    requires d'.docs == d.docs && Read(d', Journal) == Read(d, Journal) && (Journal in d.text ==> Journal in d'.text)
    requires DecodeFailedAll(FailedLines(d')).Some?
    ensures Synced(d', m)
  {
  }

  lemma FailedPrefix(detail: Bytes, events: seq<Event>, n: nat)
    requires n <= |events|
    ensures DecodeFailedAll(EncodeFailedAll(detail, events)[..n]) == Some(IdsOf(events)[..n])
  {
    hide EncodeFailed, DecodeFailedAll;
    FailedAllRoundTrip(detail, events[..n]);
    assert EncodeFailedAll(detail, events)[..n] == EncodeFailedAll(detail, events[..n]);
    assert IdsOf(events[..n]) == IdsOf(events)[..n];
  }

  /** A quarantine that returns has a record for every event, new or old, and writes none twice. */
  lemma {:induction false} NewFailuresCover(events: seq<Event>, known: set<Bytes>)
    ensures var failures := NewFailures(events, known);
            && (forall e :: e in events ==> e.eventId in known || e.eventId in IdsOf(failures))
            && (forall e :: e in failures ==> e in events && e.eventId !in known)
            && Distinct(IdsOf(failures))
  {
    if events != [] {
      var (e, rest) := (events[0], events[1..]);
      assert events == [e] + rest;
      if e.eventId in known {
        NewFailuresCover(rest, known);
      } else {
        var more := NewFailures(rest, known + {e.eventId});
        NewFailuresCover(rest, known + {e.eventId});
        assert NewFailures(events, known) == [e] + more;
        hide NewFailures;
        EncodeFailedAllCons([], e, more);
        forall i | 0 <= i < |more| ensures IdsOf(more)[i] != e.eventId && more[i].eventId !in known {
          assert more[i] in more;
        }
      }
    }
  }

  // ---------- The queue of a running outbox ----------

  lemma QueueIs(d: Disk, m: Memory)
    requires Synced(d, m)
    ensures DecodeFailedAll(FailedLines(d)).Some?
    ensures QueueOfMemory(d, m) == Queue(EventsOf(m.pending), m.RecordedCount(), FailedIds(d))
  {
    hide Lines, Tail, DecodeAll, DecodeFailedAll, Loaded, Frame, EventsOf;
  }

  lemma SameFailedIds(d: Disk, d1: Disk)
    requires Read(d1, Failed) == Read(d, Failed)
    ensures FailedLines(d1) == FailedLines(d)
    ensures DecodeFailedAll(FailedLines(d)).Some? ==> FailedIds(d1) == FailedIds(d)
  {
    hide Lines, DecodeFailedAll;
  }

  lemma AdvanceQueueIs(d: Disk, m: Memory, count: nat)
    requires count <= |m.pending| && DecodeFailedAll(FailedLines(d)).Some?
    ensures QueueOfMemory(d, AdvanceMemory(m, count)) ==
              Queue(EventsOf(m.pending)[count..], m.RecordedCount(), FailedIds(d))
  {
    hide FailedIds, FailedLines, DecodeFailedAll, PendingBytes;
    assert EventsOf(m.pending[count..]) == EventsOf(m.pending)[count..];
  }
}
