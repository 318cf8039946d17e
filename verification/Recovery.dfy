/**
 * What opening a directory recovers, the file operations it performs, and the
 * proof that being killed while doing so, any number of times, changes nothing.
 */
module Recovery {
  import opened Basics
  import opened Codec
  import opened Disk
  import opened Framing
  import opened JournalFiles

  datatype CheckpointState = CheckpointState(offset: nat, journalBaseCount: nat, confirmedSinceCompaction: nat)

  datatype OpenError = BadManifest | BadJournal | BadFailedJournal

  /** The abstract queue a directory stands for. */
  datatype Queue = Queue(pending: seq<Event>, recordedCount: nat, failed: seq<Bytes>)

  function DocOf(s: CheckpointState): Doc {
    Fields(Some(s.offset), Some(s.journalBaseCount), Some(s.confirmedSinceCompaction))
  }

  function OrZero(field: Option<nat>): nat {
    match field
    case Some(n) => n
    case None => 0
  }

  /** loadCheckpoint: a missing or unreadable file, or a bad field, falls back to zero. */
  function LoadCheckpoint(d: Disk): CheckpointState {
    if Checkpoint !in d.docs then CheckpointState(0, 0, 0)
    else match d.docs[Checkpoint]
      case Garbled => CheckpointState(0, 0, 0)
      case Fields(offset, base, confirmed) => CheckpointState(OrZero(offset), OrZero(base), OrZero(confirmed))
  }

  /** isCheckpointState: the manifest is only usable with all three counters. */
  function ManifestState(doc: Doc): Option<CheckpointState> {
    match doc
    case Fields(Some(offset), Some(base), Some(confirmed)) => Some(CheckpointState(offset, base, confirmed))
    case _ => None
  }

  predicate ManifestUsable(d: Disk) {
    Manifest in d.docs ==> ManifestState(d.docs[Manifest]).Some?
  }

  // ---------- What open recovers ----------

  /** The journal bytes once an interrupted compaction is finished. */
  function SettledJournal(d: Disk): Bytes {
    if Manifest in d.docs && Compact in d.text then d.text[Compact] else Read(d, Journal)
  }

  function SettledCheckpoint(d: Disk): CheckpointState
    requires ManifestUsable(d)
  {
    if Manifest in d.docs then ManifestState(d.docs[Manifest]).value else LoadCheckpoint(d)
  }

  function DecodeFailedAll(lines: seq<Bytes>): (r: Option<seq<Bytes>>)
    ensures r.Some? ==> |r.value| == |lines|
  {
    if lines == [] then Some([])
    else match (DecodeFailed(lines[0]), DecodeFailedAll(lines[1..]))
      case (Some(id), Some(ids)) => Some([id] + ids)
      case _ => None
  }

  /** A checkpoint that does not fall on an entry boundary is not trusted: everything is resent. */
  function ConfirmedLines(lines: seq<Bytes>, offset: nat): (k: nat)
    ensures k <= |lines|
  {
    match Boundary(lines, offset)
    case Some(k) => k
    case None => 0
  }

  function QueueOf(journal: Bytes, failed: Bytes, checkpoint: CheckpointState): Result<Queue, OpenError> {
    var lines := Lines(journal);
    match DecodeAll(lines)
    case None => Err(BadJournal)
    case Some(events) =>
      match DecodeFailedAll(Lines(failed))
      case None => Err(BadFailedJournal)
      case Some(ids) =>
        Ok(Queue(events[ConfirmedLines(lines, checkpoint.offset)..], checkpoint.journalBaseCount + |events|, ids))
  }

  /** The queue that opening this directory recovers, or the error with which it refuses to open. */
  function View(d: Disk): Result<Queue, OpenError> {
    if !ManifestUsable(d) then Err(BadManifest)
    else QueueOf(SettledJournal(d), Read(d, Failed), SettledCheckpoint(d))
  }

  // ---------- The file operations of open ----------

  /** recoverCompaction on a usable directory. */
  function FinishCompactionOps(d: Disk): seq<FileOp>
    requires ManifestUsable(d)
  {
    if Manifest !in d.docs then
      if Compact in d.text then [UnlinkText(Compact)] else []
    else
      (if Compact in d.text then [RenameText(Compact, Journal)] else [])
      + AtomicWrite(Checkpoint, DocOf(ManifestState(d.docs[Manifest]).value))
      + [UnlinkDoc(Manifest)]
  }

  /** truncateIncompleteTail: cuts a file back to its last newline, when there is something to cut. */
  function RepairOps(f: TextFile, content: Bytes): seq<FileOp> {
    if Tail(content) == [] then [] else [Truncate(f, TailStart(content))]
  }

  function OpenedCheckpoint(d: Disk): CheckpointState
    requires ManifestUsable(d)
  {
    var loaded := SettledCheckpoint(d);
    var lines := Lines(SettledJournal(d));
    var k := ConfirmedLines(lines, loaded.offset);
    CheckpointState(|Frame(lines[..k])|, loaded.journalBaseCount, k)
  }

  /** Everything open does to the files, up to its end or to the point where it throws. */
  function OpenOps(d: Disk): seq<FileOp> {
    if !ManifestUsable(d) then []
    else
      FinishCompactionOps(d)
      + (RepairOps(Journal, SettledJournal(d)) + RepairOps(Failed, Read(d, Failed)))
      + (if View(d).Ok? then AtomicWrite(Checkpoint, DocOf(OpenedCheckpoint(d))) + [OpenAppend(Journal)] else [])
  }

  // ---------- Views that agree ----------

  /** What View looks at. */
  lemma ViewDependsOn(d: Disk, d': Disk)
    requires ManifestUsable(d) && ManifestUsable(d')
    requires Lines(SettledJournal(d)) == Lines(SettledJournal(d'))
    requires Lines(Read(d, Failed)) == Lines(Read(d', Failed))
    requires SettledCheckpoint(d) == SettledCheckpoint(d')
    ensures View(d) == View(d')
  {
    hide Lines, DecodeAll, DecodeFailedAll, ConfirmedLines;
  }

  /** The queue of a directory whose checkpoint confirms its first k lines. */
  lemma QueueOfLines(journal: Bytes, failed: Bytes, checkpoint: CheckpointState, lines: seq<Bytes>, k: nat)
    requires Lines(journal) == lines && DecodeAll(lines).Some? && DecodeFailedAll(Lines(failed)).Some?
    requires k <= |lines| && checkpoint.offset == |Frame(lines[..k])|
    ensures QueueOf(journal, failed, checkpoint) ==
            Ok(Queue(DecodeAll(lines).value[k..], checkpoint.journalBaseCount + |lines|,
                     DecodeFailedAll(Lines(failed)).value))
  {
    hide Lines, DecodeAll, DecodeFailedAll, Boundary, Frame;
    BoundaryOfPrefix(lines, k);
  }

  /** Two directories with the same settled content. */
  ghost predicate SameSettled(d: Disk, d': Disk) {
    && ManifestUsable(d) && ManifestUsable(d')
    && SettledJournal(d) == SettledJournal(d')
    && Read(d, Failed) == Read(d', Failed)
    && SettledCheckpoint(d) == SettledCheckpoint(d')
  }

  lemma SameSettledView(d: Disk, d': Disk)
    requires SameSettled(d, d')
    ensures View(d) == View(d')
  {
    ViewDependsOn(d, d');
  }

  // ---------- Stage 1: finishing a compaction ----------

  lemma FinishUnmanifested(d: Disk, d': Disk)
    requires Manifest !in d.docs
    requires KilledDuring(d, FinishCompactionOps(d), d')
    ensures SameSettled(d, d')
  {
    if Compact in d.text {
      KilledDuringOne(d, UnlinkText(Compact), d');
    }
  }

  lemma SwapIn(d: Disk, d': Disk)
    requires Manifest in d.docs && ManifestUsable(d)
    requires KilledDuring(d, if Compact in d.text then [RenameText(Compact, Journal)] else [], d')
    ensures SameSettled(d, d') && d'.docs == d.docs
  {
    if Compact in d.text {
      KilledDuringOne(d, RenameText(Compact, Journal), d');
    }
  }

  lemma SwappedIn(d: Disk)
    ensures var d1 := ExecAll(d, if Compact in d.text then [RenameText(Compact, Journal)] else []);
            && Compact !in d1.text && d1.docs == d.docs && Read(d1, Failed) == Read(d, Failed)
            && (Compact in d.text ==> Read(d1, Journal) == d.text[Compact])
            && (Compact !in d.text ==> d1 == d)
  {
    if Compact in d.text {
      ExecOne(d, RenameText(Compact, Journal));
    }
  }

  /** A usable manifest whose compact file is already in place: the rest of the recovery. */
  lemma FinishSwapped(d: Disk, state: CheckpointState, d': Disk)
    requires Manifest in d.docs && Compact !in d.text && ManifestState(d.docs[Manifest]) == Some(state)
    requires KilledDuring(d, AtomicWrite(Checkpoint, DocOf(state)) + [UnlinkDoc(Manifest)], d')
    ensures SameSettled(d, d')
  {
    var write := AtomicWrite(Checkpoint, DocOf(state));
    KilledInStages(d, write, [UnlinkDoc(Manifest)], d');
    AtomicWriteDone(d, Checkpoint, DocOf(state));
    if KilledDuring(d, write, d') {
      AtomicWriteKilled(d, Checkpoint, DocOf(state), d');
    } else {
      KilledDuringOne(ExecAll(d, write), UnlinkDoc(Manifest), d');
    }
  }

  lemma FinishSwappedDone(d: Disk, state: CheckpointState)
    requires Manifest in d.docs && Compact !in d.text && ManifestState(d.docs[Manifest]) == Some(state)
    ensures var d1 := ExecAll(d, AtomicWrite(Checkpoint, DocOf(state)) + [UnlinkDoc(Manifest)]);
            SameSettled(d, d1) && Manifest !in d1.docs && d1.text == d.text
  {
    var write := AtomicWrite(Checkpoint, DocOf(state));
    ExecAppend(d, write, [UnlinkDoc(Manifest)]);
    AtomicWriteDone(d, Checkpoint, DocOf(state));
    ExecOne(ExecAll(d, write), UnlinkDoc(Manifest));
  }

  lemma FinishCompactionKilled(d: Disk, d': Disk)
    requires ManifestUsable(d)
    requires KilledDuring(d, FinishCompactionOps(d), d')
    ensures SameSettled(d, d')
  {
    if Manifest !in d.docs {
      FinishUnmanifested(d, d');
    } else {
      var swap := if Compact in d.text then [RenameText(Compact, Journal)] else [];
      var state := ManifestState(d.docs[Manifest]).value;
      var rest := AtomicWrite(Checkpoint, DocOf(state)) + [UnlinkDoc(Manifest)];
      assert FinishCompactionOps(d) == swap + rest;
      KilledInStages(d, swap, rest, d');
      if KilledDuring(d, swap, d') {
        SwapIn(d, d');
      } else {
        SwappedIn(d);
        FinishSwapped(ExecAll(d, swap), state, d');
      }
    }
  }

  lemma FinishCompactionDone(d: Disk)
    requires ManifestUsable(d)
    ensures var d1 := ExecAll(d, FinishCompactionOps(d));
            SameSettled(d, d1) && Manifest !in d1.docs && Compact !in d1.text
  {
    CompletedIsReachable(d, FinishCompactionOps(d));
    FinishCompactionKilled(d, ExecAll(d, FinishCompactionOps(d)));
    if Manifest !in d.docs {
      if Compact in d.text {
        ExecOne(d, UnlinkText(Compact));
      }
    } else {
      var swap := if Compact in d.text then [RenameText(Compact, Journal)] else [];
      var state := ManifestState(d.docs[Manifest]).value;
      var rest := AtomicWrite(Checkpoint, DocOf(state)) + [UnlinkDoc(Manifest)];
      assert FinishCompactionOps(d) == swap + rest;
      ExecAppend(d, swap, rest);
      SwappedIn(d);
      FinishSwappedDone(ExecAll(d, swap), state);
    }
  }

  // ---------- Stage 2: repairing torn tails ----------

  lemma RepairKeepsLines(b: Bytes)
    ensures Lines(b[..TailStart(b)]) == Lines(b) && Tail(b[..TailStart(b)]) == []
  {
    TailStartCuts(b);
    SplitIsFrame(b);
    SplitExact(Lines(b));
  }

  /** Repair never touches a terminated line, and repairing twice is repairing once. */
  lemma RepairDone(d: Disk, f: TextFile)
    ensures var d1 := ExecAll(d, RepairOps(f, Read(d, f)));
            && Lines(Read(d1, f)) == Lines(Read(d, f)) && Tail(Read(d1, f)) == []
            && d1 == d.(text := d1.text) && d1.text.Keys == d.text.Keys
            && (forall g :: g != f ==> Read(d1, g) == Read(d, g))
            && RepairOps(f, Read(d1, f)) == []
            && (forall d' :: KilledDuring(d, RepairOps(f, Read(d, f)), d') ==> d' == d || d' == d1)
  {
    var b := Read(d, f);
    RepairKeepsLines(b);
    if Tail(b) != [] {
      var op := Truncate(f, TailStart(b));
      ExecOne(d, op);
      assert f in d.text by { SplitParts([]); SplitUncons([]); }
      forall d' | KilledDuring(d, [op], d') ensures d' == d || d' == Exec(d, op) {
        KilledDuringOne(d, op, d');
      }
    }
  }

  /** No compaction is in progress and the settled content is the given one, up to torn tails. */
  ghost predicate Settled(d: Disk, journal: seq<Bytes>, failed: seq<Bytes>, checkpoint: CheckpointState) {
    && Manifest !in d.docs && Compact !in d.text
    && Lines(Read(d, Journal)) == journal
    && Lines(Read(d, Failed)) == failed
    && LoadCheckpoint(d) == checkpoint
  }

  lemma SettledView(d: Disk, d': Disk)
    requires ManifestUsable(d)
    requires Settled(d', Lines(SettledJournal(d)), Lines(Read(d, Failed)), SettledCheckpoint(d))
    ensures View(d') == View(d)
  {
    ViewDependsOn(d, d');
  }

  lemma RepairBothDone(d: Disk, journal: seq<Bytes>, failed: seq<Bytes>, checkpoint: CheckpointState)
    requires Settled(d, journal, failed, checkpoint)
    ensures var ops := RepairOps(Journal, Read(d, Journal)) + RepairOps(Failed, Read(d, Failed));
            var d2 := ExecAll(d, ops);
            && Settled(d2, journal, failed, checkpoint)
            && Tail(Read(d2, Journal)) == [] && Tail(Read(d2, Failed)) == []
            && d2.docs == d.docs
            && (forall d' :: KilledDuring(d, ops, d') ==> Settled(d', journal, failed, checkpoint))
  {
    var first := RepairOps(Journal, Read(d, Journal));
    var second := RepairOps(Failed, Read(d, Failed));
    RepairDone(d, Journal);
    var d1 := ExecAll(d, first);
    RepairDone(d1, Failed);
    ExecAppend(d, first, second);
    forall d' | KilledDuring(d, first + second, d') ensures Settled(d', journal, failed, checkpoint) {
      KilledInStages(d, first, second, d');
    }
  }

  // ---------- Stage 3: the checkpoint of the opened outbox ----------

  /** Replacing an untrusted checkpoint by the one open computes does not change the view. */
  lemma OpenedCheckpointKeepsView(journal: Bytes, failed: Bytes, loaded: CheckpointState)
    ensures var lines := Lines(journal);
            var k := ConfirmedLines(lines, loaded.offset);
            QueueOf(journal, failed, CheckpointState(|Frame(lines[..k])|, loaded.journalBaseCount, k)) ==
            QueueOf(journal, failed, loaded)
  {
    hide Lines, DecodeAll, DecodeFailedAll, Boundary;
    var lines := Lines(journal);
    var k := ConfirmedLines(lines, loaded.offset);
    BoundaryOfPrefix(lines, k);
  }

  lemma LoadWritten(d: Disk, state: CheckpointState)
    ensures LoadCheckpoint(WithDoc(d, Checkpoint, DocOf(state))) == state
  {
  }

  lemma FinalWrites(d: Disk, state: CheckpointState)
    requires Manifest !in d.docs && Compact !in d.text
    requires QueueOf(Read(d, Journal), Read(d, Failed), state) == View(d)
    ensures var ops := AtomicWrite(Checkpoint, DocOf(state)) + [OpenAppend(Journal)];
            var d3 := ExecAll(d, ops);
            && d3 == WithText(WithDoc(d, Checkpoint, DocOf(state)), Journal, Read(d, Journal))
            && View(d3) == View(d)
            && (forall d' :: KilledDuring(d, ops, d') ==> View(d') == View(d))
  {
    hide QueueOf;
    var write := AtomicWrite(Checkpoint, DocOf(state));
    var d2 := ExecAll(d, write);
    AtomicWriteDone(d, Checkpoint, DocOf(state));
    LoadWritten(d, state);
    ExecAppend(d, write, [OpenAppend(Journal)]);
    ExecOne(d2, OpenAppend(Journal));
    forall d' | KilledDuring(d, write + [OpenAppend(Journal)], d') ensures View(d') == View(d) {
      KilledInStages(d, write, [OpenAppend(Journal)], d');
      if KilledDuring(d, write, d') {
        AtomicWriteKilled(d, Checkpoint, DocOf(state), d');
      } else {
        KilledDuringOne(d2, OpenAppend(Journal), d');
      }
    }
  }

  // ---------- Open as a whole ----------

  /** Everything before the final writes. */
  function PrepareOps(d: Disk): seq<FileOp>
    requires ManifestUsable(d)
  {
    FinishCompactionOps(d) + (RepairOps(Journal, SettledJournal(d)) + RepairOps(Failed, Read(d, Failed)))
  }

  lemma Prepared(d: Disk)
    requires ManifestUsable(d)
    ensures var d2 := ExecAll(d, PrepareOps(d));
            && Settled(d2, Lines(SettledJournal(d)), Lines(Read(d, Failed)), SettledCheckpoint(d))
            && Tail(Read(d2, Journal)) == [] && Tail(Read(d2, Failed)) == []
            && (forall d' :: KilledDuring(d, PrepareOps(d), d') ==> View(d') == View(d))
  {
    hide View;
    var finish := FinishCompactionOps(d);
    var repair := RepairOps(Journal, SettledJournal(d)) + RepairOps(Failed, Read(d, Failed));
    var d1 := ExecAll(d, finish);
    FinishCompactionDone(d);
    assert SettledJournal(d) == Read(d1, Journal) && Read(d, Failed) == Read(d1, Failed);
    RepairBothDone(d1, Lines(SettledJournal(d)), Lines(Read(d, Failed)), SettledCheckpoint(d));
    ExecAppend(d, finish, repair);
    forall d' | KilledDuring(d, finish + repair, d') ensures View(d') == View(d) {
      KilledInStages(d, finish, repair, d');
      if KilledDuring(d, finish, d') {
        FinishCompactionKilled(d, d');
        SameSettledView(d, d');
      } else {
        SettledView(d, d');
      }
    }
  }

  /**
   * Killing open anywhere changes nothing: for every directory whatsoever, sound or
   * damaged, the next open recovers the same queue or refuses with the same error.
   */
  lemma OpenKilled(d: Disk, d': Disk)
    requires KilledDuring(d, OpenOps(d), d')
    ensures View(d') == View(d)
  {
    if ManifestUsable(d) {
      Prepared(d);
      if View(d).Ok? {
        var d2 := ExecAll(d, PrepareOps(d));
        OpenSplit(d);
        hide OpenOps, PrepareOps, QueueOf, Lines, Tail, Frame, OpenedCheckpoint;
        SettledView(d, d2);
        OpenedStateKeepsView(d, d2);
        FinalWrites(d2, OpenedCheckpoint(d));
        KilledInStages(d, PrepareOps(d), FinalOps(d), d');
      } else {
        assert OpenOps(d) == PrepareOps(d) + [];
        KilledInStages(d, PrepareOps(d), [], d');
        if !KilledDuring(d, PrepareOps(d), d') {
          CompletedIsReachable(d, PrepareOps(d));
        }
      }
    }
  }

  lemma OpenedStateKeepsView(d: Disk, d2: Disk)
    requires ManifestUsable(d)
    requires Settled(d2, Lines(SettledJournal(d)), Lines(Read(d, Failed)), SettledCheckpoint(d))
    ensures QueueOf(Read(d2, Journal), Read(d2, Failed), OpenedCheckpoint(d)) == View(d2)
  {
    hide QueueOf, Lines;
    OpenedCheckpointKeepsView(Read(d2, Journal), Read(d2, Failed), LoadCheckpoint(d2));
  }

  /** Open that runs to its end leaves a repaired directory with the same view. */
  lemma OpenDone(d: Disk)
    requires View(d).Ok?
    ensures var d3 := ExecAll(d, OpenOps(d));
            var lines := Lines(SettledJournal(d));
            && View(d3) == View(d)
            && Manifest !in d3.docs && Compact !in d3.text
            && Journal in d3.text && d3.text[Journal] == Frame(lines)
            && Lines(Read(d3, Failed)) == Lines(Read(d, Failed)) && Tail(Read(d3, Failed)) == []
            && Checkpoint in d3.docs && d3.docs[Checkpoint] == DocOf(OpenedCheckpoint(d))
  {
    hide *;
    ViewOkUsable(d);
    OpenSplit(d);
    Prepared(d);
    var d2 := ExecAll(d, PrepareOps(d));
    SettledView(d, d2);
    OpenedStateKeepsView(d, d2);
    SettledUnmanifested(d2, Lines(SettledJournal(d)), Lines(Read(d, Failed)), SettledCheckpoint(d));
    FinalWrites(d2, OpenedCheckpoint(d));
    ExecAppend(d, PrepareOps(d), FinalOps(d));
    SplitIsFrame(Read(d2, Journal));
    FinalDisk(d2, OpenedCheckpoint(d), Lines(SettledJournal(d)));
  }

  lemma ViewOkUsable(d: Disk)
    ensures View(d).Ok? ==> ManifestUsable(d)
    ensures ManifestUsable(d) ==>
              FinalOps(d) == AtomicWrite(Checkpoint, DocOf(OpenedCheckpoint(d))) + [OpenAppend(Journal)]
  {
    hide ManifestUsable, QueueOf, OpenedCheckpoint;
  }

  lemma SettledUnmanifested(d: Disk, journal: seq<Bytes>, failed: seq<Bytes>, checkpoint: CheckpointState)
    requires Settled(d, journal, failed, checkpoint)
    ensures Manifest !in d.docs && Compact !in d.text
    ensures Lines(Read(d, Journal)) == journal && Lines(Read(d, Failed)) == failed
  {
    hide Lines;
  }

  lemma FinalDisk(d: Disk, state: CheckpointState, lines: seq<Bytes>)
    requires Manifest !in d.docs && Compact !in d.text
    requires Read(d, Journal) == Frame(lines) + []
    ensures var d3 := WithText(WithDoc(d, Checkpoint, DocOf(state)), Journal, Read(d, Journal));
            && Manifest !in d3.docs && Compact !in d3.text
            && Journal in d3.text && d3.text[Journal] == Frame(lines)
            && Read(d3, Failed) == Read(d, Failed)
            && Checkpoint in d3.docs && d3.docs[Checkpoint] == DocOf(state)
  {
    hide Frame;
  }

  function FinalOps(d: Disk): seq<FileOp>
    requires ManifestUsable(d)
  {
    AtomicWrite(Checkpoint, DocOf(OpenedCheckpoint(d))) + [OpenAppend(Journal)]
  }

  lemma OpenSplit(d: Disk)
    requires View(d).Ok?
    ensures OpenOps(d) == PrepareOps(d) + FinalOps(d)
  {
    hide FinishCompactionOps, RepairOps, OpenedCheckpoint;
  }

  /** Successive opens, each killed somewhere. */
  ghost predicate KilledOpens(run: seq<Disk>) {
    run != [] && forall i :: 0 <= i < |run| - 1 ==> KilledDuring(run[i], OpenOps(run[i]), run[i + 1])
  }

  /** Recovery may itself be killed any number of times. */
  lemma {:induction false} RepeatedlyKilledOpen(run: seq<Disk>)
    requires KilledOpens(run)
    ensures View(run[|run| - 1]) == View(run[0])
    decreases |run|
  {
    if |run| > 1 {
      var last := |run| - 1;
      OpenKilled(run[last - 1], run[last]);
      RepeatedlyKilledOpen(run[..last]);
    }
  }
}
