/** The stages of opening a directory, as methods on an explicit file system. */
module Opening {
  import opened Basics
  import opened Codec
  import opened Disk
  import opened FailedCache
  import opened Framing
  import opened JournalFiles
  import opened OutboxModel
  import opened Recovery

  /** The directory, with a log of the operations performed on it since it was handed over. */
  class FileSystem {
    var disk: Disk
    ghost var log: seq<FileOp>

    constructor (d: Disk)
      ensures disk == d && log == []
    {
      disk := d;
      log := [];
    }

    /** Performs one file step and logs it. */
    method Perform(op: FileOp)
      modifies this
      ensures disk == Exec(old(disk), op)
      ensures log == old(log) + [op]
    {
      disk := Exec(disk, op);
      log := log + [op];
    }

    /** writeAtomicJson */
    method WriteAtomicJson(target: DocFile, doc: Doc)
      modifies this
      ensures disk == ExecAll(old(disk), AtomicWrite(target, doc))
      ensures log == old(log) + AtomicWrite(target, doc)
    {
      ghost var d := disk;
      Perform(WriteTmp(target, doc));
      Perform(CommitTmp(target));
      ExecMore(d, [WriteTmp(target, doc)], CommitTmp(target));
      ExecOne(d, WriteTmp(target, doc));
    }
  }

  lemma ExecMore(d: Disk, ops: seq<FileOp>, op: FileOp)
    ensures ExecAll(d, ops + [op]) == Exec(ExecAll(d, ops), op)
  {
    ExecAppend(d, ops, [op]);
    ExecOne(ExecAll(d, ops), op);
  }

  // ---------- Finishing a compaction and repairing tails ----------

  /** recoverCompaction: finishes an interrupted compaction, or refuses an unusable manifest untouched. */
  method RecoverCompaction(fs: FileSystem) returns (ok: bool)
    modifies fs
    ensures ok <==> ManifestUsable(old(fs.disk))
    ensures !ok ==> fs.disk == old(fs.disk) && fs.log == old(fs.log)
    ensures ok ==> fs.disk == ExecAll(old(fs.disk), FinishCompactionOps(old(fs.disk)))
    ensures ok ==> fs.log == old(fs.log) + FinishCompactionOps(old(fs.disk))
  {
    ghost var d := fs.disk;
    ghost var log := fs.log;
    assert log + [] == log;
    if Manifest !in fs.disk.docs {
      if Compact in fs.disk.text {
        fs.Perform(UnlinkText(Compact));
        ExecOne(d, UnlinkText(Compact));
      }
      return true;
    }
    match ManifestState(fs.disk.docs[Manifest]) {
      case None =>
        return false;
      case Some(state) =>
        ghost var swap := if Compact in d.text then [RenameText(Compact, Journal)] else [];
        if Compact in fs.disk.text {
          fs.Perform(RenameText(Compact, Journal));
          ExecOne(d, RenameText(Compact, Journal));
        }
        fs.WriteAtomicJson(Checkpoint, DocOf(state));
        ExecAppend(d, swap, AtomicWrite(Checkpoint, DocOf(state)));
        fs.Perform(UnlinkDoc(Manifest));
        ExecMore(d, swap + AtomicWrite(Checkpoint, DocOf(state)), UnlinkDoc(Manifest));
        assert log + swap + AtomicWrite(Checkpoint, DocOf(state)) + [UnlinkDoc(Manifest)]
            == log + (swap + AtomicWrite(Checkpoint, DocOf(state)) + [UnlinkDoc(Manifest)]);
        return true;
    }
  }

  /** truncateIncompleteTail on one journal file. */
  method TruncateIncompleteTail(fs: FileSystem, f: TextFile) returns (truncated: nat)
    modifies fs
    ensures fs.disk == ExecAll(old(fs.disk), RepairOps(f, Read(old(fs.disk), f)))
    ensures fs.log == old(fs.log) + RepairOps(f, Read(old(fs.disk), f))
    ensures truncated == |RepairOps(f, Read(old(fs.disk), f))|
  {
    hide Tail;
    ghost var d := fs.disk;
    assert fs.log + [] == fs.log;
    EmptyFileSound();
    if f !in fs.disk.text {
      return 0;
    }
    var content := fs.disk.text[f];
    var length := RepairedLength(content, BLOCK_BYTES);
    SplitIsFrame(content);
    if length == |content| {
      return 0;
    }
    fs.Perform(Truncate(f, length));
    ExecOne(d, Truncate(f, length));
    return 1;
  }

  lemma EmptyFileSound()
    ensures Tail([]) == [] && Lines([]) == []
  {
    SplitUncons([]);
  }

  /** Everything open does before it reads the journals. */
  method Prepare(fs: FileSystem) returns (usable: bool, truncated: nat)
    modifies fs
    ensures usable <==> ManifestUsable(old(fs.disk))
    ensures !usable ==> fs.disk == old(fs.disk) && fs.log == old(fs.log)
    ensures usable ==> fs.disk == ExecAll(old(fs.disk), PrepareOps(old(fs.disk)))
    ensures usable ==> fs.log == old(fs.log) + PrepareOps(old(fs.disk))
  {
    hide *;
    ghost var (d, log) := (fs.disk, fs.log);
    truncated := 0;
    usable := RecoverCompaction(fs);
    if usable {
      ghost var d1 := fs.disk;
      FinishCompactionDone(d);
      SettledContent(d, d1);
      truncated := TruncateIncompleteTail(fs, Journal);
      ghost var first := RepairOps(Journal, SettledJournal(d));
      ghost var second := RepairOps(Failed, Read(d, Failed));
      RepairDone(d1, Journal);
      var _ := TruncateIncompleteTail(fs, Failed);
      ExecAppend(d1, first, second);
      ExecAppend(d, FinishCompactionOps(d), first + second);
      PrepareOpsAre(d);
      assert log + FinishCompactionOps(d) + first + second == log + (FinishCompactionOps(d) + (first + second));
    }
  }

  lemma SettledContent(d: Disk, d1: Disk)
    requires SameSettled(d, d1) && Manifest !in d1.docs
    ensures Read(d1, Journal) == SettledJournal(d) && Read(d1, Failed) == Read(d, Failed)
  {
  }

  lemma PrepareOpsAre(d: Disk)
    requires ManifestUsable(d)
    ensures PrepareOps(d) ==
            FinishCompactionOps(d) + (RepairOps(Journal, SettledJournal(d)) + RepairOps(Failed, Read(d, Failed)))
  {
    hide FinishCompactionOps, RepairOps;
  }

  // ---------- Rebuilding the memory from journal and checkpoint ----------

  /** The memory that trusts a checkpoint exactly when it falls on an entry boundary. */
  function RestoredMemory(lines: seq<Bytes>, checkpoint: CheckpointState): Memory
    requires DecodeAll(lines).Some?
  {
    var k := ConfirmedLines(lines, checkpoint.offset);
    DecodeAllSlice(lines, k);
    Memory(Loaded(lines[k..]), |Frame(lines[..k])|, checkpoint.journalBaseCount, k, |lines|)
  }

  function ToPending(entry: JournalEntry): PendingEntry {
    PendingEntry(entry.event, entry.bytes, entry.eventBytes)
  }

  lemma EntryUncons(lines: seq<Bytes>, start: nat)
    requires DecodeAll(lines).Some? && lines != []
    ensures DecodeAll(lines[1..]).Some?
    ensures EntriesFrom(lines, start) ==
              [EntriesFrom(lines, start)[0]] + EntriesFrom(lines[1..], start + |lines[0]| + 1)
    ensures Loaded(lines) == [ToPending(EntriesFrom(lines, start)[0])] + Loaded(lines[1..])
  {
    hide Decode, Encode;
  }

  /** The i-th entries of a non-empty journal, split into the first and the others. */
  lemma EntryUnconsTail(lines: seq<Bytes>, start: nat, i: nat)
    requires DecodeAll(lines).Some? && i < |lines|
    ensures DecodeAll(lines[1..]).Some?
    ensures i > 0 ==> EntriesFrom(lines, start)[i] == EntriesFrom(lines[1..], start + |lines[0]| + 1)[i - 1]
                      && Loaded(lines)[i] == Loaded(lines[1..])[i - 1]
    ensures Loaded(lines)[0] == ToPending(EntriesFrom(lines, start)[0])
  {
    hide *;
    EntryUncons(lines, start);
  }

  lemma {:induction false} LoadedAt(lines: seq<Bytes>, start: nat, k: nat, i: nat)
    requires DecodeAll(lines).Some? && k <= i < |lines|
    ensures DecodeAll(lines[k..]).Some?
    ensures Loaded(lines[k..])[i - k] == ToPending(EntriesFrom(lines, start)[i])
    decreases i
  {
    hide *;
    DecodeAllSlice(lines, k);
    EntryUnconsTail(lines, start, i);
    if k > 0 {
      assert lines[k..] == lines[1..][k - 1..];
      LoadedAt(lines[1..], start + |lines[0]| + 1, k - 1, i - 1);
    } else {
      assert lines[0..] == lines && lines[1..][0..] == lines[1..];
      if i > 0 {
        LoadedAt(lines[1..], start + |lines[0]| + 1, 0, i - 1);
      }
    }
  }

  lemma FrameLonger(lines: seq<Bytes>, i: nat, j: nat)
    requires i <= j <= |lines|
    ensures |Frame(lines[..i])| <= |Frame(lines[..j])|
    ensures i < j ==> |Frame(lines[..i])| < |Frame(lines[..j])|
  {
    assert lines[..j] == lines[..i] + lines[i..j];
    FrameAppend(lines[..i], lines[i..j]);
  }

  /** Entry i lies wholly before the k-th boundary exactly when i < k, and wholly behind it otherwise. */
  lemma EntryAgainstBoundary(lines: seq<Bytes>, k: nat, i: nat)
    requires DecodeAll(lines).Some? && k <= |lines| && i < |lines|
    ensures var (entry, offset) := (EntriesFrom(lines, 0)[i], |Frame(lines[..k])|);
            && (entry.end <= offset <==> i < k)
            && (entry.start >= offset <==> i >= k)
  {
    hide EntriesFrom, Frame;
    EntrySpansLine(lines, 0, i);
    if i < k {
      FrameLonger(lines, i + 1, k);
      FrameLonger(lines, i, k);
    } else {
      FrameLonger(lines, k, i);
      FrameLonger(lines, k, i + 1);
    }
  }

  /** The ends of the entries, with zero, are exactly the boundaries of the journal. */
  lemma EndsAreBoundaries(lines: seq<Bytes>, offset: nat)
    requires DecodeAll(lines).Some?
    ensures Boundary(lines, offset).Some? <==>
            offset == 0 || exists i :: 0 <= i < |lines| && EntriesFrom(lines, 0)[i].end == offset
    ensures Boundary(lines, offset).Some? ==> offset <= |Frame(lines)|
  {
    hide EntriesFrom, Frame;
    BoundaryIsPrefix(lines, offset);
    if Boundary(lines, offset).Some? {
      var k := Boundary(lines, offset).value;
      FrameLonger(lines, k, |lines|);
      assert lines[..|lines|] == lines;
      if k > 0 {
        EntrySpansLine(lines, 0, k - 1);
      } else {
        NoFrame(lines);
      }
    }
    forall i | 0 <= i < |lines| && EntriesFrom(lines, 0)[i].end == offset ensures Boundary(lines, offset).Some? {
      EntrySpansLine(lines, 0, i);
      BoundaryOfPrefix(lines, i + 1);
    }
  }

  lemma NoFrame(lines: seq<Bytes>)
    ensures |Frame(lines[..0])| == 0 && Boundary(lines, 0) == Some(0)
  {
  }

  /** The constructor's reading of the journal: boundary check, confirmed count and pending filter. */
  method Restore(entries: seq<JournalEntry>, checkpoint: CheckpointState, size: nat, ghost lines: seq<Bytes>)
    returns (m: Memory)
    requires DecodeAll(lines).Some? && entries == EntriesFrom(lines, 0) && size == |Frame(lines)|
    ensures m == RestoredMemory(lines, checkpoint)
  {
    hide *;
    var boundaries := {0} + (set i | 0 <= i < |entries| :: entries[i].end);
    var offset := checkpoint.offset;
    EndsAreBoundaries(lines, offset);
    ghost var k := ConfirmedLines(lines, offset);
    if offset > size || offset !in boundaries {
      offset := 0;
    }
    ConfirmedOffset(lines, checkpoint.offset);
    var confirmed := 0;
    var pending: seq<PendingEntry> := [];
    DecodeAllSlice(lines, k);
    var i := 0;
    while i < |entries|
      invariant 0 <= i <= |entries|
      invariant confirmed == if i < k then i else k
      invariant |pending| == if i < k then 0 else i - k
      invariant forall j :: 0 <= j < |pending| ==> pending[j] == Loaded(lines[k..])[j]
    {
      EntryAgainstBoundary(lines, k, i);
      if entries[i].end <= offset {
        confirmed := confirmed + 1;
      }
      if entries[i].start >= offset {
        LoadedAt(lines, 0, k, i);
        PendingIs(entries[i]);
        pending := pending + [PendingEntry(entries[i].event, entries[i].bytes, entries[i].eventBytes)];
      }
      i := i + 1;
    }
    assert pending == Loaded(lines[k..]);
    m := Memory(pending, offset, checkpoint.journalBaseCount, confirmed, |entries|);
    RestoredMemoryIs(lines, checkpoint);
  }

  lemma PendingIs(entry: JournalEntry)
    ensures ToPending(entry) == PendingEntry(entry.event, entry.bytes, entry.eventBytes)
  {
  }

  lemma ConfirmedOffset(lines: seq<Bytes>, offset: nat)
    ensures var k := ConfirmedLines(lines, offset);
            |Frame(lines[..k])| == if Boundary(lines, offset).Some? then offset else 0
  {
    hide Boundary, Frame;
    BoundaryIsPrefix(lines, offset);
    NoFrame(lines);
  }

  lemma RestoredMemoryIs(lines: seq<Bytes>, checkpoint: CheckpointState)
    requires DecodeAll(lines).Some?
    ensures var k := ConfirmedLines(lines, checkpoint.offset);
            DecodeAll(lines[k..]).Some? &&
            RestoredMemory(lines, checkpoint) ==
              Memory(Loaded(lines[k..]), |Frame(lines[..k])|, checkpoint.journalBaseCount, k, |lines|)
  {
    hide ConfirmedLines, Loaded, Frame;
    DecodeAllSlice(lines, ConfirmedLines(lines, checkpoint.offset));
  }

  /** The ways open can end, in the order in which the source checks them. */
  lemma OpenCases(d: Disk)
    ensures !ManifestUsable(d) ==> View(d) == Err(BadManifest) && OpenOps(d) == []
    ensures ManifestUsable(d) && View(d).Err? ==> OpenOps(d) == PrepareOps(d)
    ensures ManifestUsable(d) && DecodeAll(Lines(SettledJournal(d))).None? ==> View(d) == Err(BadJournal)
    ensures ManifestUsable(d) && DecodeAll(Lines(SettledJournal(d))).Some? ==>
              (View(d) == Err(BadFailedJournal) <==> DecodeFailedAll(Lines(Read(d, Failed))).None?) &&
              (View(d).Ok? <==> DecodeFailedAll(Lines(Read(d, Failed))).Some?)
    ensures ManifestUsable(d) && View(d).Ok? ==>
              OpenOps(d) ==
              PrepareOps(d) + (AtomicWrite(Checkpoint, DocOf(OpenedCheckpoint(d))) + [OpenAppend(Journal)])
  {
    hide FinishCompactionOps, RepairOps, OpenedCheckpoint, Lines, DecodeAll, DecodeFailedAll, ConfirmedLines;
    if ManifestUsable(d) {
      assert PrepareOps(d) + [] == PrepareOps(d);
    }
  }

  lemma RestoredCheckpoint(d: Disk)
    requires ManifestUsable(d) && DecodeAll(Lines(SettledJournal(d))).Some?
    ensures RestoredMemory(Lines(SettledJournal(d)), SettledCheckpoint(d)).State() == OpenedCheckpoint(d)
  {
    hide Lines, ConfirmedLines, Loaded, Frame;
  }

  /** The memory with which a directory that can be opened is opened. */
  function OpenedMem(d: Disk): Memory
    requires View(d).Ok?
  {
    OpenCases(d);
    RestoredMemory(Lines(SettledJournal(d)), SettledCheckpoint(d))
  }

  /** A completed open leaves files and memory in agreement, with the view of the directory before it. */
  lemma OpenedSync(d: Disk)
    requires View(d).Ok?
    ensures var (d3, m) := (ExecAll(d, OpenOps(d)), OpenedMem(d));
            && Synced(d3, m) && Ok(QueueOfMemory(d3, m)) == View(d) == View(d3)
            && Tail(Read(d3, Failed)) == []
  {
    OpenCases(d);
    hide Lines, Tail, Frame, DecodeAll, DecodeFailedAll, Loaded, ConfirmedLines, OpenOps, View, QueueOf;
    var lines := Lines(SettledJournal(d));
    var m := OpenedMem(d);
    OpenDone(d);
    RestoredCheckpoint(d);
    RestoredMemoryIs(lines, SettledCheckpoint(d));
    SplitIsFrame(SettledJournal(d));
    MakeSynced(ExecAll(d, OpenOps(d)), m, lines);
    SyncedAccounting(ExecAll(d, OpenOps(d)), m);
  }
}
