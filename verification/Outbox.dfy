/** The outbox object: an in-memory queue over the journal files of one directory. */
module Outbox {
  import opened Basics
  import opened Batching
  import opened Codec
  import opened Disk
  import opened FailedCache
  import opened Framing
  import opened JournalFiles
  import opened Opening
  import opened OutboxModel
  import opened Recovery

  datatype OpenFailure = InvalidCacheLimit | Unopenable(error: OpenError)

  datatype QuarantineFailure = ReopenRequired | WriteFailed

  /** How recording failures fails: the file cannot be opened, or the write stops after some bytes. */
  datatype WriteFault = NotOpened | CutAfter(bytes: nat)

  class Outbox {
    const fs: FileSystem
    const failedIdCacheLimit: nat
    var pending: seq<PendingEntry>
    var checkpointOffset: nat
    var journalBaseCount: nat
    var confirmedSinceCompaction: nat
    var journalEntryCount: nat
    var failedEventIds: set<Bytes>
    var failedUniqueCount: nat
    var failedWriteFault: bool
    var closed: bool
    const truncatedLines: nat

    function Mem(): Memory
      reads this
    {
      Memory(pending, checkpointOffset, journalBaseCount, confirmedSinceCompaction, journalEntryCount)
    }

    /** Memory and files agree, and the failed-id cache is exact unless a failed write made it stale. */
    ghost predicate Valid()
      reads this, fs
    {
      && Synced(fs.disk, Mem())
      && (!failedWriteFault ==> FailedInSync(fs.disk, failedEventIds, failedUniqueCount, failedIdCacheLimit))
    }

    /** The abstract queue: pending events, number ever recorded, ids of the failed records. */
    ghost function Contents(): Queue
      requires Valid()
      reads this, fs
    {
      QueueOfMemory(fs.disk, Mem())
    }

    constructor Restored(fs: FileSystem, limit: nat, memory: Memory, cache: set<Bytes>, uniqueCount: nat,
        truncated: nat)
      ensures this.fs == fs && failedIdCacheLimit == limit && Mem() == memory
      ensures failedEventIds == cache && failedUniqueCount == uniqueCount
      ensures !failedWriteFault && !closed && truncatedLines == truncated
    {
      this.fs := fs;
      failedIdCacheLimit := limit;
      pending := memory.pending;
      checkpointOffset := memory.checkpointOffset;
      journalBaseCount := memory.journalBaseCount;
      confirmedSinceCompaction := memory.confirmedSinceCompaction;
      journalEntryCount := memory.journalEntryCount;
      failedEventIds := cache;
      failedUniqueCount := uniqueCount;
      failedWriteFault := false;
      closed := false;
      truncatedLines := truncated;
    }

    /**
     * Opens a directory in any state. It refuses exactly when the view is an error, and
     * otherwise holds the queue the directory stood for. A kill at any point of the
     * performed operations leaves a directory with the same view.
     */
    static method Open(fs: FileSystem, cacheLimit: int := FAILED_ID_CACHE_LIMIT)
      returns (r: Result<Outbox, OpenFailure>)
      modifies fs
      ensures cacheLimit < 0 ==> r == Err(InvalidCacheLimit) && fs.disk == old(fs.disk) && fs.log == old(fs.log)
      ensures cacheLimit >= 0 ==> fs.log == old(fs.log) + OpenOps(old(fs.disk))
      ensures cacheLimit >= 0 ==> fs.disk == ExecAll(old(fs.disk), OpenOps(old(fs.disk)))
      ensures cacheLimit >= 0 ==> (r.Ok? <==> View(old(fs.disk)).Ok?)
      ensures cacheLimit >= 0 && r.Err? ==> r.error == Unopenable(View(old(fs.disk)).error)
      ensures r.Ok? ==>
                && fresh(r.value) && r.value.fs == fs && r.value.failedIdCacheLimit == cacheLimit
                && r.value.Valid() && !r.value.closed && !r.value.failedWriteFault
                && Ok(r.value.Contents()) == View(old(fs.disk))
                && |r.value.failedEventIds| == Min(cacheLimit, |Elements(r.value.Contents().failed)|)
                && r.value.failedUniqueCount == |Elements(r.value.Contents().failed)|
      ensures forall d' | KilledDuring(old(fs.disk), fs.log[|old(fs.log)|..], d') :: View(d') == View(old(fs.disk))
    {
      hide *;
      ghost var (d, log) := (fs.disk, fs.log);
      if cacheLimit < 0 {
        KilledIdle(d, log);
        return Err(InvalidCacheLimit);
      }
      OpenCases(d);
      KilledOpening(d, log);
      var usable, truncated := Prepare(fs);
      if !usable {
        assert log + [] == log;
        ExecNothing(d);
        return Err(Unopenable(BadManifest));
      }
      ghost var d2 := fs.disk;
      Prepared(d);
      SettledUnmanifested(d2, Lines(SettledJournal(d)), Lines(Read(d, Failed)), SettledCheckpoint(d));
      var journal := Read(fs.disk, Journal);
      var loaded := LoadJournal(journal);
      if loaded.Err? {
        return Err(Unopenable(BadJournal));
      }
      var ok, cache, uniqueCount := LoadFailedEventIds(Read(fs.disk, Failed), cacheLimit);
      FailedScanDecodes(Read(d2, Failed));
      if !ok {
        return Err(Unopenable(BadFailedJournal));
      }
      RepairedIsFrame(journal);
      var memory := Restore(loaded.value, LoadCheckpoint(fs.disk), |journal|, Lines(journal));
      LoadSettled(d2, Lines(SettledJournal(d)), Lines(Read(d, Failed)), SettledCheckpoint(d));
      RestoredCheckpoint(d);
      fs.WriteAtomicJson(Checkpoint, DocOf(memory.State()));
      fs.Perform(OpenAppend(Journal));
      OpenLast(d, d2, memory.State());
      assert log + PrepareOps(d) + AtomicWrite(Checkpoint, DocOf(memory.State())) + [OpenAppend(Journal)]
          == log + (PrepareOps(d) + (AtomicWrite(Checkpoint, DocOf(memory.State())) + [OpenAppend(Journal)]));
      OpenedMemory(d, fs.disk, cache, uniqueCount, cacheLimit);
      var outbox := new Outbox.Restored(fs, cacheLimit, memory, cache, uniqueCount, truncated);
      outbox.ValidWhen();
      CacheSizes(outbox.Contents().failed, cache, uniqueCount, cacheLimit);
      return Ok(outbox);
    }

    /**
     * appendMany: returns only after the lines are on disk, behind everything recorded
     * before. A kill keeps the old queue and a prefix of the interrupted call.
     */
    method AppendMany(events: seq<Event>)
      requires Valid() && !closed
      modifies `pending, `journalEntryCount, fs
      ensures Valid() && Mem() == AppendMemory(old(Mem()), events)
      ensures Contents() == old(Contents()).(pending := old(Contents().pending) + events,
                                             recordedCount := old(Contents().recordedCount) + |events|)
      ensures fs.log == old(fs.log) + AppendOps(events) && fs.disk == ExecAll(old(fs.disk), AppendOps(events))
      ensures KillKeepsPrefix(old(fs.disk), fs.log[|old(fs.log)|..], old(Contents()), events)
    {
      hide *;
      ghost var (d, m, log) := (fs.disk, Mem(), fs.log);
      ValidWhen();
      MemIs();
      AppendCases(events);
      AppendEffect(d, m, events, log, failedEventIds, failedUniqueCount, failedIdCacheLimit);
      if |events| > 0 {
        fs.Perform(Append(Journal, Frame(EncodeAll(events))));
        ExecOne(d, Append(Journal, Frame(EncodeAll(events))));
      } else {
        assert log + [] == log;
        ExecNothing(d);
      }
      PushAll(events);
      MemIs();
      ValidWhen();
    }

    /** The push loop of appendMany; it does nothing for an empty call. */
    method PushAll(events: seq<Event>)
      modifies `pending, `journalEntryCount
      ensures pending == old(pending) + Fresh(events)
      ensures journalEntryCount == old(journalEntryCount) + |events|
    {
      hide *;
      ghost var before := pending;
      var index := 0;
      assert before + Fresh(events)[..0] == before;
      while index < |events|
        invariant 0 <= index <= |events|
        invariant pending == before + Fresh(events)[..index]
        invariant journalEntryCount == old(journalEntryCount)
      {
        var line := Encode(events[index]) + [NEWLINE];
        pending := pending + [PendingEntry(events[index], |line|, |Encode(events[index])|)];
        assert Fresh(events)[..index + 1] == Fresh(events)[..index] + [Fresh(events)[index]];
        index := index + 1;
      }
      assert Fresh(events)[..index] == Fresh(events);
      journalEntryCount := journalEntryCount + |events|;
    }

    /** peekBatch: the longest head of the pending events that fits, without removing it. */
    method PeekBatch(maxCount: nat, maxBytes: nat) returns (batch: seq<Event>)
      requires Valid()
      ensures batch == Contents().pending[..Head(Contents().pending, maxCount, maxBytes)]
    {
      hide *;
      ValidWhen();
      MemIs();
      ghost var events := EventsOf(pending);
      ghost var lines := JournalLines(fs.disk);
      SyncedLines(fs.disk, Mem());
      LoadedMeasured(lines[confirmedSinceCompaction..]);
      QueueIs(fs.disk, Mem());
      batch := [];
      var bytes := EMPTY_BATCH_BODY_BYTES;
      EmptyBody();
      HeadUnfold(events, maxCount, maxBytes, 0);
      while |batch| < |pending|
        invariant |batch| <= |pending| && batch == events[..|batch|]
        invariant bytes == BatchBodyByteLength(batch)
        invariant HeadLength(events, maxCount, maxBytes, |batch|) == Head(events, maxCount, maxBytes)
        decreases |pending| - |batch|
      {
        var entry := pending[|batch|];
        HeadUnfold(events, maxCount, maxBytes, |batch|);
        CapStep(batch, entry.event, maxCount, maxBytes);
        assert events[..|batch| + 1] == batch + [entry.event];
        if |batch| >= maxCount {
          return;
        }
        var additionalBytes := entry.eventBytes + (if |batch| == 0 then 0 else 1);
        if |batch| > 0 && bytes + additionalBytes > maxBytes {
          return;
        }
        batch := batch + [entry.event];
        bytes := bytes + additionalBytes;
      }
      HeadUnfold(events, maxCount, maxBytes, |batch|);
    }

    /** compact: a kill at any point keeps exactly the same queue. */
    method CompactJournal()
      requires Valid() && !closed
      modifies `pending, `checkpointOffset, `journalBaseCount, `confirmedSinceCompaction, `journalEntryCount,
          `closed, fs
      ensures Valid() && !closed && Mem() == CompactMemory(old(Mem()))
      ensures Contents() == old(Contents())
      ensures fs.log == old(fs.log) + CompactOps(old(Mem())) && fs.disk == ExecAll(old(fs.disk), CompactOps(old(Mem())))
      ensures forall d' | KilledDuring(old(fs.disk), fs.log[|old(fs.log)|..], d') :: View(d') == Ok(old(Contents()))
    {
      hide *;
      ghost var (d, m, log) := (fs.disk, Mem(), fs.log);
      ValidWhen();
      MemIs();
      SyncedFailed(d, m);
      CompactCrashes(d, m, log);
      CompactDone(d, m);
      CompactQueue(d, m);
      FailedKept(d, ExecAll(d, CompactOps(m)), failedEventIds, failedUniqueCount, failedIdCacheLimit);
      closed := true;
      var events := EventsOf(pending);
      var content := Frame(EncodeAll(events));
      var nextState := CheckpointState(0, journalBaseCount + confirmedSinceCompaction, 0);
      CompactOpsAre(m);
      SwapJournal(content, nextState);
      checkpointOffset := 0;
      journalBaseCount := nextState.journalBaseCount;
      confirmedSinceCompaction := 0;
      journalEntryCount := |pending|;
      pending := Fresh(events);
      closed := false;
      MemIs();
      ValidWhen();
    }

    /** The file steps of compact, in order. */
    method SwapJournal(content: Bytes, nextState: CheckpointState)
      modifies fs
      ensures var ops := [WriteText(Compact, content)] + AtomicWrite(Manifest, DocOf(nextState))
                         + [RenameText(Compact, Journal)]
                         + AtomicWrite(Checkpoint, DocOf(nextState)) + [UnlinkDoc(Manifest)];
              fs.log == old(fs.log) + ops && fs.disk == ExecAll(old(fs.disk), ops)
    {
      hide *;
      ghost var (d, log) := (fs.disk, fs.log);
      fs.Perform(WriteText(Compact, content));
      ExecOne(d, WriteText(Compact, content));
      ghost var ops := [WriteText(Compact, content)];
      fs.WriteAtomicJson(Manifest, DocOf(nextState));
      ExecAppend(d, ops, AtomicWrite(Manifest, DocOf(nextState)));
      ops := ops + AtomicWrite(Manifest, DocOf(nextState));
      assert fs.log == log + ops;
      fs.Perform(RenameText(Compact, Journal));
      ExecMore(d, ops, RenameText(Compact, Journal));
      ops := ops + [RenameText(Compact, Journal)];
      assert fs.log == log + ops;
      fs.WriteAtomicJson(Checkpoint, DocOf(nextState));
      ExecAppend(d, ops, AtomicWrite(Checkpoint, DocOf(nextState)));
      ops := ops + AtomicWrite(Checkpoint, DocOf(nextState));
      assert fs.log == log + ops;
      fs.Perform(UnlinkDoc(Manifest));
      ExecMore(d, ops, UnlinkDoc(Manifest));
      assert fs.log == log + (ops + [UnlinkDoc(Manifest)]);
    }

    /**
     * confirm: removes exactly the first count events, or refuses an impossible count
     * untouched. A kill leaves the queue before or after the confirmation, also while the
     * confirmation triggers a compaction.
     */
    method Confirm(count: int) returns (ok: bool)
      requires Valid() && !closed
      modifies `pending, `checkpointOffset, `journalBaseCount, `confirmedSinceCompaction, `journalEntryCount,
          `closed, fs
      ensures Valid() && !closed
      ensures ok <==> 0 <= count <= |old(Contents().pending)|
      ensures !ok ==> Mem() == old(Mem()) && fs.disk == old(fs.disk) && fs.log == old(fs.log)
      ensures ok ==> Mem() == ConfirmMemory(old(Mem()), count)
      ensures ok ==> Contents() == old(Contents()).(pending := old(Contents().pending)[count..])
      ensures ok ==> fs.log == old(fs.log) + ConfirmOps(old(Mem()), count)
      ensures ok ==> fs.disk == ExecAll(old(fs.disk), ConfirmOps(old(Mem()), count))
      ensures forall d' | KilledDuring(old(fs.disk), fs.log[|old(fs.log)|..], d') ::
                View(d') == Ok(old(Contents())) || View(d') == Ok(Contents())
    {
      hide *;
      ghost var (d, m, log) := (fs.disk, Mem(), fs.log);
      ValidWhen();
      MemIs();
      QueueIs(d, m);
      if count < 0 || count > |pending| {
        ConfirmIdle(d, m, log);
        return false;
      }
      ConfirmCrashes(d, m, count, log);
      ConfirmDone(d, m, count);
      ConfirmQueue(d, m, count);
      FailedKept(d, ExecAll(d, ConfirmOps(m, count)), failedEventIds, failedUniqueCount, failedIdCacheLimit);
      ConfirmCases(m, count);
      assert log + [] == log;
      ExecNothing(d);
      if count == 0 {
        return true;
      }
      AdvanceSync(d, m, count);
      var bytes := PendingBytes(pending[..count]);
      pending := pending[count..];
      checkpointOffset := checkpointOffset + bytes;
      confirmedSinceCompaction := confirmedSinceCompaction + count;
      MemIs();
      fs.WriteAtomicJson(Checkpoint, DocOf(Mem().State()));
      AtomicWriteDone(d, Checkpoint, DocOf(Mem().State()));
      FailedKept(d, fs.disk, failedEventIds, failedUniqueCount, failedIdCacheLimit);
      ghost var write := AtomicWrite(Checkpoint, DocOf(Mem().State()));
      assert write + [] == write;
      if checkpointOffset >= COMPACT_THRESHOLD_BYTES {
        ValidWhen();
        CompactJournal();
        ExecAppend(d, write, CompactOps(AdvanceMemory(m, count)));
        assert log + write + CompactOps(AdvanceMemory(m, count)) == log + (write + CompactOps(AdvanceMemory(m, count)));
      }
      ValidWhen();
      return true;
    }

    /**
     * quarantine: records every event whose id has no record yet, once. After a fault at
     * opening or writing the file the outbox refuses to quarantine until it is reopened.
     */
    method Quarantine(events: seq<Event>, detail: Bytes, fault: Option<WriteFault>)
      returns (r: Result<nat, QuarantineFailure>)
      requires Valid()
      modifies `failedEventIds, `failedUniqueCount, `failedWriteFault, fs
      ensures Valid() && Mem() == old(Mem())
      ensures old(failedWriteFault) ==>
                r == Err(ReopenRequired) && failedWriteFault && fs.log == old(fs.log) && fs.disk == old(fs.disk)
      ensures !old(failedWriteFault) ==>
                && r != Err(ReopenRequired)
                && (r == Err(WriteFailed) <==>
                      fault.Some? && NewFailures(events, Elements(old(Contents().failed))) != [])
      ensures r.Ok? ==>
                var failures := NewFailures(events, Elements(old(Contents().failed)));
                && r.value == |failures| && !failedWriteFault
                && Contents() == old(Contents()).(failed := old(Contents().failed) + IdsOf(failures))
                && fs.log == old(fs.log) + QuarantineOps(failures, detail)
                && fs.disk == ExecAll(old(fs.disk), QuarantineOps(failures, detail))
      ensures r == Err(WriteFailed) ==>
                var failures := NewFailures(events, Elements(old(Contents().failed)));
                && failedWriteFault && (fault == Some(NotOpened) ==> fs.log == old(fs.log) && fs.disk == old(fs.disk))
                && KilledDuring(old(fs.disk), QuarantineOps(failures, detail), fs.disk)
                && exists n: nat :: n <= |failures| &&
                     Contents() == old(Contents()).(failed := old(Contents().failed) + IdsOf(failures)[..n])
    {
      hide *;
      ghost var (d, m, log) := (fs.disk, Mem(), fs.log);
      ValidWhen();
      MemIs();
      QueueIs(d, m);
      if failedWriteFault {
        return Err(ReopenRequired);
      }
      FailedInSyncMeans(d, failedEventIds, failedUniqueCount, failedIdCacheLimit);
      ghost var ids := FailedIds(d);
      var failures := SelectFailures(Read(fs.disk, Failed), events, ids);
      assert log + [] == log;
      ExecNothing(d);
      QuarantineCases(failures, detail);
      IdsOfNothing(ids);
      if |failures| == 0 {
        return Ok(0);
      }
      var data := Frame(EncodeFailedAll(detail, failures));
      ExecOne(d, Append(Failed, data));
      if fault == Some(NotOpened) {
        failedWriteFault := true;
        MemIs();
        KilledAtOnce(d, QuarantineOps(failures, detail));
        var n := QuarantineKilled(d, m, failures, detail, d);
        ValidWhen();
        return Err(WriteFailed);
      }
      if fault.Some? {
        var written := data[..if fault.value.bytes < |data| then fault.value.bytes else |data|];
        fs.Perform(Append(Failed, written));
        failedWriteFault := true;
        MemIs();
        FaultIsKill(d, data, |written|);
        var n := QuarantineKilled(d, m, failures, detail, fs.disk);
        QueueIs(fs.disk, m);
        ValidWhen();
        return Err(WriteFailed);
      }
      fs.Perform(Append(Failed, data));
      ghost var d1 := fs.disk;
      CompletedIsReachable(d, QuarantineOps(failures, detail));
      var n := QuarantineKilled(d, m, failures, detail, fs.disk);
      SyncedFailed(d1, m);
      assert IdsOf(failures)[..n] == IdsOf(failures);
      NewFailuresCover(events, Elements(ids));
      CacheFailures(failures, ids);
      MemIs();
      FailedInSyncIs(fs.disk, failedEventIds, failedUniqueCount, failedIdCacheLimit);
      QueueIs(fs.disk, m);
      ValidWhen();
      return Ok(|failures|);
    }

    /** The bookkeeping loop of quarantine, once the records are on disk. */
    method CacheFailures(failures: seq<Event>, ghost ids: seq<Bytes>)
      requires CacheExact(ids, failedEventIds, failedUniqueCount, failedIdCacheLimit)
      requires Distinct(IdsOf(failures)) && forall e :: e in failures ==> e.eventId !in Elements(ids)
      modifies `failedEventIds, `failedUniqueCount
      ensures CacheExact(ids + IdsOf(failures), failedEventIds, failedUniqueCount, failedIdCacheLimit)
    {
      hide *;
      var i := 0;
      assert ids + IdsOf(failures)[..0] == ids;
      while i < |failures|
        invariant 0 <= i <= |failures|
        invariant CacheExact(ids + IdsOf(failures)[..i], failedEventIds, failedUniqueCount, failedIdCacheLimit)
      {
        FailureIsNew(ids, failures, i);
        failedEventIds := CacheFailedId(failedEventIds, failedIdCacheLimit, failures[i].eventId,
                                        ids + IdsOf(failures)[..i], failedUniqueCount);
        failedUniqueCount := failedUniqueCount + 1;
        assert ids + IdsOf(failures)[..i + 1] == ids + IdsOf(failures)[..i] + [failures[i].eventId];
        i := i + 1;
      }
      assert IdsOf(failures)[..i] == IdsOf(failures);
    }

    /** The filter of quarantine: unknown ids, each once per call. */
    method SelectFailures(file: Bytes, events: seq<Event>, ghost ids: seq<Bytes>) returns (failures: seq<Event>)
      requires ScanOf(file).1 == Complete && IdsAt(ScanOf(file).0) == ids
      requires CacheExact(ids, failedEventIds, failedUniqueCount, failedIdCacheLimit)
      ensures failures == NewFailures(events, Elements(ids))
    {
      hide *;
      failures := [];
      var seenThisCall: set<Bytes> := {};
      var i := 0;
      Unbounded(file);
      assert events[0..] == events && Elements(ids) + seenThisCall == Elements(ids);
      assert [] + NewFailures(events, Elements(ids)) == NewFailures(events, Elements(ids));
      while i < |events|
        invariant 0 <= i <= |events|
        invariant failures + NewFailures(events[i..], Elements(ids) + seenThisCall) ==
                    NewFailures(events, Elements(ids))
      {
        var id := events[i].eventId;
        ghost var known := Elements(ids) + seenThisCall;
        NewFailuresUnfold(events[i..], known);
        ElementsAre(ids);
        assert events[i..][1..] == events[i + 1..];
        var skip := id in seenThisCall;
        if !skip {
          skip := HasFailedId(file, failedEventIds, failedUniqueCount, id, None, ids, failedIdCacheLimit);
        }
        if !skip {
          assert known + {id} == Elements(ids) + (seenThisCall + {id});
          assert failures + ([events[i]] + NewFailures(events[i + 1..], known + {id}))
              == (failures + [events[i]]) + NewFailures(events[i + 1..], known + {id});
          seenThisCall := seenThisCall + {id};
          failures := failures + [events[i]];
        }
        i := i + 1;
      }
      NewFailuresUnfold(events[i..], Elements(ids) + seenThisCall);
      assert failures + [] == failures;
    }

    /** close: idempotent, touches no file. */
    method Close()
      modifies `closed
      ensures closed && Mem() == old(Mem())
    {
      if closed {
        return;
      }
      closed := true;
    }

    lemma MemIs()
      ensures Mem() == Memory(pending, checkpointOffset, journalBaseCount, confirmedSinceCompaction, journalEntryCount)
    {
    }

    /** Unfolds Valid and Contents for a caller that hides definitions. */
    lemma ValidWhen()
      ensures Valid() <==>
                && Synced(fs.disk, Mem())
                && (!failedWriteFault ==> FailedInSync(fs.disk, failedEventIds, failedUniqueCount, failedIdCacheLimit))
      ensures Valid() ==> Contents() == QueueOfMemory(fs.disk, Mem())
    {
      hide Synced, FailedInSync;
    }
  }

  /** The failed journal ends in a newline and the cache is exact for it. */
  ghost predicate FailedInSync(d: Disk, cache: set<Bytes>, uniqueCount: nat, limit: nat) {
    && Tail(Read(d, Failed)) == []
    && DecodeFailedAll(FailedLines(d)).Some?
    && CacheExact(FailedIds(d), cache, uniqueCount, limit)
  }

  lemma KilledIdle(d: Disk, log: seq<FileOp>)
    ensures forall d' | KilledDuring(d, log[|log|..], d') :: d' == d
  {
    assert log[|log|..] == [];
  }

  lemma KilledOpening(d: Disk, log: seq<FileOp>)
    ensures (log + OpenOps(d))[|log|..] == OpenOps(d)
    ensures forall d' | KilledDuring(d, OpenOps(d), d') :: View(d') == View(d)
  {
    forall d' | KilledDuring(d, OpenOps(d), d') ensures View(d') == View(d) {
      OpenKilled(d, d');
    }
  }

  lemma ExecNothing(d: Disk)
    ensures ExecAll(d, []) == d
  {
  }

  lemma FailedScanDecodes(file: Bytes)
    requires Tail(file) == []
    ensures ScanOf(file).1 == Complete <==> DecodeFailedAll(Lines(file)).Some?
    ensures ScanOf(file).1 == Complete ==> DecodeFailedAll(Lines(file)) == Some(IdsAt(ScanOf(file).0))
  {
    hide Tail, Lines, ScanLines, DecodeFailedAll;
    ScanDecodes(Lines(file), 0);
  }

  lemma RepairedIsFrame(file: Bytes)
    requires Tail(file) == []
    ensures file == Frame(Lines(file)) && AllNewlineFree(Lines(file))
  {
    hide Tail, Lines, Frame;
    SplitIsFrame(file);
    assert Frame(Lines(file)) + [] == Frame(Lines(file));
  }

  lemma LoadSettled(d: Disk, journal: seq<Bytes>, failed: seq<Bytes>, checkpoint: CheckpointState)
    requires Settled(d, journal, failed, checkpoint)
    ensures LoadCheckpoint(d) == checkpoint
  {
  }

  lemma OpenLast(d: Disk, d2: Disk, state: CheckpointState)
    requires ManifestUsable(d) && d2 == ExecAll(d, PrepareOps(d))
    ensures var write := AtomicWrite(Checkpoint, DocOf(state));
            Exec(ExecAll(d2, write), OpenAppend(Journal)) == ExecAll(d, PrepareOps(d) + (write + [OpenAppend(Journal)]))
  {
    hide PrepareOps, AtomicWrite;
    var write := AtomicWrite(Checkpoint, DocOf(state));
    ExecMore(d2, write, OpenAppend(Journal));
    ExecAppend(d, PrepareOps(d), write + [OpenAppend(Journal)]);
  }

  /** After a completed open, memory, files and cache agree. */
  lemma OpenedMemory(d: Disk, d3: Disk, cache: set<Bytes>, uniqueCount: nat, limit: nat)
    requires View(d).Ok? && ManifestUsable(d) && d3 == ExecAll(d, OpenOps(d))
    requires DecodeAll(Lines(SettledJournal(d))).Some? && DecodeFailedAll(Lines(Read(d, Failed))).Some?
    requires CacheExact(DecodeFailedAll(Lines(Read(d, Failed))).value, cache, uniqueCount, limit)
    ensures var m := RestoredMemory(Lines(SettledJournal(d)), SettledCheckpoint(d));
            && Synced(d3, m) && Ok(QueueOfMemory(d3, m)) == View(d)
            && FailedInSync(d3, cache, uniqueCount, limit)
            && CacheExact(QueueOfMemory(d3, m).failed, cache, uniqueCount, limit)
  {
    hide Lines, Tail, Frame, DecodeAll, DecodeFailedAll, Loaded, ConfirmedLines, OpenOps, View, CacheExact, QueueOf;
    OpenedSync(d);
    OpenDone(d);
  }

  lemma CacheSizes(ids: seq<Bytes>, cache: set<Bytes>, uniqueCount: nat, limit: nat)
    requires CacheExact(ids, cache, uniqueCount, limit)
    ensures |cache| == Min(limit, |Elements(ids)|) && uniqueCount == |Elements(ids)|
  {
  }

  // ---------- Appending ----------

  function AppendedQueueOf(q: Queue, events: seq<Event>, n: nat): Queue
    requires n <= |events|
  {
    Queue(q.pending + events[..n], q.recordedCount + n, q.failed)
  }

  lemma AppendCases(events: seq<Event>)
    ensures AppendOps(events) == if events == [] then [] else [Append(Journal, Frame(EncodeAll(events)))]
    ensures forall m: Memory :: AppendMemory(m, events) ==
              m.(pending := m.pending + Fresh(events), journalEntryCount := m.journalEntryCount + |events|)
  {
    hide Frame, EncodeAll, Fresh;
  }

  /** Everything appendMany achieves, on the disk before it. */
  lemma AppendEffect(d: Disk, m: Memory, events: seq<Event>, log: seq<FileOp>, cache: set<Bytes>, uniqueCount: nat,
      limit: nat)
    requires Synced(d, m)
    ensures DecodeFailedAll(FailedLines(d)).Some?
    ensures var (d1, m1, q) := (ExecAll(d, AppendOps(events)), AppendMemory(m, events), QueueOfMemory(d, m));
            && Synced(d1, m1)
            && QueueOfMemory(d1, m1) == q.(pending := q.pending + events, recordedCount := q.recordedCount + |events|)
            && (FailedInSync(d, cache, uniqueCount, limit) ==> FailedInSync(d1, cache, uniqueCount, limit))
    ensures (log + AppendOps(events))[|log|..] == AppendOps(events)
    ensures KillKeepsPrefix(d, AppendOps(events), QueueOfMemory(d, m), events)
  {
    hide *;
    SyncedFailed(d, m);
    AppendCrashes(d, m, events, log);
    AppendDone(d, m, events);
    AppendQueue(d, m, events);
    FailedKept(d, ExecAll(d, AppendOps(events)), cache, uniqueCount, limit);
  }

  /** A kill during these steps leaves the queue followed by some prefix of the events. */
  ghost predicate KillKeepsPrefix(d: Disk, ops: seq<FileOp>, q: Queue, events: seq<Event>) {
    forall d' | KilledDuring(d, ops, d') ::
      exists n: nat :: n <= |events| && View(d') == Ok(AppendedQueueOf(q, events, n))
  }

  lemma AppendCrashes(d: Disk, m: Memory, events: seq<Event>, log: seq<FileOp>)
    requires Synced(d, m) && DecodeFailedAll(FailedLines(d)).Some?
    ensures (log + AppendOps(events))[|log|..] == AppendOps(events)
    ensures KillKeepsPrefix(d, AppendOps(events), QueueOfMemory(d, m), events)
  {
    hide Synced, AppendOps, View, FailedLines, EventsOf, DecodeFailedAll;
    forall d' | KilledDuring(d, AppendOps(events), d')
      ensures exists n: nat :: n <= |events| && View(d') == Ok(AppendedQueueOf(QueueOfMemory(d, m), events, n))
    {
      SyncedFailed(d, m);
      var n := AppendKilled(d, m, events, d');
      assert View(d') == Ok(AppendedQueueOf(QueueOfMemory(d, m), events, n));
    }
  }

  lemma AppendQueue(d: Disk, m: Memory, events: seq<Event>)
    requires Synced(d, m) && Synced(ExecAll(d, AppendOps(events)), AppendMemory(m, events))
    requires Read(ExecAll(d, AppendOps(events)), Failed) == Read(d, Failed)
    ensures QueueOfMemory(ExecAll(d, AppendOps(events)), AppendMemory(m, events)) ==
            AppendedQueueOf(QueueOfMemory(d, m), events, |events|)
    ensures AppendedQueueOf(QueueOfMemory(d, m), events, |events|) ==
            QueueOfMemory(d, m).(pending := QueueOfMemory(d, m).pending + events,
                                 recordedCount := QueueOfMemory(d, m).recordedCount + |events|)
  {
    hide AppendOps, Lines, Tail, DecodeAll, DecodeFailedAll, Loaded, Frame;
    assert events[..|events|] == events;
    assert EventsOf(m.pending + Fresh(events)) == EventsOf(m.pending) + events;
  }

  // ---------- The failed journal beside other operations ----------

  lemma FailedKept(d: Disk, d1: Disk, cache: set<Bytes>, uniqueCount: nat, limit: nat)
    requires Read(d1, Failed) == Read(d, Failed)
    ensures FailedInSync(d, cache, uniqueCount, limit) ==> FailedInSync(d1, cache, uniqueCount, limit)
  {
    hide Tail, Lines, DecodeFailedAll, CacheExact;
  }

  lemma FailedInSyncMeans(d: Disk, cache: set<Bytes>, uniqueCount: nat, limit: nat)
    requires FailedInSync(d, cache, uniqueCount, limit)
    ensures Tail(Read(d, Failed)) == [] && DecodeFailedAll(FailedLines(d)).Some?
    ensures CacheExact(FailedIds(d), cache, uniqueCount, limit)
    ensures ScanOf(Read(d, Failed)).1 == Complete && IdsAt(ScanOf(Read(d, Failed)).0) == FailedIds(d)
  {
    hide Tail, Lines, DecodeFailedAll, CacheExact, ScanOf, IdsAt;
    FailedScanDecodes(Read(d, Failed));
  }

  lemma FailedInSyncIs(d: Disk, cache: set<Bytes>, uniqueCount: nat, limit: nat)
    requires Tail(Read(d, Failed)) == [] && DecodeFailedAll(FailedLines(d)).Some?
    requires CacheExact(FailedIds(d), cache, uniqueCount, limit)
    ensures FailedInSync(d, cache, uniqueCount, limit)
  {
    hide Tail, Lines, DecodeFailedAll, CacheExact;
  }

  // ---------- Peeking ----------

  lemma {:induction false} LoadedMeasured(lines: seq<Bytes>)
    requires DecodeAll(lines).Some?
    ensures forall i :: 0 <= i < |lines| ==> Loaded(lines)[i].eventBytes == |Encode(Loaded(lines)[i].event)|
  {
    hide Decode, Encode;
    if lines != [] {
      LoadedMeasured(lines[1..]);
    }
  }

  lemma HeadUnfold(events: seq<Event>, maxCount: nat, maxBytes: nat, taken: nat)
    requires taken <= |events|
    ensures HeadLength(events, maxCount, maxBytes, taken) ==
            if taken < |events| && Fits(events[..taken + 1], maxCount, maxBytes)
            then HeadLength(events, maxCount, maxBytes, taken + 1) else taken
    ensures Head(events, maxCount, maxBytes) == HeadLength(events, maxCount, maxBytes, 0)
  {
    hide Fits;
  }

  // ---------- Compacting and confirming ----------

  lemma CompactCrashes(d: Disk, m: Memory, log: seq<FileOp>)
    requires Synced(d, m) && DecodeFailedAll(FailedLines(d)).Some?
    ensures (log + CompactOps(m))[|log|..] == CompactOps(m)
    ensures forall d' | KilledDuring(d, CompactOps(m), d') :: View(d') == Ok(QueueOfMemory(d, m))
  {
    hide *;
    SyncedAccounting(d, m);
    forall d' | KilledDuring(d, CompactOps(m), d') ensures View(d') == Ok(QueueOfMemory(d, m)) {
      CompactKilled(d, m, d');
    }
  }

  lemma CompactQueue(d: Disk, m: Memory)
    requires Synced(d, m) && Synced(ExecAll(d, CompactOps(m)), CompactMemory(m))
    requires View(ExecAll(d, CompactOps(m))) == View(d)
    ensures QueueOfMemory(ExecAll(d, CompactOps(m)), CompactMemory(m)) == QueueOfMemory(d, m)
  {
    hide *;
    SyncedAccounting(d, m);
    SyncedAccounting(ExecAll(d, CompactOps(m)), CompactMemory(m));
  }

  lemma CompactOpsAre(m: Memory)
    ensures var state := CheckpointState(0, m.journalBaseCount + m.confirmedSinceCompaction, 0);
            CompactOps(m) ==
              [WriteText(Compact, Frame(EncodeAll(EventsOf(m.pending))))]
              + AtomicWrite(Manifest, DocOf(state))
              + [RenameText(Compact, Journal)]
              + AtomicWrite(Checkpoint, DocOf(state))
              + [UnlinkDoc(Manifest)]
    ensures CompactMemory(m) ==
              Memory(Fresh(EventsOf(m.pending)), 0, m.journalBaseCount + m.confirmedSinceCompaction, 0, |m.pending|)
  {
    hide Frame, EncodeAll, EventsOf, Fresh, AtomicWrite;
  }

  lemma ConfirmIdle(d: Disk, m: Memory, log: seq<FileOp>)
    requires Synced(d, m) && DecodeFailedAll(FailedLines(d)).Some?
    ensures forall d' | KilledDuring(d, log[|log|..], d') :: View(d') == Ok(QueueOfMemory(d, m))
  {
    hide Synced, View, QueueOfMemory;
    SyncedAccounting(d, m);
    KilledIdle(d, log);
  }

  lemma ConfirmCrashes(d: Disk, m: Memory, count: nat, log: seq<FileOp>)
    requires Synced(d, m) && count <= |m.pending|
    requires DecodeFailedAll(FailedLines(d)).Some?
    ensures (log + ConfirmOps(m, count))[|log|..] == ConfirmOps(m, count)
    ensures forall d' | KilledDuring(d, ConfirmOps(m, count), d') ::
              View(d') == Ok(QueueOfMemory(d, m)) || View(d') == Ok(QueueOfMemory(d, AdvanceMemory(m, count)))
  {
    hide *;
    forall d' | KilledDuring(d, ConfirmOps(m, count), d')
      ensures View(d') == Ok(QueueOfMemory(d, m)) || View(d') == Ok(QueueOfMemory(d, AdvanceMemory(m, count)))
    {
      ConfirmKilled(d, m, count, d');
    }
  }

  lemma ConfirmQueue(d: Disk, m: Memory, count: nat)
    requires Synced(d, m) && count <= |m.pending|
    ensures var d1 := ExecAll(d, ConfirmOps(m, count));
            var m1 := ConfirmMemory(m, count);
            && Synced(d1, m1) && DecodeFailedAll(FailedLines(d)).Some?
            && QueueOfMemory(d1, m1) == QueueOfMemory(d, m).(pending := QueueOfMemory(d, m).pending[count..])
            && QueueOfMemory(d1, m1) == QueueOfMemory(d, AdvanceMemory(m, count))
  {
    hide *;
    ConfirmDone(d, m, count);
    var d1 := ExecAll(d, ConfirmOps(m, count));
    var m1 := ConfirmMemory(m, count);
    QueueIs(d, m);
    QueueIs(d1, m1);
    SameFailedIds(d, d1);
    AdvanceQueueIs(d, m, count);
  }

  lemma ConfirmCases(m: Memory, count: nat)
    requires count <= |m.pending|
    ensures AdvanceMemory(m, count) ==
            Memory(m.pending[count..], m.checkpointOffset + PendingBytes(m.pending[..count]), m.journalBaseCount,
                   m.confirmedSinceCompaction + count, m.journalEntryCount)
    ensures count == 0 ==> ConfirmOps(m, count) == [] && ConfirmMemory(m, count) == m
    ensures count > 0 ==>
              var advanced := AdvanceMemory(m, count);
              && ConfirmOps(m, count) == AtomicWrite(Checkpoint, DocOf(advanced.State()))
                   + (if advanced.checkpointOffset >= COMPACT_THRESHOLD_BYTES then CompactOps(advanced) else [])
              && ConfirmMemory(m, count) ==
                   if advanced.checkpointOffset >= COMPACT_THRESHOLD_BYTES then CompactMemory(advanced) else advanced
    ensures forall d: Disk, doc: Doc :: Read(WithDoc(d, Checkpoint, doc), Failed) == Read(d, Failed)
  {
    hide CompactOps, CompactMemory, PendingBytes, AtomicWrite;
  }

  // ---------- Quarantining ----------

  lemma QuarantineCases(failures: seq<Event>, detail: Bytes)
    ensures QuarantineOps(failures, detail) ==
            if failures == [] then [] else [Append(Failed, Frame(EncodeFailedAll(detail, failures)))]
  {
    hide Frame, EncodeFailedAll;
  }

  lemma IdsOfNothing(ids: seq<Bytes>)
    ensures ids + IdsOf([]) == ids
  {
  }

  /** A write that failed after some bytes is one of the disks a kill could have left. */
  lemma FaultIsKill(d: Disk, data: Bytes, k: nat)
    requires k <= |data|
    ensures KilledDuring(d, [Append(Failed, data)], Exec(d, Append(Failed, data[..k])))
  {
    assert Torn(d, Append(Failed, data), Exec(d, Append(Failed, data[..k])));
  }

  lemma FailureIsNew(ids: seq<Bytes>, failures: seq<Event>, i: nat)
    requires i < |failures| && Distinct(IdsOf(failures))
    requires forall e :: e in failures ==> e.eventId !in Elements(ids)
    ensures failures[i].eventId !in ids + IdsOf(failures)[..i]
  {
    assert failures[i] in failures && IdsOf(failures)[i] == failures[i].eventId;
  }

  lemma NewFailuresUnfold(events: seq<Event>, known: set<Bytes>)
    ensures NewFailures(events, known) ==
            if events == [] then []
            else if events[0].eventId in known then NewFailures(events[1..], known)
            else [events[0]] + NewFailures(events[1..], known + {events[0].eventId})
  {
  }

  lemma ElementsAre(ids: seq<Bytes>)
    ensures forall id :: id in Elements(ids) <==> id in ids
  {
  }
}
