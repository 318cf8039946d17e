/** The sender daemon: one request in flight, generation interleaved with sending. */
module Daemon {
  import opened Ack
  import opened Basics
  import opened Batching
  import opened Codec
  import opened DaemonModel
  import opened Disk
  import opened Limiter
  import opened Opening
  import Outbox
  import Reacting
  import Recovery
  import opened OutboxModel
  import opened SplitPlan

  /** What one turn of the send loop ends in: a sleep, a request in flight, or the end of the loop. */
  datatype LoopStep = Sleep(ms: int) | Send | Stopped

  /** After a response: continue after a wait, or the process died in quarantine. */
  datatype Outcome = Continue(waitMs: real) | Died

  /** What settling a batch touches: the outbox's memory, queue, directory and file steps, and the books. */
  datatype Store = Store(
    mem: Memory, queue: Recovery.Queue, disk: Disk, log: seq<FileOp>, books: Books, quarantined: nat)

  /** The store once every event without a failed record has one. */
  ghost function QuarantinedStore(s: Store, events: seq<Event>, detail: Bytes): Store {
    var failures := NewFailures(events, Elements(s.queue.failed));
    s.(queue := s.queue.(failed := s.queue.failed + IdsOf(failures)),
       disk := ExecAll(s.disk, QuarantineOps(failures, detail)),
       log := s.log + QuarantineOps(failures, detail),
       quarantined := s.quarantined + |failures|)
  }

  /** The store once a head is confirmed and the progress is noted. */
  ghost function ConfirmedStore(s: Store, count: nat, now: int): Store
    requires count <= |s.mem.pending| == |s.queue.pending|
  {
    s.(mem := ConfirmMemory(s.mem, count),
       queue := s.queue.(pending := s.queue.pending[count..]),
       disk := ExecAll(s.disk, ConfirmOps(s.mem, count)),
       log := s.log + ConfirmOps(s.mem, count),
       books := AfterProgress(s.books, count, |s.mem.pending| - count, now))
  }

  /** The store once a batch is settled: failures first, then the checkpoint. */
  ghost function SettledStore(s: Store, quarantine: seq<Event>, confirm: nat, detail: Bytes, now: int): Store
    requires confirm <= |s.mem.pending| == |s.queue.pending|
  {
    ConfirmedStore(QuarantinedStore(s, quarantine, detail), confirm, now)
  }

  /** The store after an answer: its reaction is settled, and a backoff counts as a retry. */
  ghost function AnsweredStore(s: Store, action: AckAction, r: Reaction, detail: Bytes, now: int): Store
    requires r.confirm <= |s.mem.pending| == |s.queue.pending|
  {
    SettledStore(s, r.quarantine, r.confirm, detail, now).(
      books := AnsweredBooks(s.books, action, r.confirm, |s.mem.pending| - r.confirm, now))
  }

  /** Dying in quarantine: nothing is confirmed, and the directory is one a kill during these steps leaves. */
  ghost predicate DiedSettling(before: Store, after: Store, ops: seq<FileOp>) {
    && after.mem == before.mem && after.queue.pending == before.queue.pending
    && after.books == before.books && after.quarantined == before.quarantined
    && KilledDuring(before.disk, ops, after.disk)
  }

  class SenderDaemon {
    const outbox: Outbox.Outbox
    const throttle: FixedWindowThrottle
    const startupBacklog: nat
    var shuttingDown: bool
    var authHalted: bool
    var batchStartedAt: Option<int>
    var splitSegments: seq<nat>
    var attempt: nat
    var startupDrainRemaining: nat
    var startupDrainBatchCounts: seq<nat>
    var quarantined: nat
    var inFlight: Option<Request>

    /**
     * The plan covers a head of the queue, the batch in flight is a prefix of the queue no
     * longer than its segment, and the startup backlog is drained plus remaining.
     */
    ghost predicate Valid()
      reads this, outbox, outbox.fs, throttle
    {
      && outbox.Valid() && !outbox.closed && throttle.windowMs > 0
      && PlanOk(splitSegments, |outbox.pending|)
      && (inFlight.Some? ==> InFlightPrefix(inFlight.value.events, outbox.Contents().pending, splitSegments))
      && startupDrainRemaining + Sum(startupDrainBatchCounts) == startupBacklog
    }

    function Bookkeeping(): Books
      reads `attempt, `startupDrainRemaining, `startupDrainBatchCounts, `batchStartedAt
    {
      Books(attempt, startupDrainRemaining, startupDrainBatchCounts, batchStartedAt)
    }

    ghost function Snapshot(): (s: Store)
      requires outbox.Valid()
      reads `attempt, `startupDrainRemaining, `startupDrainBatchCounts, `batchStartedAt, `quarantined
      reads outbox, outbox.fs
      ensures |s.mem.pending| == |s.queue.pending|
    {
      QueueSizes(outbox);
      MemoryPending(outbox);
      Store(outbox.Mem(), outbox.Contents(), outbox.fs.disk, outbox.fs.log, Bookkeeping(), quarantined)
    }

    lemma SnapshotIs()
      requires outbox.Valid()
      ensures Snapshot() ==
              Store(outbox.Mem(), outbox.Contents(), outbox.fs.disk, outbox.fs.log, Bookkeeping(), quarantined)
      ensures |Snapshot().mem.pending| == |outbox.pending| == |outbox.Contents().pending|
      ensures outbox.Contents().pending == EventsOf(outbox.pending)
      ensures Bookkeeping() == Books(attempt, startupDrainRemaining, startupDrainBatchCounts, batchStartedAt)
    {
      hide Outbox.Outbox.Contents, Outbox.Outbox.Valid;
      QueueSizes(outbox);
    }

    /** The sender as a value: what its next steps depend on. */
    function Abstract(): Process
      reads this, outbox
    {
      Process(outbox.Mem(), splitSegments, inFlight, authHalted)
    }

    lemma AbstractIs()
      ensures Abstract() == Process(outbox.Mem(), splitSegments, inFlight, authHalted)
    {
      hide Outbox.Outbox.Mem;
    }

    constructor (outbox: Outbox.Outbox, throttle: FixedWindowThrottle)
      requires outbox.Valid() && !outbox.closed && throttle.windowMs > 0
      ensures Valid() && this.outbox == outbox && this.throttle == throttle
      ensures startupBacklog == |outbox.pending| && splitSegments == [] && inFlight.None? && !authHalted &&
                !shuttingDown
      ensures batchStartedAt == if |outbox.pending| > 0 then Some(0) else None
    {
      hide *;
      this.outbox := outbox;
      this.throttle := throttle;
      startupBacklog := |outbox.pending|;
      shuttingDown, authHalted := false, false;
      batchStartedAt := if |outbox.pending| > 0 then Some(0) else None;
      splitSegments := [];
      attempt := 0;
      startupDrainRemaining := |outbox.pending|;
      startupDrainBatchCounts := [];
      quarantined := 0;
      inFlight := None;
      new;
      EmptyPlan(|outbox.pending|);
      ValidUnfold();
    }

    /**
     * generateTick: records the generated events unless the queue is full. Whatever is in
     * flight stays a prefix of the queue.
     */
    method GenerateTick(events: seq<Event>, now: int)
      requires Valid()
      modifies `batchStartedAt, outbox`pending, outbox`journalEntryCount, outbox.fs
      ensures Valid()
      ensures var paused := old(|outbox.pending|) >= BACKPRESSURE_PENDING_LIMIT;
              var recorded := if paused then [] else events;
              && outbox.Mem() == AppendMemory(old(outbox.Mem()), recorded)
              && outbox.Contents() == old(outbox.Contents()).(
                   pending := old(outbox.Contents().pending) + recorded,
                   recordedCount := old(outbox.Contents().recordedCount) + |recorded|)
              && outbox.fs.log == old(outbox.fs.log) + AppendOps(recorded)
              && outbox.fs.disk == ExecAll(old(outbox.fs.disk), AppendOps(recorded))
      ensures batchStartedAt ==
              if old(|outbox.pending|) == 0 && events != [] then Some(now) else old(batchStartedAt)
    {
      hide *;
      ValidUnfold();
      outbox.ValidWhen();
      outbox.MemIs();
      PausedAppend(outbox.Mem());
      if |outbox.pending| >= BACKPRESSURE_PENDING_LIMIT || |events| == 0 {
        QueueUnchanged(outbox.Contents(), events);
        Outbox.ExecNothing(outbox.fs.disk);
        assert outbox.fs.log + [] == outbox.fs.log;
        LimitPositive();
        return;
      }
      ghost var before := outbox.Contents().pending;
      var wasEmpty := |outbox.pending| == 0;
      QueueSizes(outbox);
      outbox.AppendMany(events);
      outbox.MemIs();
      QueueSizes(outbox);
      if wasEmpty {
        batchStartedAt := Some(now);
      }
      StillPrefix(before, events, inFlight, splitSegments);
      ValidUnfold();
    }

    /** stop: the loop leaves before its next request; what is in flight is still answered. */
    method Stop()
      requires Valid()
      modifies `shuttingDown
      ensures Valid() && shuttingDown
    {
      hide *;
      ValidUnfold();
      shuttingDown := true;
      ValidUnfold();
    }

    /** The end of stop, once the loop has left and its last answer is handled: the outbox is closed as it is. */
    method Finish()
      requires Valid() && shuttingDown && inFlight.None?
      modifies outbox`closed
      ensures outbox.closed && outbox.Valid() && Snapshot() == old(Snapshot())
    {
      hide *;
      ValidUnfold();
      SnapshotIs();
      outbox.ValidWhen();
      outbox.Close();
      outbox.ValidWhen();
      SnapshotIs();
    }

    /**
     * One turn of the send loop up to the request: takes the longest head batch under the
     * current cap, waits while only an underfull tail is there, and asks the throttle. The
     * window, the readiness check and the throttle read the clock one after the other.
     */
    method NextBatch(batchId: Bytes, openedAt: int, checkedAt: int, acquiredAt: int) returns (step: LoopStep)
      requires Valid() && inFlight.None?
      modifies `batchStartedAt, `inFlight, throttle
      ensures Valid()
      ensures step.Send? <==> inFlight.Some?
      ensures step.Send? ==>
                && !authHalted
                && inFlight.value.batchId == batchId
                && inFlight.value.events != []
                && inFlight.value.events ==
                     outbox.Contents().pending[..Head(outbox.Contents().pending, Cap(splitSegments), MAX_BATCH_BYTES)]
      ensures var n := Head(outbox.Contents().pending, Cap(splitSegments), MAX_BATCH_BYTES);
              var asks := !shuttingDown && !authHalted && |outbox.pending| > 0;
              var started := if old(batchStartedAt).Some? then old(batchStartedAt).value else openedAt;
              var ready := IsBatchReady(n, Cap(splitSegments), |outbox.pending|, started, checkedAt);
              var (granted, wait) :=
                Acquire(old(throttle.State()), throttle.limitPerWindow, throttle.windowMs, acquiredAt);
              && (shuttingDown ==> step == Stopped)
              && (!shuttingDown && authHalted ==> step == Sleep(1_000))
              && (shuttingDown || authHalted ==> batchStartedAt == old(batchStartedAt))
              && (!shuttingDown && !authHalted && |outbox.pending| == 0 ==> step == Sleep(50) && batchStartedAt == None)
              && (asks ==>
                    && batchStartedAt == Some(started)
                    && step == if !ready then Sleep(50) else if wait > 0 then Sleep(wait) else Send)
              && throttle.State() == if asks && ready then granted else old(throttle.State())
    {
      hide *;
      ValidUnfold();
      if shuttingDown {
        return Stopped;
      }
      if authHalted {
        return Sleep(1_000);
      }
      var batchCap := Cap(splitSegments);
      CapPositive(splitSegments, |outbox.pending|);
      QueueSizes(outbox);
      var batch := outbox.PeekBatch(batchCap, MAX_BATCH_BYTES);
      if |batch| == 0 {
        batchStartedAt := None;
        ValidUnfold();
        return Sleep(50);
      }
      if batchStartedAt.None? {
        batchStartedAt := Some(openedAt);
      }
      ValidUnfold();
      if !IsBatchReady(|batch|, batchCap, |outbox.pending|, batchStartedAt.value, checkedAt) {
        return Sleep(50);
      }
      var throttleWait := throttle.TryAcquire(acquiredAt);
      if throttleWait > 0 {
        ValidUnfold();
        return Sleep(throttleWait);
      }
      inFlight := Some(Request(batchId, batch));
      HeadInFlight(outbox.Contents().pending, splitSegments);
      ValidUnfold();
      return Send;
    }

    /** A timeout or network error: nothing moves, the same events are sent again after a backoff. */
    method OnNetworkError() returns (waitMs: nat)
      requires Valid() && inFlight.Some?
      modifies `attempt, `inFlight
      ensures Valid() && inFlight.None? && attempt == old(attempt) + 1
      ensures waitMs == BackoffDelayMs(old(attempt))
    {
      hide *;
      ValidUnfold();
      attempt := attempt + 1;
      inFlight := None;
      waitMs := BackoffDelayMs(attempt - 1);
      ValidUnfold();
    }

    /**
     * A response: the reaction of the transition table is applied, quarantine strictly
     * before the checkpoint. When the quarantine fails, nothing is confirmed.
     */
    method OnResponse(status: int, body: Body, retryAfter: Option<real>, random: real, now: int,
                      detail: Bytes, fault: Option<Outbox.WriteFault>)
      returns (o: Outcome)
      requires Valid() && inFlight.Some? && 0.0 <= random < 1.0
      modifies this, outbox, outbox.fs
      ensures Valid()
      ensures ReactionTo(old(inFlight).value, old(splitSegments), status, body, retryAfter).confirm <=
              |old(Snapshot()).mem.pending|
      ensures var action := ActionOn(old(inFlight).value, status, body, retryAfter);
              var reaction := ReactionTo(old(inFlight).value, old(splitSegments), status, body, retryAfter);
              o.Continue? ==>
                && Snapshot() == AnsweredStore(old(Snapshot()), action, reaction, detail, now)
                && inFlight.None? && splitSegments == reaction.plan
                && authHalted == (old(authHalted) || reaction.halted)
                && o.waitMs == WaitAfter(action, old(attempt), random)
      ensures var reaction := ReactionTo(old(inFlight).value, old(splitSegments), status, body, retryAfter);
              var s := old(Snapshot());
              o.Died? ==>
                && reaction.quarantine != [] && (fault.Some? || old(outbox.failedWriteFault))
                && DiedSettling(s, Snapshot(), ReactOps(s.mem, Elements(s.queue.failed), reaction, detail))
                && splitSegments == old(splitSegments)
    {
      hide *;
      var request := inFlight.value;
      ReactionIs(request, splitSegments, status, body, retryAfter);
      var action := Decide(status, body, request.batchId, IdsOf(request.events), retryAfter);
      o := Handle(action, random, now, detail, fault);
    }

    /** Applies the transition table's reaction to an action. */
    method Handle(action: AckAction, random: real, now: int, detail: Bytes, fault: Option<Outbox.WriteFault>)
      returns (o: Outcome)
      requires Valid() && inFlight.Some? && 0.0 <= random < 1.0
      modifies this, outbox, outbox.fs
      ensures Valid()
      ensures React(action, old(inFlight).value.events, old(splitSegments)).confirm <= |old(Snapshot()).mem.pending|
      ensures var reaction := React(action, old(inFlight).value.events, old(splitSegments));
              o.Continue? ==>
                && Snapshot() == AnsweredStore(old(Snapshot()), action, reaction, detail, now)
                && inFlight.None? && splitSegments == reaction.plan
                && authHalted == (old(authHalted) || reaction.halted)
                && o.waitMs == WaitAfter(action, old(attempt), random)
      ensures var reaction := React(action, old(inFlight).value.events, old(splitSegments));
              var s := old(Snapshot());
              o.Died? ==>
                && reaction.quarantine != [] && (fault.Some? || old(outbox.failedWriteFault))
                && DiedSettling(s, Snapshot(), ReactOps(s.mem, Elements(s.queue.failed), reaction, detail))
                && splitSegments == old(splitSegments)
    {
      hide *;
      ValidUnfold();
      SnapshotIs();
      var batch := inFlight.value.events;
      ghost var (plan, s) := (splitSegments, Snapshot());
      PrefixMeans(batch, outbox.Contents().pending, splitSegments);
      var reaction := React(action, batch, splitSegments);
      ReactionKeepsPlan(action, batch, plan, |outbox.pending|);
      SettledPlan(action, batch, plan, |outbox.pending|);
      var died := Settle(reaction.quarantine, reaction.confirm, reaction.halted, now, detail, fault);
      ValidUnfold();
      SnapshotIs();
      if died {
        DiedAnswering(s, Snapshot(), reaction, detail);
        return Died;
      }
      SettledSizes(s, reaction.quarantine, reaction.confirm, detail, now);
      AnsweredIs(s, action, batch, plan, detail, now);
      WaitIs(action, s.books.attempt, random);
      WaitIs(action, attempt, random);
      if action == AckAction.Split && |batch| != 1 {
        splitSegments := SplitCurrentBatch(splitSegments, |batch|);
      }
      var waitMs := NoteAction(action, random);
      ValidUnfold();
      SnapshotIs();
      return Continue(waitMs);
    }

    /** The wait an action asks for; a backoff is counted as a retry. */
    method NoteAction(action: AckAction, random: real) returns (waitMs: real)
      requires 0.0 <= random < 1.0
      modifies `attempt
      ensures attempt == old(attempt) + (if action.Backoff? then 1 else 0)
      ensures waitMs == WaitAfter(action, old(attempt), random)
    {
      match action {
        case Backoff(_) =>
          attempt := attempt + 1;
          return BackoffDelayMs(attempt - 1) as real;
        case RateLimited(retryAfterSec) =>
          return RateLimitedDelayMs(retryAfterSec, random);
        case _ =>
          return 0.0;
      }
    }

    /** Quarantines, then confirms a head, then advances the plan by what was confirmed. */
    method Settle(quarantine: seq<Event>, confirm: nat, halt: bool, now: int, detail: Bytes,
                  fault: Option<Outbox.WriteFault>)
      returns (died: bool)
      requires Valid() && inFlight.Some?
      requires confirm <= |outbox.pending| && PlanOk(Advance(splitSegments, confirm), |outbox.pending| - confirm)
      modifies this, outbox, outbox.fs
      ensures Valid()
      ensures confirm <= |old(Snapshot()).mem.pending|
      ensures !died ==>
                && Snapshot() == SettledStore(old(Snapshot()), quarantine, confirm, detail, now)
                && inFlight.None? && splitSegments == Advance(old(splitSegments), confirm)
                && authHalted == (old(authHalted) || halt)
      ensures var failures := NewFailures(quarantine, Elements(old(Snapshot()).queue.failed));
              died ==>
                && quarantine != [] && (fault.Some? || old(outbox.failedWriteFault))
                && DiedSettling(old(Snapshot()), Snapshot(), QuarantineOps(failures, detail))
                && inFlight == old(inFlight) && splitSegments == old(splitSegments) && authHalted == old(authHalted)
    {
      hide *;
      ValidUnfold();
      SnapshotIs();
      ghost var s := Snapshot();
      died := SettleQueue(quarantine, confirm, now, detail, fault);
      SnapshotIs();
      if died {
        DiedKeeps(s, Snapshot(), quarantine, detail);
        ValidUnfold();
        return;
      }
      SettledSizes(s, quarantine, confirm, detail, now);
      ProgressKeepsBacklog(s.books, confirm, |outbox.pending|, now);
      var advanced := AdvanceSplitSegments(splitSegments, confirm);
      splitSegments, inFlight, authHalted := advanced, None, authHalted || halt;
      ValidUnfold();
    }

    /** The part of settling that touches the outbox: quarantine strictly before the checkpoint. */
    method SettleQueue(quarantine: seq<Event>, confirm: nat, now: int, detail: Bytes,
                       fault: Option<Outbox.WriteFault>)
      returns (died: bool)
      requires outbox.Valid() && !outbox.closed && confirm <= |outbox.pending|
      modifies `quarantined, `attempt, `startupDrainRemaining, `startupDrainBatchCounts, `batchStartedAt
      modifies outbox, outbox.fs
      ensures outbox.Valid() && !outbox.closed
      ensures confirm <= |old(Snapshot()).mem.pending|
      ensures !died ==> Snapshot() == SettledStore(old(Snapshot()), quarantine, confirm, detail, now)
      ensures var failures := NewFailures(quarantine, Elements(old(Snapshot()).queue.failed));
              died ==>
                && quarantine != [] && (fault.Some? || old(outbox.failedWriteFault))
                && DiedSettling(old(Snapshot()), Snapshot(), QuarantineOps(failures, detail))
    {
      hide *;
      SnapshotIs();
      ghost var s := Snapshot();
      died := QuarantineFailures(quarantine, detail, fault);
      SnapshotIs();
      if died {
        return;
      }
      QuarantinedSizes(s, quarantine, detail);
      ConfirmHead(confirm, now);
      SettledMeans(s, quarantine, confirm, detail, now);
    }

    /** Confirms the settled head, if any, and notes the progress. */
    method ConfirmHead(count: nat, now: int)
      requires outbox.Valid() && !outbox.closed && count <= |outbox.pending|
      modifies `attempt, `startupDrainRemaining, `startupDrainBatchCounts, `batchStartedAt
      modifies outbox`pending, outbox`checkpointOffset, outbox`journalBaseCount, outbox`confirmedSinceCompaction
      modifies outbox`journalEntryCount, outbox`closed, outbox.fs
      ensures outbox.Valid() && !outbox.closed
      ensures count <= |old(Snapshot()).mem.pending|
      ensures Snapshot() == ConfirmedStore(old(Snapshot()), count, now)
    {
      hide *;
      SnapshotIs();
      ghost var s := Snapshot();
      if count > 0 {
        var ok := outbox.Confirm(count);
        NoteStartupDrainProgress(count);
        ResetBatchWindowAfterProgress(now);
        attempt := 0;
        SnapshotIs();
        ProgressIs(s.books, count, |outbox.pending|, now);
        ConfirmedIs(s, count, now);
      } else {
        ConfirmedNothing(s, now);
      }
    }

    /** Quarantines a possibly empty list of events; a failed write is the death of the process. */
    method QuarantineFailures(events: seq<Event>, detail: Bytes, fault: Option<Outbox.WriteFault>)
      returns (died: bool)
      requires outbox.Valid()
      modifies `quarantined, outbox`failedEventIds, outbox`failedUniqueCount, outbox`failedWriteFault, outbox.fs
      ensures outbox.Valid()
      ensures !died ==> Snapshot() == QuarantinedStore(old(Snapshot()), events, detail)
      ensures var failures := NewFailures(events, Elements(old(Snapshot()).queue.failed));
              died ==>
                && events != [] && (fault.Some? || old(outbox.failedWriteFault))
                && DiedSettling(old(Snapshot()), Snapshot(), QuarantineOps(failures, detail))
    {
      hide *;
      SnapshotIs();
      ghost var s := Snapshot();
      ghost var ops := QuarantineOps(NewFailures(events, Elements(s.queue.failed)), detail);
      KilledAtOnce(s.disk, ops);
      if |events| == 0 {
        QuarantinedNothing(s, events, detail);
        return false;
      }
      var result := outbox.Quarantine(events, detail, fault);
      SnapshotIs();
      if result.Err? {
        assert result.error == Outbox.ReopenRequired || result.error == Outbox.WriteFailed;
        DiedIs(s, Snapshot(), ops);
        return true;
      }
      quarantined := quarantined + result.value;
      SnapshotIs();
      QuarantinedIs(s, events, detail);
      return false;
    }

    /** noteStartupDrainProgress: what is drained is counted once, and never more than the backlog. */
    method NoteStartupDrainProgress(count: nat)
      modifies `startupDrainRemaining, `startupDrainBatchCounts
      ensures startupDrainRemaining ==
                if count < old(startupDrainRemaining) then old(startupDrainRemaining) - count else 0
      ensures startupDrainBatchCounts ==
              if old(startupDrainRemaining) == 0 then old(startupDrainBatchCounts)
              else old(startupDrainBatchCounts) + [old(startupDrainRemaining) - startupDrainRemaining]
    {
      if startupDrainRemaining == 0 {
        return;
      }
      var drained := if count < startupDrainRemaining then count else startupDrainRemaining;
      startupDrainRemaining := startupDrainRemaining - drained;
      startupDrainBatchCounts := startupDrainBatchCounts + [drained];
    }

    /** resetBatchWindowAfterProgress */
    method ResetBatchWindowAfterProgress(now: int)
      modifies `batchStartedAt
      ensures batchStartedAt ==
              if outbox.pending == [] then None else if startupDrainRemaining > 0 then Some(0) else Some(now)
    {
      if |outbox.pending| == 0 {
        batchStartedAt := None;
      } else if startupDrainRemaining > 0 {
        batchStartedAt := Some(0);
      } else {
        batchStartedAt := Some(now);
      }
    }

    /** Unfolds Valid for a caller that hides definitions. */
    lemma ValidUnfold()
      ensures Valid() <==>
                && outbox.Valid() && !outbox.closed && throttle.windowMs > 0
                && PlanOk(splitSegments, |outbox.pending|)
                && (inFlight.Some? ==> InFlightPrefix(inFlight.value.events, outbox.Contents().pending, splitSegments))
                && startupDrainRemaining + Sum(startupDrainBatchCounts) == startupBacklog
    {
      hide PlanOk, InFlightPrefix, Sum, Outbox.Outbox.Valid, Outbox.Outbox.Contents;
    }
  }

  /** A non-empty batch that is a prefix of the queue and no longer than its plan segment. */
  ghost predicate InFlightPrefix(batch: seq<Event>, pending: seq<Event>, plan: seq<nat>) {
    batch != [] && batch <= pending && |batch| <= Cap(plan)
  }

  lemma PrefixMeans(batch: seq<Event>, pending: seq<Event>, plan: seq<nat>)
    requires InFlightPrefix(batch, pending, plan)
    ensures batch != [] && batch <= pending && |batch| <= Cap(plan)
  {
    hide Cap;
  }

  lemma StillPrefix(pending: seq<Event>, events: seq<Event>, inFlight: Option<Request>, plan: seq<nat>)
    requires inFlight.Some? ==> InFlightPrefix(inFlight.value.events, pending, plan)
    ensures inFlight.Some? ==> InFlightPrefix(inFlight.value.events, pending + events, plan)
    ensures PlanOk(plan, |pending|) ==> PlanOk(plan, |pending + events|)
  {
    hide Cap, Sum;
  }

  lemma CapPositive(plan: seq<nat>, pendingCount: nat)
    requires PlanOk(plan, pendingCount)
    ensures Cap(plan) > 0
  {
  }

  lemma HeadInFlight(pending: seq<Event>, plan: seq<nat>)
    requires Cap(plan) > 0 && pending != []
    ensures InFlightPrefix(pending[..Head(pending, Cap(plan), MAX_BATCH_BYTES)], pending, plan)
  {
    hide HeadLength, BatchBodyByteLength;
    assert pending[..0] == [];
    HeadIsLongest(pending, Cap(plan), MAX_BATCH_BYTES, 0);
  }

  lemma PausedAppend(m: Memory)
    ensures AppendMemory(m, []) == m && AppendOps([]) == []
  {
    assert m.pending + Fresh([]) == m.pending;
  }

  lemma QueueUnchanged(q: Recovery.Queue, events: seq<Event>)
    ensures q == q.(pending := q.pending + [], recordedCount := q.recordedCount + 0)
  {
    assert q.pending + [] == q.pending;
  }

  lemma LimitPositive()
    ensures BACKPRESSURE_PENDING_LIMIT > 0
  {
  }

  lemma MemoryPending(outbox: Outbox.Outbox)
    ensures outbox.Mem().pending == outbox.pending
  {
  }

  lemma QueueSizes(outbox: Outbox.Outbox)
    requires outbox.Valid()
    ensures |outbox.Contents().pending| == |outbox.pending|
    ensures outbox.Contents().pending == EventsOf(outbox.pending)
  {
    QueueIs(outbox.fs.disk, outbox.Mem());
  }

  lemma QuarantinedIs(s: Store, events: seq<Event>, detail: Bytes)
    ensures var failures := NewFailures(events, Elements(s.queue.failed));
            QuarantinedStore(s, events, detail) ==
            Store(s.mem, s.queue.(failed := s.queue.failed + IdsOf(failures)),
                  ExecAll(s.disk, QuarantineOps(failures, detail)), s.log + QuarantineOps(failures, detail),
                  s.books, s.quarantined + |failures|)
  {
    hide NewFailures, QuarantineOps, ExecAll, IdsOf;
  }

  lemma QuarantinedSizes(s: Store, events: seq<Event>, detail: Bytes)
    ensures QuarantinedStore(s, events, detail).mem == s.mem
    ensures QuarantinedStore(s, events, detail).queue.pending == s.queue.pending
  {
    hide *;
    QuarantinedIs(s, events, detail);
  }

  lemma QuarantinedNothing(s: Store, events: seq<Event>, detail: Bytes)
    requires events == []
    ensures QuarantinedStore(s, events, detail) == s
  {
    hide *;
    QuarantinedIs(s, events, detail);
    NothingQuarantined(events, Elements(s.queue.failed), detail, s.queue.failed);
    Outbox.ExecNothing(s.disk);
    assert s.log + [] == s.log;
  }

  lemma ConfirmedIs(s: Store, count: nat, now: int)
    requires count <= |s.mem.pending| == |s.queue.pending|
    ensures ConfirmedStore(s, count, now) ==
            Store(ConfirmMemory(s.mem, count), s.queue.(pending := s.queue.pending[count..]),
                  ExecAll(s.disk, ConfirmOps(s.mem, count)), s.log + ConfirmOps(s.mem, count),
                  AfterProgress(s.books, count, |s.mem.pending| - count, now), s.quarantined)
  {
    hide ConfirmOps, ConfirmMemory, ExecAll, AfterProgress;
  }

  lemma ConfirmedNothing(s: Store, now: int)
    requires |s.mem.pending| == |s.queue.pending|
    ensures ConfirmedStore(s, 0, now) == s
  {
    hide *;
    ConfirmedIs(s, 0, now);
    ConfirmZero(s.mem, s.queue);
    ProgressNone(s.books, |s.mem.pending|, now);
    Outbox.ExecNothing(s.disk);
    assert s.log + [] == s.log;
  }

  lemma SettledMeans(s: Store, quarantine: seq<Event>, confirm: nat, detail: Bytes, now: int)
    requires confirm <= |s.mem.pending| == |s.queue.pending|
    ensures QuarantinedStore(s, quarantine, detail).mem == s.mem
    ensures QuarantinedStore(s, quarantine, detail).queue.pending == s.queue.pending
    ensures SettledStore(s, quarantine, confirm, detail, now) ==
            ConfirmedStore(QuarantinedStore(s, quarantine, detail), confirm, now)
  {
    hide QuarantinedStore, ConfirmedStore;
    QuarantinedSizes(s, quarantine, detail);
  }

  /** A settled batch: one list of file steps, the failed records before the checkpoint. */
  lemma SettledIs(s: Store, quarantine: seq<Event>, confirm: nat, detail: Bytes, now: int)
    requires confirm <= |s.mem.pending| == |s.queue.pending|
    ensures var failures := NewFailures(quarantine, Elements(s.queue.failed));
            var ops := QuarantineOps(failures, detail) + ConfirmOps(s.mem, confirm);
            SettledStore(s, quarantine, confirm, detail, now) ==
            Store(ConfirmMemory(s.mem, confirm),
                  Recovery.Queue(s.queue.pending[confirm..], s.queue.recordedCount, s.queue.failed + IdsOf(failures)),
                  ExecAll(s.disk, ops), s.log + ops,
                  AfterProgress(s.books, confirm, |s.mem.pending| - confirm, now),
                  s.quarantined + |failures|)
  {
    hide *;
    SettledMeans(s, quarantine, confirm, detail, now);
    QuarantinedIs(s, quarantine, detail);
    ConfirmedIs(QuarantinedStore(s, quarantine, detail), confirm, now);
    var first := QuarantineOps(NewFailures(quarantine, Elements(s.queue.failed)), detail);
    LogJoins(s.log, first, ConfirmOps(s.mem, confirm));
    ExecAppend(s.disk, first, ConfirmOps(s.mem, confirm));
  }

  lemma SettledSizes(s: Store, quarantine: seq<Event>, confirm: nat, detail: Bytes, now: int)
    requires confirm <= |s.mem.pending| == |s.queue.pending|
    ensures var after := SettledStore(s, quarantine, confirm, detail, now);
            && |after.mem.pending| == |s.mem.pending| - confirm
            && after.books == AfterProgress(s.books, confirm, |s.mem.pending| - confirm, now)
  {
    hide *;
    SettledIs(s, quarantine, confirm, detail, now);
    ConfirmLeaves(s.mem, confirm);
  }

  lemma ConfirmLeaves(m: Memory, count: nat)
    requires count <= |m.pending|
    ensures |ConfirmMemory(m, count).pending| == |m.pending| - count
  {
    hide PendingBytes, Encode;
  }

  /** After settling, an answer leaves only a backoff to be counted. */
  lemma AnsweredIs(s: Store, action: AckAction, batch: seq<Event>, plan: seq<nat>, detail: Bytes, now: int)
    requires React(action, batch, plan).confirm <= |s.mem.pending| == |s.queue.pending|
    ensures var r := React(action, batch, plan);
            var settled := SettledStore(s, r.quarantine, r.confirm, detail, now);
            AnsweredStore(s, action, r, detail, now) ==
            if action.Backoff? then settled.(books := settled.books.(attempt := s.books.attempt + 1)) else settled
    ensures action.Backoff? ==>
              SettledStore(s, React(action, batch, plan).quarantine, React(action, batch, plan).confirm, detail,
                           now).books == s.books
  {
    hide *;
    var r := React(action, batch, plan);
    AnsweredUnfold(s, action, r, detail, now);
    SettledSizes(s, r.quarantine, r.confirm, detail, now);
    AnsweredBooksAre(s.books, action, batch, plan, |s.mem.pending| - r.confirm, now);
  }

  lemma AnsweredUnfold(s: Store, action: AckAction, r: Reaction, detail: Bytes, now: int)
    requires r.confirm <= |s.mem.pending| == |s.queue.pending|
    ensures AnsweredStore(s, action, r, detail, now) ==
            SettledStore(s, r.quarantine, r.confirm, detail, now).(
              books := AnsweredBooks(s.books, action, r.confirm, |s.mem.pending| - r.confirm, now))
  {
    hide SettledStore, AnsweredBooks;
  }

  lemma DiedIs(before: Store, after: Store, ops: seq<FileOp>)
    ensures DiedSettling(before, after, ops) <==>
              && after.mem == before.mem && after.queue.pending == before.queue.pending
              && after.books == before.books && after.quarantined == before.quarantined
              && KilledDuring(before.disk, ops, after.disk)
  {
    hide KilledDuring;
  }

  lemma DiedKeeps(before: Store, after: Store, quarantine: seq<Event>, detail: Bytes)
    requires DiedSettling(before, after, QuarantineOps(NewFailures(quarantine, Elements(before.queue.failed)), detail))
    ensures after.mem == before.mem && after.queue.pending == before.queue.pending && after.books == before.books
  {
    hide KilledDuring, QuarantineOps, NewFailures;
  }

  /** Dying in quarantine is dying during the reaction. */
  lemma DiedAnswering(before: Store, after: Store, r: Reaction, detail: Bytes)
    requires r.confirm <= |before.mem.pending|
    requires var failures := NewFailures(r.quarantine, Elements(before.queue.failed));
             DiedSettling(before, after, QuarantineOps(failures, detail))
    ensures DiedSettling(before, after, ReactOps(before.mem, Elements(before.queue.failed), r, detail))
  {
    hide *;
    var known := Elements(before.queue.failed);
    var first := QuarantineOps(NewFailures(r.quarantine, known), detail);
    Reacting.ReactOpsIs(before.mem, known, r, detail);
    DiedIs(before, after, first);
    KilledInFirst(before.disk, first, ConfirmOps(before.mem, r.confirm), after.disk);
    DiedIs(before, after, first + ConfirmOps(before.mem, r.confirm));
  }

  lemma NothingQuarantined(events: seq<Event>, known: set<Bytes>, detail: Bytes, failed: seq<Bytes>)
    ensures events == [] ==>
              NewFailures(events, known) == [] && QuarantineOps([], detail) == [] && failed + IdsOf([]) == failed
  {
  }

  lemma LogJoins(log: seq<FileOp>, a: seq<FileOp>, b: seq<FileOp>)
    ensures (log + a) + b == log + (a + b)
    ensures (log + a) + [] == log + a
  {
  }

  lemma ReactionIs(request: Request, plan: seq<nat>, status: int, body: Body, retryAfter: Option<real>)
    ensures ActionOn(request, status, body, retryAfter) ==
            DecideAck(status, body, request.batchId, IdsOf(request.events), retryAfter)
    ensures ReactionTo(request, plan, status, body, retryAfter) ==
            React(ActionOn(request, status, body, retryAfter), request.events, plan)
  {
    hide React, DecideAck, IdsOf;
  }

  /** Unless a batch is split, a reaction's plan is the plan advanced by what it confirms. */
  lemma SettledPlan(action: AckAction, batch: seq<Event>, plan: seq<nat>, pendingCount: nat)
    requires PlanOk(plan, pendingCount) && 0 < |batch| <= pendingCount && |batch| <= Cap(plan)
    ensures var r := React(action, batch, plan);
            && r.confirm <= pendingCount
            && PlanOk(Advance(plan, r.confirm), pendingCount - r.confirm)
            && r.plan == (if action == AckAction.Split && |batch| != 1 then SplitPlan.SplitHead(plan, |batch|)
                          else Advance(plan, r.confirm))
            && (action == AckAction.Split && |batch| != 1 ==> Advance(plan, r.confirm) == plan)
  {
    hide PlanOk, SplitPlan.SplitHead, RejectedEvents, Cap;
    ReactionKeepsPlan(action, batch, plan, pendingCount);
    AdvanceNothing(plan);
  }

  lemma AdvanceNothing(plan: seq<nat>)
    ensures Advance(plan, 0) == plan
  {
  }

  lemma AnsweredBooksAre(b: Books, action: AckAction, batch: seq<Event>, plan: seq<nat>, pendingLeft: nat, now: int)
    ensures var after := AfterProgress(b, React(action, batch, plan).confirm, pendingLeft, now);
            AnsweredBooks(b, action, React(action, batch, plan).confirm, pendingLeft, now) ==
            if action.Backoff? then after.(attempt := b.attempt + 1) else after
    ensures action.Backoff? ==> AfterProgress(b, React(action, batch, plan).confirm, pendingLeft, now) == b
  {
    hide Advance, SplitPlan.SplitHead, RejectedEvents;
  }

  lemma WaitIs(action: AckAction, attempt: nat, random: real)
    requires 0.0 <= random < 1.0
    ensures WaitAfter(action, attempt, random) ==
            match action
            case Backoff(_) => BackoffDelayMs(attempt) as real
            case RateLimited(retryAfterSec) => RateLimitedDelayMs(retryAfterSec, random)
            case _ => 0.0
  {
    hide BackoffDelayMs, RateLimitedDelayMs;
  }

  lemma EmptyPlan(pendingCount: nat)
    ensures PlanOk([], pendingCount) && Sum([]) == 0
  {
  }

  lemma ConfirmZero(m: Memory, q: Recovery.Queue)
    ensures ConfirmOps(m, 0) == [] && ConfirmMemory(m, 0) == m && q.(pending := q.pending[0..]) == q
  {
  }

  lemma ProgressIs(b: Books, count: nat, pendingLeft: nat, now: int)
    requires count > 0
    ensures var remaining := if count < b.drainRemaining then b.drainRemaining - count else 0;
            AfterProgress(b, count, pendingLeft, now) ==
            Books(0, remaining,
                  if b.drainRemaining == 0 then b.drainCounts else b.drainCounts + [b.drainRemaining - remaining],
                  if pendingLeft == 0 then None else if remaining > 0 then Some(0) else Some(now))
  {
  }

  lemma ProgressNone(b: Books, pendingLeft: nat, now: int)
    ensures AfterProgress(b, 0, pendingLeft, now) == b
  {
  }
}
