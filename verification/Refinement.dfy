/**
 * The sender's classes do the steps of the protocol: each method is run beside a world that
 * stands for the objects, and the world it ends in is the one the protocol's step leads to.
 */
module Refinement {
  import opened Ack
  import opened Basics
  import opened Batching
  import opened Codec
  import opened Daemon
  import opened DaemonModel
  import opened Disk
  import opened Framing
  import opened JournalFiles
  import opened Limiter
  import opened Opening
  import Outbox
  import opened OutboxModel
  import Reacting
  import opened Recovery
  import opened SplitPlan
  import opened System

  /** The world's directory is the sender's, and its process is the sender as a value. */
  ghost predicate Stands(d: SenderDaemon, w: World)
    reads d, d.outbox, d.outbox.fs, d.throttle
  {
    d.Valid() && w.disk == d.outbox.fs.disk && w.process == Some(d.Abstract())
  }

  lemma StandsParts(d: SenderDaemon, w: World)
    ensures Stands(d, w) <==>
              d.Valid() && w.disk == d.outbox.fs.disk &&
              w.process == Some(Process(d.outbox.Mem(), d.splitSegments, d.inFlight, d.authHalted))
  {
    hide SenderDaemon.Valid, Outbox.Outbox.Mem;
    d.AbstractIs();
  }

  /** generateTick is Record of what it was given, or of nothing while paused. */
  method Generate(d: SenderDaemon, events: seq<Event>, now: int, ghost parse: Parser, ghost w: World)
    returns (ghost w': World)
    requires Stands(d, w)
    modifies d`batchStartedAt, d.outbox`pending, d.outbox`journalEntryCount, d.outbox.fs
    ensures Stands(d, w')
    ensures var step := Record(if old(|d.outbox.pending|) >= BACKPRESSURE_PENDING_LIMIT then [] else events);
            Enabled(w, step) && w' == Next(parse, w, step)
  {
    hide *;
    StandsParts(d, w);
    ghost var recorded := if |d.outbox.pending| >= BACKPRESSURE_PENDING_LIMIT then [] else events;
    RecordNext(parse, w, recorded);
    w' := Next(parse, w, Record(recorded));
    d.GenerateTick(events, now);
    StandsParts(d, w');
  }

  // ---------- The pace of the requests ----------

  /** The sends of a history of throttle calls and restarts are the grants in it. */
  ghost predicate Granted(ticks: seq<Tick>, sends: seq<int>, limit: nat, windowMs: int)
    requires windowMs > 0
  {
    ClockRuns(ticks) && Grants(ticks, limit, windowMs) == sends
  }

  /** The throttle is in the state this history leads to. */
  ghost predicate Paced(throttle: FixedWindowThrottle, ticks: seq<Tick>, sends: seq<int>)
    requires throttle.windowMs > 0
    reads throttle
  {
    && Granted(ticks, sends, throttle.limitPerWindow, throttle.windowMs)
    && throttle.State() == StateAfter(ticks, throttle.limitPerWindow, throttle.windowMs)
  }

  /** Every start but the first forgets the counter. */
  function Restarted(ticks: seq<Tick>, at: int): seq<Tick> {
    if ticks == [] then [] else ticks + [Restart(at)]
  }

  lemma RestartKeeps(ticks: seq<Tick>, sends: seq<int>, at: int, limit: nat, windowMs: int)
    requires windowMs > 0 && Granted(ticks, sends, limit, windowMs) && ClockRuns(ticks + [Restart(at)])
    ensures Granted(Restarted(ticks, at), sends, limit, windowMs)
    ensures StateAfter(Restarted(ticks, at), limit, windowMs) == NEW_THROTTLE
  {
    hide Acquire;
    assert (ticks + [Restart(at)])[..|ticks|] == ticks;
  }

  lemma CallGrants(ticks: seq<Tick>, sends: seq<int>, at: int, limit: nat, windowMs: int)
    requires windowMs > 0 && Granted(ticks, sends, limit, windowMs) && ClockRuns(ticks + [Call(at)])
    ensures var (next, wait) := Acquire(StateAfter(ticks, limit, windowMs), limit, windowMs, at);
            && wait >= 0
            && Granted(ticks + [Call(at)], if wait == 0 then sends + [at] else sends, limit, windowMs)
            && StateAfter(ticks + [Call(at)], limit, windowMs) == next
  {
    assert (ticks + [Call(at)])[..|ticks|] == ticks;
  }

  lemma PacedMeans(throttle: FixedWindowThrottle, ticks: seq<Tick>, sends: seq<int>)
    requires throttle.windowMs > 0
    ensures Paced(throttle, ticks, sends) <==>
              && Granted(ticks, sends, throttle.limitPerWindow, throttle.windowMs)
              && throttle.State() == StateAfter(ticks, throttle.limitPerWindow, throttle.windowMs)
  {
    hide Granted;
  }

  /**
   * However starts, turns, answers and generation interleave: a sender restarted k times in
   * an aligned window sends at most (k + 1) * L requests in it.
   */
  lemma SendsPerWindow(throttle: FixedWindowThrottle, ticks: seq<Tick>, sends: seq<int>, start: int)
    requires throttle.windowMs > 0 && start % throttle.windowMs == 0 && Paced(throttle, ticks, sends)
    ensures CountIn(sends, start, start + throttle.windowMs) <=
            (RestartsIn(ticks, start, start + throttle.windowMs) + 1) * throttle.limitPerWindow
  {
    hide Grants, CountIn, RestartsIn, StateAfter;
    GrantsPerWindow(ticks, throttle.limitPerWindow, throttle.windowMs, start);
  }

  /**
   * A turn of the send loop that sends is Send of the batch the protocol sends, at an instant
   * the throttle granted; any other moves nothing.
   */
  method Turn(d: SenderDaemon, batchId: Bytes, openedAt: int, checkedAt: int, acquiredAt: int,
              ghost parse: Parser, ghost w: World, ghost ticks: seq<Tick>, ghost sends: seq<int>)
    returns (step: LoopStep, ghost w': World, ghost ticks': seq<Tick>)
    requires Stands(d, w) && d.inFlight.None? && forall r :: r in w.sent ==> r.batchId != batchId
    requires d.throttle.windowMs > 0 && Paced(d.throttle, ticks, sends) && ClockRuns(ticks + [Call(acquiredAt)])
    modifies d`batchStartedAt, d`inFlight, d.throttle
    ensures Stands(d, w')
    ensures step.Send? ==> Enabled(w, Step.Send(batchId)) && w' == Next(parse, w, Step.Send(batchId))
    ensures !step.Send? ==> w' == w
    ensures ticks' == ticks || ticks' == ticks + [Call(acquiredAt)]
    ensures Paced(d.throttle, ticks', if step.Send? then sends + [acquiredAt] else sends)
  {
    hide *;
    StandsParts(d, w);
    ghost var p := w.process.value;
    d.ValidUnfold();
    QueueSizes(d.outbox);
    MemoryPending(d.outbox);
    PacedMeans(d.throttle, ticks, sends);
    CallGrants(ticks, sends, acquiredAt, d.throttle.limitPerWindow, d.throttle.windowMs);
    ghost var before := d.throttle.State();
    step := d.NextBatch(batchId, openedAt, checkedAt, acquiredAt);
    w' := w;
    ticks' := if d.throttle.State() == before && !step.Send? then ticks else ticks + [Call(acquiredAt)];
    PacedMeans(d.throttle, ticks', if step.Send? then sends + [acquiredAt] else sends);
    if step == LoopStep.Send {
      BatchIs(p, d.outbox.Contents().pending);
      SendNext(parse, w, batchId);
      w' := Next(parse, w, Step.Send(batchId));
    }
    StandsParts(d, w');
  }

  lemma BatchIs(p: Process, pending: seq<Event>)
    requires pending == EventsOf(p.mem.pending)
    ensures BatchOf(p) == pending[..Head(pending, Cap(p.plan), MAX_BATCH_BYTES)]
    ensures pending != [] ==> p.mem.pending != []
  {
    hide EventsOf, Head, Cap;
  }

  /** A network error is a lost answer. */
  method NetworkError(d: SenderDaemon, ghost parse: Parser, ghost w: World) returns (waitMs: nat, ghost w': World)
    requires Stands(d, w) && d.inFlight.Some?
    modifies d`attempt, d`inFlight
    ensures Stands(d, w') && Enabled(w, Lose) && w' == Next(parse, w, Lose)
  {
    hide *;
    StandsParts(d, w);
    LoseNext(parse, w);
    w' := Next(parse, w, Lose);
    waitMs := d.OnNetworkError();
    StandsParts(d, w');
  }

  /** A handled response is Answer; a response whose quarantine fails is an Answer killed there. */
  method Respond(d: SenderDaemon, status: int, body: Body, retryAfter: Option<real>, random: real, now: int,
                 detail: Bytes, fault: Option<Outbox.WriteFault>, ghost parse: Parser, ghost w: World)
    returns (o: Outcome, ghost w': World)
    requires Stands(d, w) && d.inFlight.Some? && 0.0 <= random < 1.0
    requires Truthful(w.tables, d.inFlight.value, status, body)
    modifies d, d.outbox, d.outbox.fs
    ensures var step := Answer(status, body, retryAfter, detail);
            o.Continue? ==> Stands(d, w') && Enabled(w, step) && w' == Next(parse, w, step)
    ensures o.Died? ==> w'.disk == d.outbox.fs.disk && w'.process.None?
    ensures var step := AnswerKilled(status, body, retryAfter, detail, d.outbox.fs.disk);
            o.Died? ==> Enabled(w, step) && w' == Next(parse, w, step)
  {
    hide *;
    StandsParts(d, w);
    ghost var step := Answer(status, body, retryAfter, detail);
    ghost var p := w.process.value;
    d.ValidUnfold();
    d.SnapshotIs();
    FailedAreKnown(d.outbox);
    ghost var s := d.Snapshot();
    o := d.OnResponse(status, body, retryAfter, random, now, detail, fault);
    d.ValidUnfold();
    d.SnapshotIs();
    ghost var reaction := ReactionTo(p.inFlight.value, p.plan, status, body, retryAfter);
    AnsweredParts(s, ActionOn(p.inFlight.value, status, body, retryAfter), reaction, detail, now);
    if o.Died? {
      DiedParts(s, d.Snapshot(), ReactOps(s.mem, Elements(s.queue.failed), reaction, detail));
    }
    ReactionInIs(w, step);
    AnswerOpsAre(w, step);
    AnswerEnabled(w, step);
    AnswerNext(parse, w, step);
    if o.Continue? {
      w' := Next(parse, w, step);
      StandsParts(d, w');
    } else {
      AnswerKilledNext(parse, w, step, d.outbox.fs.disk);
      w' := Next(parse, w, AnswerKilled(status, body, retryAfter, detail, d.outbox.fs.disk));
    }
  }

  /** The directory and the memory of an answered store. */
  lemma AnsweredParts(s: Store, action: AckAction, r: Reaction, detail: Bytes, now: int)
    requires r.confirm <= |s.mem.pending| == |s.queue.pending|
    ensures var after := AnsweredStore(s, action, r, detail, now);
            && after.mem == ConfirmMemory(s.mem, r.confirm)
            && after.disk == ExecAll(s.disk, ReactOps(s.mem, Elements(s.queue.failed), r, detail))
  {
    hide *;
    AnsweredUnfold(s, action, r, detail, now);
    SettledIs(s, r.quarantine, r.confirm, detail, now);
    Reacting.ReactOpsIs(s.mem, Elements(s.queue.failed), r, detail);
  }

  lemma DiedParts(before: Store, after: Store, ops: seq<FileOp>)
    requires DiedSettling(before, after, ops)
    ensures after.mem == before.mem && KilledDuring(before.disk, ops, after.disk)
  {
    hide KilledDuring;
  }

  lemma ReactionInIs(w: World, step: Step)
    requires step.Answer? && w.process.Some? && w.process.value.inFlight.Some?
    ensures ReactionIn(w, step) ==
            ReactionTo(w.process.value.inFlight.value, w.process.value.plan, step.status, step.body, step.retryAfter)
  {
    hide ReactionTo;
  }

  /** The outbox's failed ids are those the protocol reads from the directory. */
  lemma FailedAreKnown(outbox: Outbox.Outbox)
    requires outbox.Valid()
    ensures outbox.Contents().failed == KnownFailures(outbox.fs.disk)
  {
    hide Synced, FailedLines, DecodeFailedAll, FailedIds;
    SyncedFailed(outbox.fs.disk, outbox.Mem());
    StateFields(outbox.fs.disk, outbox.Mem());
  }

  /** Files and memory that agree leave no choice for the memory. */
  lemma OneMemory(disk: Disk, a: Memory, b: Memory)
    requires Synced(disk, a) && Synced(disk, b)
    ensures a == b
  {
    hide Tail, DecodeAll, DecodeFailedAll, Loaded, Frame;
  }

  /**
   * Opening the outbox and starting the sender on it is Open. An open that refuses is an
   * open killed at its end.
   */
  method Start(fs: FileSystem, cacheLimit: nat, limit: nat, windowMs: int, ghost parse: Parser, ghost w: World,
               ghost at: int, ghost ticks: seq<Tick>, ghost sends: seq<int>)
    returns (r: Result<SenderDaemon, Outbox.OpenFailure>, ghost w': World)
    requires w.process.None? && w.disk == fs.disk
    requires windowMs > 0 && Granted(ticks, sends, limit, windowMs) && ClockRuns(ticks + [Restart(at)])
    modifies fs
    ensures r.Ok? ==>
              var throttle := r.value.throttle;
              && throttle.limitPerWindow == limit && throttle.windowMs == windowMs
              && Paced(throttle, Restarted(ticks, at), sends)
    ensures r.Ok? ==> Stands(r.value, w') && Enabled(w, Open) && w' == Next(parse, w, Open)
    ensures r.Err? ==> Enabled(w, OpenKilledStep(fs.disk)) && w' == Next(parse, w, OpenKilledStep(fs.disk))
    ensures r.Err? ==> w'.process.None? && w'.disk == fs.disk
  {
    hide *;
    var outbox := Outbox.Outbox.Open(fs, cacheLimit);
    CompletedIsReachable(w.disk, OpenOps(w.disk));
    OpenKilledNext(parse, w, fs.disk);
    if outbox.Err? {
      w' := Next(parse, w, OpenKilledStep(fs.disk));
      return Err(outbox.error), w';
    }
    OpenEnabled(w);
    NextOpen(parse, w);
    w' := Next(parse, w, Open);
    OpenedSync(w.disk);
    SyncedMemory(outbox.value);
    OneMemory(fs.disk, outbox.value.Mem(), OpenedMem(w.disk));
    var throttle := new FixedWindowThrottle(limit, windowMs);
    var d := new SenderDaemon(outbox.value, throttle);
    RestartKeeps(ticks, sends, at, limit, windowMs);
    PacedMeans(throttle, Restarted(ticks, at), sends);
    StandsParts(d, w');
    return Ok(d), w';
  }

  lemma SyncedMemory(outbox: Outbox.Outbox)
    requires outbox.Valid()
    ensures Synced(outbox.fs.disk, outbox.Mem())
  {
    hide Synced;
  }

  lemma OpenEnabled(w: World)
    requires w.process.None? && View(w.disk).Ok?
    ensures Enabled(w, Open)
  {
    hide View;
  }

  lemma OpenKilledNext(parse: Parser, w: World, left: Disk)
    requires w.process.None? && KilledDuring(w.disk, OpenOps(w.disk), left)
    ensures Enabled(w, OpenKilledStep(left)) && Next(parse, w, OpenKilledStep(left)) == w.(disk := left)
  {
    hide KilledDuring, OpenOps;
  }
}
