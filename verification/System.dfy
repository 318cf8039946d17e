/**
 * The whole protocol: generation, sending, commits at the server, answers that are
 * lost, late or garbled, and kills at any byte of any file step, in any interleaving.
 */
module System {
  import opened Ack
  import opened Basics
  import opened Batching
  import opened Codec
  import opened DaemonModel
  import opened Disk
  import opened Framing
  import opened Ingestion
  import opened JournalFiles
  import opened Opening
  import opened OutboxModel
  import opened Reacting
  import opened Recovery
  import opened SplitPlan

  /** How the server parses an event it receives; it reads the event_id the sender wrote. */
  type Parser = Event -> RawEvent

  ghost predicate ParserFaithful(parse: Parser) {
    forall e :: parse(e).RawObject? && parse(e).eventId.Some? ==> parse(e).eventId.value == e.eventId
  }

  function Raws(parse: Parser, events: seq<Event>): (raws: seq<RawEvent>)
    ensures |raws| == |events|
    ensures forall i :: 0 <= i < |events| ==> raws[i] == parse(events[i])
  {
    seq(|events|, i requires 0 <= i < |events| => parse(events[i]))
  }

  datatype Reply = Reply(batchId: Bytes, response: BatchResponse)

  /**
   * The state of the world. Three components are history: every request ever sent, every
   * event ever recorded (its line reached the journal), and every event whose appendMany
   * returned to its caller.
   */
  datatype World = World(
    disk: Disk, process: Option<Process>, tables: Tables, replies: set<Reply>,
    sent: set<Request>, recorded: seq<Event>, returned: set<Event>)

  const START := World(EMPTY_DISK, None, EMPTY_TABLES, {}, {}, [], {})

  predicate Stored(tables: Tables, e: Event) {
    ToLower(e.eventId) in tables.events
  }

  // ---------- Steps ----------

  function RecordedIn(d: Disk): nat {
    match View(d)
    case Ok(q) => q.recordedCount
    case Err(_) => 0
  }

  /** The events of an interrupted appendMany whose lines are complete on disk. */
  function Durable(before: Disk, after: Disk, events: seq<Event>): seq<Event> {
    var n := RecordedIn(after) - RecordedIn(before);
    if 0 <= n <= |events| then events[..n] else []
  }

  datatype Step =
    | Record(events: seq<Event>)
    | RecordKilled(events: seq<Event>, left: Disk)
    | Send(batchId: Bytes)
    | Commit(request: Request)
    | Lose
    | Answer(status: int, body: Body, retryAfter: Option<real>, detail: Bytes)
    | AnswerKilled(status: int, body: Body, retryAfter: Option<real>, detail: Bytes, left: Disk)
    | Kill
    | Open
    | OpenKilledStep(left: Disk)

  /** A validated 200 is truthful when everything it does not reject is stored by then. */
  ghost predicate Truthful(tables: Tables, request: Request, status: int, body: Body) {
    status == 200 && Validate(body, request.batchId, IdsOf(request.events)).Ok? ==>
      var response := Validate(body, request.batchId, IdsOf(request.events)).value;
      forall k :: 0 <= k < |request.events| && k !in RejectedIndexes(response) ==> Stored(tables, request.events[k])
  }

  function KnownFailures(d: Disk): seq<Bytes> {
    match DecodeFailedAll(FailedLines(d))
    case Some(ids) => ids
    case None => []
  }

  ghost predicate Enabled(w: World, step: Step) {
    match step
    case Record(_) => w.process.Some?
    case RecordKilled(events, left) => w.process.Some? && KilledDuring(w.disk, AppendOps(events), left)
    case Send(batchId) =>
      && w.process.Some? && !w.process.value.halted && w.process.value.inFlight.None?
      && w.process.value.mem.pending != []
      && forall r :: r in w.sent ==> r.batchId != batchId
    case Commit(request) => request in w.sent
    case Lose => w.process.Some? && w.process.value.inFlight.Some?
    case Answer(status, body, retryAfter, detail) =>
      && w.process.Some? && w.process.value.inFlight.Some?
      && Truthful(w.tables, w.process.value.inFlight.value, status, body)
      && ReactionIn(w, step).confirm <= |w.process.value.mem.pending|
    case AnswerKilled(status, body, retryAfter, detail, left) =>
      && w.process.Some? && w.process.value.inFlight.Some?
      && Truthful(w.tables, w.process.value.inFlight.value, status, body)
      && ReactionIn(w, step).confirm <= |w.process.value.mem.pending|
      && KilledDuring(w.disk, AnswerOps(w, step), left)
    case Kill => w.process.Some?
    case Open => w.process.None? && View(w.disk).Ok?
    case OpenKilledStep(left) => w.process.None? && KilledDuring(w.disk, OpenOps(w.disk), left)
  }

  function ReactionIn(w: World, step: Step): Reaction
    requires step.Answer? || step.AnswerKilled?
    requires w.process.Some? && w.process.value.inFlight.Some?
  {
    ReactionTo(w.process.value.inFlight.value, w.process.value.plan, step.status, step.body, step.retryAfter)
  }

  function AnswerOps(w: World, step: Step): seq<FileOp>
    requires step.Answer? || step.AnswerKilled?
    requires w.process.Some? && w.process.value.inFlight.Some?
    requires ReactionIn(w, step).confirm <= |w.process.value.mem.pending|
  {
    ReactOps(w.process.value.mem, Elements(KnownFailures(w.disk)), ReactionIn(w, step), step.detail)
  }

  function BatchOf(p: Process): seq<Event> {
    var pending := EventsOf(p.mem.pending);
    pending[..Head(pending, Cap(p.plan), MAX_BATCH_BYTES)]
  }

  function Next(parse: Parser, w: World, step: Step): World
    requires Enabled(w, step)
  {
    match step
    case Record(events) =>
      w.(disk := ExecAll(w.disk, AppendOps(events)),
         process := Some(w.process.value.(mem := AppendMemory(w.process.value.mem, events))),
         recorded := w.recorded + events,
         returned := w.returned + Elements(events))
    case RecordKilled(events, left) =>
      w.(disk := left, process := None, recorded := w.recorded + Durable(w.disk, left, events))
    case Send(batchId) =>
      var request := Request(batchId, BatchOf(w.process.value));
      w.(process := Some(w.process.value.(inFlight := Some(request))), sent := w.sent + {request})
    case Commit(request) =>
      var raws := Raws(parse, request.events);
      w.(tables := IngestTables(w.tables, raws),
         replies := w.replies + {Reply(request.batchId, IngestResponse(w.tables, request.batchId, raws))})
    case Lose => w.(process := Some(w.process.value.(inFlight := None)))
    case Answer(_, _, _, _) =>
      var (p, reaction) := (w.process.value, ReactionIn(w, step));
      w.(disk := ExecAll(w.disk, AnswerOps(w, step)),
         process := Some(Process(ConfirmMemory(p.mem, reaction.confirm), reaction.plan, None,
                                 p.halted || reaction.halted)))
    case AnswerKilled(_, _, _, _, left) => w.(disk := left, process := None)
    case Kill => w.(process := None)
    case Open =>
      w.(disk := ExecAll(w.disk, OpenOps(w.disk)), process := Some(Process(OpenedMem(w.disk), [], None, false)))
    case OpenKilledStep(left) => w.(disk := left)
  }

  // ---------- The steps of the sender, spelled out ----------

  lemma RecordNext(parse: Parser, w: World, events: seq<Event>)
    requires w.process.Some?
    ensures Enabled(w, Record(events))
    ensures Next(parse, w, Record(events)) ==
            w.(disk := ExecAll(w.disk, AppendOps(events)),
               process := Some(w.process.value.(mem := AppendMemory(w.process.value.mem, events))),
               recorded := w.recorded + events,
               returned := w.returned + Elements(events))
  {
    hide ExecAll, AppendOps, AppendMemory, Elements;
  }

  lemma AnswerNext(parse: Parser, w: World, step: Step)
    requires w.process.Some? && step.Answer? && Enabled(w, step)
    ensures w.process.value.inFlight.Some?
    ensures var p := w.process.value;
            var r := ReactionTo(p.inFlight.value, p.plan, step.status, step.body, step.retryAfter);
            && Truthful(w.tables, p.inFlight.value, step.status, step.body) && r.confirm <= |p.mem.pending|
            && ReactionIn(w, step) == r
            && Next(parse, w, step) ==
               w.(disk := ExecAll(w.disk, ReactOps(p.mem, Elements(KnownFailures(w.disk)), r, step.detail)),
                  process := Some(Process(ConfirmMemory(p.mem, r.confirm), r.plan, None, p.halted || r.halted)))
  {
    hide ExecAll, ReactOps, Elements, KnownFailures, ConfirmMemory, ReactionTo, Truthful;
  }

  lemma AnswerKilledNext(parse: Parser, w: World, step: Step, left: Disk)
    requires w.process.Some? && step.Answer? && Enabled(w, step)
    requires KilledDuring(w.disk, AnswerOps(w, step), left)
    ensures var killed := AnswerKilled(step.status, step.body, step.retryAfter, step.detail, left);
            Enabled(w, killed) && Next(parse, w, killed) == w.(disk := left, process := None)
  {
    hide ReactOps, Elements, KnownFailures, ReactionTo, Truthful, KilledDuring;
  }

  lemma AnswerOpsAre(w: World, step: Step)
    requires w.process.Some? && w.process.value.inFlight.Some? && step.Answer?
    requires ReactionIn(w, step).confirm <= |w.process.value.mem.pending|
    ensures ReactionIn(w, step) ==
            ReactionTo(w.process.value.inFlight.value, w.process.value.plan, step.status, step.body, step.retryAfter)
    ensures AnswerOps(w, step) ==
            ReactOps(w.process.value.mem, Elements(KnownFailures(w.disk)), ReactionIn(w, step), step.detail)
  {
    hide ReactOps, Elements, KnownFailures, ReactionTo;
  }

  lemma AnswerEnabled(w: World, step: Step)
    requires w.process.Some? && w.process.value.inFlight.Some? && step.Answer?
    requires Truthful(w.tables, w.process.value.inFlight.value, step.status, step.body)
    requires ReactionIn(w, step).confirm <= |w.process.value.mem.pending|
    ensures Enabled(w, step)
  {
    hide Truthful, ReactionIn;
  }

  lemma SendNext(parse: Parser, w: World, batchId: Bytes)
    requires w.process.Some? && !w.process.value.halted && w.process.value.inFlight.None?
    requires w.process.value.mem.pending != [] && forall r :: r in w.sent ==> r.batchId != batchId
    ensures Enabled(w, Step.Send(batchId))
    ensures var request := Request(batchId, BatchOf(w.process.value));
            Next(parse, w, Step.Send(batchId)) ==
            w.(process := Some(w.process.value.(inFlight := Some(request))), sent := w.sent + {request})
  {
    hide BatchOf;
  }

  lemma LoseNext(parse: Parser, w: World)
    requires w.process.Some? && w.process.value.inFlight.Some?
    ensures Enabled(w, Lose)
    ensures Next(parse, w, Lose) == w.(process := Some(w.process.value.(inFlight := None)))
  {
  }

  // ---------- The ledger ----------

  ghost predicate Accounted(tables: Tables, failed: seq<Bytes>, e: Event) {
    Stored(tables, e) || e.eventId in failed
  }

  /**
   * What was recorded is what has been settled followed by what is pending, in order, and
   * everything settled is in the event table or in the failed journal.
   */
  ghost predicate Ledger(recorded: seq<Event>, q: Queue, tables: Tables) {
    && |q.pending| <= |recorded| == q.recordedCount
    && q.pending == recorded[|recorded| - |q.pending|..]
    && (forall i :: 0 <= i < |recorded| - |q.pending| ==> Accounted(tables, q.failed, recorded[i]))
    && Distinct(q.failed)
    && (forall id :: id in q.failed ==> exists e :: e in recorded && e.eventId == id)
  }

  lemma LedgerRecords(recorded: seq<Event>, q: Queue, tables: Tables, events: seq<Event>)
    requires Ledger(recorded, q, tables)
    ensures Ledger(recorded + events, Queue(q.pending + events, q.recordedCount + |events|, q.failed), tables)
  {
    forall id | id in q.failed ensures exists e :: e in recorded + events && e.eventId == id {
      var e :| e in recorded && e.eventId == id;
      assert e in recorded + events;
    }
  }

  lemma LedgerStores(recorded: seq<Event>, q: Queue, before: Tables, after: Tables)
    requires Ledger(recorded, q, before)
    requires before.events.Keys <= after.events.Keys
    ensures Ledger(recorded, q, after)
  {
    forall i | 0 <= i < |recorded| - |q.pending| ensures Accounted(after, q.failed, recorded[i]) {
      assert Accounted(before, q.failed, recorded[i]);
    }
  }

  /** Quarantining events of the queue, and confirming a head whose events are all accounted for. */
  lemma LedgerSettles(recorded: seq<Event>, q: Queue, tables: Tables, failed: seq<Bytes>, count: nat)
    requires Ledger(recorded, q, tables)
    requires Distinct(failed) && q.failed <= failed
    requires forall id :: id in failed ==> id in q.failed || exists e :: e in q.pending && e.eventId == id
    requires count <= |q.pending|
    requires forall k :: 0 <= k < count ==> Accounted(tables, failed, q.pending[k])
    ensures Ledger(recorded, Queue(q.pending[count..], q.recordedCount, failed), tables)
  {
    var settled := |recorded| - |q.pending|;
    forall i | 0 <= i < settled + count ensures Accounted(tables, failed, recorded[i]) {
      if i < settled {
        assert Accounted(tables, q.failed, recorded[i]);
        assert forall id :: id in q.failed ==> id in failed;
      } else {
        assert recorded[i] == q.pending[i - settled];
      }
    }
    forall id | id in failed ensures exists e :: e in recorded && e.eventId == id {
      if id !in q.failed {
        var e :| e in q.pending && e.eventId == id;
        assert e in recorded;
      }
    }
  }

  // ---------- The invariant ----------

  /** A batch that may be in flight: a non-empty prefix of the queue, no longer than its plan segment. */
  ghost predicate FlightOk(inFlight: Option<Request>, pending: seq<Event>, plan: seq<nat>, sent: set<Request>) {
    inFlight.Some? ==>
      var batch := inFlight.value.events;
      inFlight.value in sent && batch != [] && batch <= pending && |batch| <= Cap(plan)
  }

  ghost predicate RunningOk(disk: Disk, p: Process, sent: set<Request>) {
    && Synced(disk, p.mem) && Tail(Read(disk, Failed)) == []
    && PlanOk(p.plan, |p.mem.pending|)
    && FlightOk(p.inFlight, EventsOf(p.mem.pending), p.plan, sent)
  }

  ghost predicate ProcessOk(disk: Disk, process: Option<Process>, sent: set<Request>) {
    process.Some? ==> RunningOk(disk, process.value, sent)
  }

  /** Only recorded events are ever sent, and a batch id names one request. */
  ghost predicate SentOk(sent: set<Request>, recorded: seq<Event>) {
    && (forall r, e :: r in sent && e in r.events ==> e in recorded)
    && (forall a, b :: a in sent && b in sent && a.batchId == b.batchId ==> a == b)
  }

  /** The server's events came from recorded ones. */
  ghost predicate TablesFrom(parse: Parser, tables: Tables, recorded: seq<Event>) {
    forall id :: id in tables.events ==>
      exists e :: e in recorded && ToLower(e.eventId) == id && ValidateEvent(parse(e)) == Accept(tables.events[id])
  }

  /** A reply rejects only refused events, and everything else in its request is stored. */
  ghost predicate ReplyOk(parse: Parser, reply: Reply, request: Request, tables: Tables) {
    forall k :: 0 <= k < |request.events| ==>
      if k in RejectedIndexes(reply.response) then ValidateEvent(parse(request.events[k])).Reject?
      else Stored(tables, request.events[k])
  }

  ghost predicate RepliesOk(parse: Parser, w: World) {
    forall reply :: reply in w.replies ==>
      exists request :: request in w.sent && request.batchId == reply.batchId &&
          ReplyOk(parse, reply, request, w.tables)
  }

  /** The queue on disk, the history of recorded events, and the memory of a running sender agree. */
  ghost predicate DiskSide(w: World) {
    && View(w.disk).Ok?
    && Ledger(w.recorded, View(w.disk).value, w.tables)
    && w.returned <= Elements(w.recorded)
    && ProcessOk(w.disk, w.process, w.sent)
  }

  ghost predicate NetSide(parse: Parser, w: World) {
    && SentOk(w.sent, w.recorded)
    && TablesOk(w.tables) && TablesFrom(parse, w.tables, w.recorded)
    && RepliesOk(parse, w)
  }

  ghost predicate Inv(parse: Parser, w: World) {
    DiskSide(w) && NetSide(parse, w)
  }

  // ---------- Steps of the sender ----------

  /** The view of the directory of a running sender is its memory's queue. */
  lemma RunningView(disk: Disk, p: Process, sent: set<Request>)
    requires RunningOk(disk, p, sent)
    ensures Synced(disk, p.mem) && Tail(Read(disk, Failed)) == []
    ensures DecodeFailedAll(FailedLines(disk)).Some? && KnownFailures(disk) == FailedIds(disk)
    ensures View(disk) == Ok(Queue(EventsOf(p.mem.pending), p.mem.RecordedCount(), FailedIds(disk)))
    ensures RecordedIn(disk) == p.mem.RecordedCount()
    ensures PlanOk(p.plan, |p.mem.pending|)
    ensures FlightOk(p.inFlight, EventsOf(p.mem.pending), p.plan, sent)
  {
    hide Synced, View, QueueOfMemory, FailedLines, DecodeFailedAll, PlanOk, FlightOk;
    SyncedAccounting(disk, p.mem);
    QueueIs(disk, p.mem);
  }

  lemma NetGrows(parse: Parser, w: World, w': World)
    requires NetSide(parse, w)
    requires w'.sent == w.sent && w'.tables == w.tables && w'.replies == w.replies && w.recorded <= w'.recorded
    ensures NetSide(parse, w')
  {
    hide ReplyOk, TablesOk;
    assert forall e :: e in w.recorded ==> e in w'.recorded;
    forall id | id in w'.tables.events
      ensures exists e :: e in w'.recorded && ToLower(e.eventId) == id &&
                ValidateEvent(parse(e)) == Accept(w'.tables.events[id])
    {
      var e :| e in w.recorded && ToLower(e.eventId) == id && ValidateEvent(parse(e)) == Accept(w.tables.events[id]);
      assert e in w'.recorded;
    }
  }

  lemma RecordKeeps(w: World, events: seq<Event>, w': World)
    requires DiskSide(w) && w.process.Some?
    requires w' == w.(disk := ExecAll(w.disk, AppendOps(events)),
                      process := Some(w.process.value.(mem := AppendMemory(w.process.value.mem, events))),
                      recorded := w.recorded + events, returned := w.returned + Elements(events))
    ensures DiskSide(w')
  {
    hide Synced, View, Ledger, AppendOps, ExecAll, RunningOk, FailedLines, DecodeFailedAll;
    RecordRuns(w.disk, w.process.value, w.sent, events);
    RunningView(w.disk, w.process.value, w.sent);
    LedgerRecords(w.recorded, View(w.disk).value, w.tables, events);
    assert Elements(w'.recorded) == Elements(w.recorded) + Elements(events);
  }

  /** A completed appendMany: the sender keeps running, with the events behind its queue. */
  lemma RecordRuns(disk: Disk, p: Process, sent: set<Request>, events: seq<Event>)
    requires RunningOk(disk, p, sent)
    ensures DecodeFailedAll(FailedLines(disk)).Some?
    ensures var disk' := ExecAll(disk, AppendOps(events));
            && RunningOk(disk', p.(mem := AppendMemory(p.mem, events)), sent)
            && View(disk') == Ok(Queue(EventsOf(p.mem.pending) + events, p.mem.RecordedCount() + |events|,
                FailedIds(disk)))
  {
    hide *;
    var disk' := ExecAll(disk, AppendOps(events));
    var p' := p.(mem := AppendMemory(p.mem, events));
    RunningView(disk, p, sent);
    AppendDone(disk, p.mem, events);
    SyncedAccounting(disk', p'.mem);
    QueueIs(disk', p'.mem);
    SameFailedIds(disk, disk');
    AppendMemoryEvents(p.mem, events);
    PlanGrows(p.plan, |p.mem.pending|, |p'.mem.pending|);
    FlightGrows(p.inFlight, EventsOf(p.mem.pending), events, p.plan, sent);
    RunningMade(disk', p', sent);
  }

  lemma AppendMemoryEvents(m: Memory, events: seq<Event>)
    ensures EventsOf(AppendMemory(m, events).pending) == EventsOf(m.pending) + events
    ensures AppendMemory(m, events).RecordedCount() == m.RecordedCount() + |events|
  {
  }

  lemma FlightGrows(inFlight: Option<Request>, pending: seq<Event>, events: seq<Event>, plan: seq<nat>,
      sent: set<Request>)
    requires FlightOk(inFlight, pending, plan, sent)
    ensures FlightOk(inFlight, pending + events, plan, sent)
  {
    hide Cap;
  }

  lemma RunningMade(disk: Disk, p: Process, sent: set<Request>)
    requires Synced(disk, p.mem) && Tail(Read(disk, Failed)) == []
    requires PlanOk(p.plan, |p.mem.pending|) && FlightOk(p.inFlight, EventsOf(p.mem.pending), p.plan, sent)
    ensures RunningOk(disk, p, sent)
  {
    hide Synced, Tail, PlanOk, FlightOk;
  }

  lemma PlanGrows(plan: seq<nat>, before: nat, after: nat)
    requires PlanOk(plan, before) && before <= after
    ensures PlanOk(plan, after)
  {
  }

  lemma RecordKilledKeeps(w: World, events: seq<Event>, left: Disk, w': World)
    requires DiskSide(w) && w.process.Some? && KilledDuring(w.disk, AppendOps(events), left)
    requires w' == w.(disk := left, process := None, recorded := w.recorded + Durable(w.disk, left, events))
    ensures DiskSide(w')
  {
    hide Synced, View, Ledger, AppendOps, KilledDuring, FailedLines, DecodeFailedAll, RunningOk;
    RunningView(w.disk, w.process.value, w.sent);
    var n := AppendKilled(w.disk, w.process.value.mem, events, left);
    assert Durable(w.disk, left, events) == events[..n];
    LedgerRecords(w.recorded, View(w.disk).value, w.tables, events[..n]);
    assert Elements(w.recorded) <= Elements(w'.recorded);
  }

  lemma SendKeeps(parse: Parser, w: World, batchId: Bytes)
    requires Inv(parse, w) && Enabled(w, Step.Send(batchId))
    ensures Inv(parse, Next(parse, w, Step.Send(batchId)))
  {
    hide Synced, View, Ledger, Tail, Head, TablesOk, TablesFrom, ReplyOk, FailedLines, DecodeFailedAll;
    var p := w.process.value;
    var pending := EventsOf(p.mem.pending);
    var request := Request(batchId, BatchOf(p));
    BatchFits(p.plan, pending, |p.mem.pending|);
    RunningView(w.disk, p, w.sent);
    PendingRecorded(w.recorded, View(w.disk).value, w.tables);
    forall r, e | r in w.sent + {request} && e in r.events ensures e in w.recorded {
      if r == request {
        assert e in pending;
      }
    }
  }

  lemma BatchFits(plan: seq<nat>, pending: seq<Event>, pendingCount: nat)
    requires PlanOk(plan, pendingCount) && pending != []
    ensures 0 < Head(pending, Cap(plan), MAX_BATCH_BYTES) <= |pending|
    ensures Head(pending, Cap(plan), MAX_BATCH_BYTES) <= Cap(plan)
  {
    hide HeadLength, BatchBodyByteLength;
    assert pending[..0] == [];
    HeadIsLongest(pending, Cap(plan), MAX_BATCH_BYTES, 0);
  }

  lemma PendingRecorded(recorded: seq<Event>, q: Queue, tables: Tables)
    requires Ledger(recorded, q, tables)
    ensures forall e :: e in q.pending ==> e in recorded
  {
  }

  // ---------- Steps of the server ----------

  lemma CommitKeeps(parse: Parser, w: World, request: Request)
    requires ParserFaithful(parse) && Inv(parse, w) && request in w.sent
    ensures Inv(parse, Next(parse, w, Commit(request)))
  {
    hide View, Ledger, TablesOk, ProcessOk, IngestResponse, IngestTables, ReplyOk, SentOk;
    var w' := Next(parse, w, Commit(request));
    var raws := Raws(parse, request.events);
    IngestKeepsTables(w.tables, raws);
    IngestStores(w.tables, raws);
    LedgerStores(w.recorded, View(w.disk).value, w.tables, w'.tables);
    CommittedFrom(parse, w, request);
    var added := Reply(request.batchId, IngestResponse(w.tables, request.batchId, raws));
    CommittedReply(parse, w.tables, request);
    forall reply | reply in w'.replies
      ensures exists r :: r in w'.sent && r.batchId == reply.batchId && ReplyOk(parse, reply, r, w'.tables)
    {
      if reply == added {
        assert ReplyOk(parse, reply, request, w'.tables);
      } else {
        var r :| r in w.sent && r.batchId == reply.batchId && ReplyOk(parse, reply, r, w.tables);
        ReplyStays(parse, reply, r, w.tables, w'.tables);
      }
    }
  }

  lemma ReplyStays(parse: Parser, reply: Reply, request: Request, before: Tables, after: Tables)
    requires ReplyOk(parse, reply, request, before) && before.events.Keys <= after.events.Keys
    ensures ReplyOk(parse, reply, request, after)
  {
  }

  lemma {:induction false} AcceptedFrom(parse: Parser, events: seq<Event>, n: NormalizedEvent)
    requires n in Accepted(Raws(parse, events))
    ensures exists e :: e in events && ValidateEvent(parse(e)) == Accept(n)
    decreases |events|
  {
    hide ValidateEvent;
    var last := |events| - 1;
    assert Raws(parse, events)[..last] == Raws(parse, events[..last]);
    if n in Accepted(Raws(parse, events[..last])) {
      AcceptedFrom(parse, events[..last], n);
      var e :| e in events[..last] && ValidateEvent(parse(e)) == Accept(n);
      assert e in events;
    } else {
      assert events[last] in events;
    }
  }

  lemma {:induction false} AcceptedListed(raws: seq<RawEvent>, k: nat)
    requires k < |raws| && ValidateEvent(raws[k]).Accept?
    ensures ValidateEvent(raws[k]).event in Accepted(raws)
  {
    hide ValidateEvent;
    var last := |raws| - 1;
    if k < last {
      AcceptedListed(raws[..last], k);
    }
  }

  lemma CommittedFrom(parse: Parser, w: World, request: Request)
    requires ParserFaithful(parse) && SentOk(w.sent, w.recorded) && TablesFrom(parse, w.tables, w.recorded) &&
               request in w.sent
    ensures TablesFrom(parse, IngestTables(w.tables, Raws(parse, request.events)), w.recorded)
  {
    hide ValidateEvent, IngestTables;
    var raws := Raws(parse, request.events);
    var after := IngestTables(w.tables, raws);
    IngestStores(w.tables, raws);
    forall id | id in after.events
      ensures exists e :: e in w.recorded && ToLower(e.eventId) == id &&
                ValidateEvent(parse(e)) == Accept(after.events[id])
    {
      if id !in w.tables.events {
        AcceptedFrom(parse, request.events, after.events[id]);
        var e :| e in request.events && ValidateEvent(parse(e)) == Accept(after.events[id]);
        AcceptedKeepsId(parse, e);
        assert e in w.recorded;
      }
    }
  }

  lemma AcceptedKeepsId(parse: Parser, e: Event)
    requires ParserFaithful(parse)
    ensures ValidateEvent(parse(e)).Accept? ==> ValidateEvent(parse(e)).event.eventId == ToLower(e.eventId)
  {
    hide EnvelopeErrors;
  }

  /** The reply of a commit is truthful about the tables after it. */
  lemma CommittedReply(parse: Parser, tables: Tables, request: Request)
    requires ParserFaithful(parse)
    ensures var raws := Raws(parse, request.events);
            var reply := Reply(request.batchId, IngestResponse(tables, request.batchId, raws));
            ReplyOk(parse, reply, request, IngestTables(tables, raws))
  {
    var raws := Raws(parse, request.events);
    var response := IngestResponse(tables, request.batchId, raws);
    ResponseParts(tables, request.batchId, raws);
    IngestStores(tables, raws);
    hide ValidateEvent, IngestTables, IngestResponse, Rejections;
    forall k | 0 <= k < |request.events|
      ensures if k in RejectedIndexes(response) then ValidateEvent(parse(request.events[k])).Reject?
              else Stored(IngestTables(tables, raws), request.events[k])
    {
      RefusedIsListed(raws, k);
      IndexListed(response.rejected, k);
      if k !in RejectedIndexes(response) {
        AcceptedListed(raws, k);
        AcceptedKeepsId(parse, request.events[k]);
      }
    }
  }

  lemma IndexListed(rejected: seq<Rejected>, k: nat)
    ensures k in Elements<nat>(IndexesOf(rejected)) <==> exists r :: r in rejected && r.index == k
  {
    if k in Elements<nat>(IndexesOf(rejected)) {
      var i :| 0 <= i < |rejected| && IndexesOf(rejected)[i] == k;
      assert rejected[i] in rejected;
    }
    if exists r :: r in rejected && r.index == k {
      var i :| 0 <= i < |rejected| && rejected[i].index == k;
      assert IndexesOf(rejected)[i] == k;
    }
  }

  // ---------- Answers ----------

  ghost predicate Covers(failed: seq<Bytes>, events: seq<Event>) {
    forall e :: e in events ==> e.eventId in failed
  }

  ghost predicate AllAccounted(tables: Tables, failed: seq<Bytes>, events: seq<Event>) {
    forall k :: 0 <= k < |events| ==> Accounted(tables, failed, events[k])
  }

  /** Once its quarantined events have records, everything a reaction confirms is accounted for. */
  ghost predicate Sound(tables: Tables, pending: seq<Event>, reaction: Reaction) {
    && reaction.confirm <= |pending|
    && (forall e :: e in reaction.quarantine ==> e in pending)
    && (forall failed :: Covers(failed, reaction.quarantine) ==>
        AllAccounted(tables, failed, pending[..reaction.confirm]))
  }

  /** The reaction to a truthful answer is sound, settles a whole batch or nothing, and keeps the plan. */
  lemma AnswerSound(tables: Tables, p: Process, sent: set<Request>, status: int, body: Body, retryAfter: Option<real>)
    requires p.inFlight.Some? && PlanOk(p.plan, |p.mem.pending|)
    requires FlightOk(p.inFlight, EventsOf(p.mem.pending), p.plan, sent)
    requires Truthful(tables, p.inFlight.value, status, body)
    ensures var reaction := ReactionTo(p.inFlight.value, p.plan, status, body, retryAfter);
            && Sound(tables, EventsOf(p.mem.pending), reaction)
            && PlanOk(reaction.plan, |p.mem.pending| - reaction.confirm)
  {
    hide Validate, Stored;
    var request := p.inFlight.value;
    var (batch, pending) := (request.events, EventsOf(p.mem.pending));
    var action := DecideAck(status, body, request.batchId, IdsOf(batch), retryAfter);
    ReactionKeepsPlan(action, batch, p.plan, |p.mem.pending|);
    var reaction := React(action, batch, p.plan);
    assert forall e :: e in batch ==> e in pending;
    if action.Confirm? {
      forall k | 0 <= k < |batch| ensures Stored(tables, batch[k]) || batch[k] in reaction.quarantine {
        if k in RejectedIndexes(action.response) {
          IndexListed(action.response.rejected, k);
          RejectedAre(action.response.rejected, batch, k);
        }
      }
    }
    hide DecideAck;
    assert reaction.confirm > 0 ==> pending[..reaction.confirm] == batch;
    forall failed | Covers(failed, reaction.quarantine)
      ensures AllAccounted(tables, failed, pending[..reaction.confirm])
    {
    }
  }

  /** The queue after a sound reaction, or after a kill inside it, keeps the ledger. */
  lemma SoundLedger(recorded: seq<Event>, q: Queue, tables: Tables, reaction: Reaction, count: nat, n: nat)
    requires Ledger(recorded, q, tables) && Sound(tables, q.pending, reaction)
    requires var failures := NewFailures(reaction.quarantine, Elements(q.failed));
             n <= |failures| && (count > 0 ==> n == |failures|)
    requires count <= reaction.confirm
    ensures var failed := q.failed + IdsOf(NewFailures(reaction.quarantine, Elements(q.failed)))[..n];
            Ledger(recorded, Queue(q.pending[count..], q.recordedCount, failed), tables)
  {
    hide Accounted, NewFailures, IdsOf;
    var failures := NewFailures(reaction.quarantine, Elements(q.failed));
    var failed := q.failed + IdsOf(failures)[..n];
    FailedAfterCovers(q.failed, reaction.quarantine, n);
    LedgerDistinct(recorded, q, tables);
    hide Ledger;
    if count > 0 {
      assert failed == FailedAfter(q.failed, reaction.quarantine);
      assert Covers(failed, reaction.quarantine);
      assert AllAccounted(tables, failed, q.pending[..reaction.confirm]);
    }
    LedgerSettles(recorded, q, tables, failed, count);
  }

  lemma LedgerDistinct(recorded: seq<Event>, q: Queue, tables: Tables)
    requires Ledger(recorded, q, tables)
    ensures Distinct(q.failed)
  {
  }

  lemma AnswerRuns(disk: Disk, p: Process, sent: set<Request>, reaction: Reaction, detail: Bytes, halted: bool)
    requires RunningOk(disk, p, sent) && reaction.confirm <= |p.mem.pending|
    requires PlanOk(reaction.plan, |p.mem.pending| - reaction.confirm)
    ensures DecodeFailedAll(FailedLines(disk)).Some?
    ensures var disk' := ExecAll(disk, ReactOps(p.mem, Elements(KnownFailures(disk)), reaction, detail));
            && RunningOk(disk', Process(ConfirmMemory(p.mem, reaction.confirm), reaction.plan, None, halted), sent)
            && View(disk') == Ok(Queue(EventsOf(p.mem.pending)[reaction.confirm..], p.mem.RecordedCount(),
                                       FailedAfter(FailedIds(disk), reaction.quarantine)))
  {
    hide *;
    RunningView(disk, p, sent);
    ReactDone(disk, p.mem, reaction, detail);
    var disk' := ExecAll(disk, ReactOps(p.mem, Elements(FailedIds(disk)), reaction, detail));
    var p' := Process(ConfirmMemory(p.mem, reaction.confirm), reaction.plan, None, halted);
    SyncedAccounting(disk', p'.mem);
    QueueIs(disk', p'.mem);
    NoFlight(EventsOf(p'.mem.pending), p'.plan, sent);
    RunningMade(disk', p', sent);
  }

  lemma NoFlight(pending: seq<Event>, plan: seq<nat>, sent: set<Request>)
    ensures FlightOk(None, pending, plan, sent)
  {
  }

  lemma FailedAfterIs(failed: seq<Bytes>, events: seq<Event>)
    ensures FailedAfter(failed, events) ==
            failed + IdsOf(NewFailures(events, Elements(failed)))[..|NewFailures(events, Elements(failed))|]
  {
    hide NewFailures;
    var failures := NewFailures(events, Elements(failed));
    assert IdsOf(failures)[..|failures|] == IdsOf(failures);
  }

  lemma AnswerKeeps(parse: Parser, w: World, step: Step)
    requires DiskSide(w) && step.Answer? && Enabled(w, step)
    ensures DiskSide(Next(parse, w, step))
  {
    hide Synced, View, Ledger, RunningOk, Truthful, ReactOps, ExecAll, FailedLines, DecodeFailedAll, NewFailures,
         Sound, PlanOk, FlightOk;
    var (p, reaction) := (w.process.value, ReactionIn(w, step));
    RunningView(w.disk, p, w.sent);
    AnswerSound(w.tables, p, w.sent, step.status, step.body, step.retryAfter);
    AnswerRuns(w.disk, p, w.sent, reaction, step.detail, p.halted || reaction.halted);
    var q := View(w.disk).value;
    SoundLedger(w.recorded, q, w.tables, reaction, reaction.confirm,
                |NewFailures(reaction.quarantine, Elements(q.failed))|);
    FailedAfterIs(q.failed, reaction.quarantine);
  }

  lemma AnswerKilledKeeps(parse: Parser, w: World, step: Step)
    requires DiskSide(w) && step.AnswerKilled? && Enabled(w, step)
    ensures DiskSide(Next(parse, w, step))
  {
    hide Synced, View, Ledger, RunningOk, Truthful, ReactOps, KilledDuring, FailedLines, DecodeFailedAll,
         NewFailures, Sound, PlanOk, FlightOk;
    var (p, reaction) := (w.process.value, ReactionIn(w, step));
    RunningView(w.disk, p, w.sent);
    AnswerSound(w.tables, p, w.sent, step.status, step.body, step.retryAfter);
    var n := ReactKilled(w.disk, p.mem, reaction, step.detail, step.left);
    var q := View(w.disk).value;
    SoundLedger(w.recorded, q, w.tables, reaction, 0, n);
    assert q.pending[0..] == q.pending;
    if n == |NewFailures(reaction.quarantine, Elements(q.failed))| {
      SoundLedger(w.recorded, q, w.tables, reaction, reaction.confirm, n);
    }
  }

  lemma OpenKeeps(parse: Parser, w: World, step: Step)
    requires DiskSide(w) && (step.Open? || step.OpenKilledStep?) && Enabled(w, step)
    ensures DiskSide(Next(parse, w, step))
  {
    hide *;
    DiskSideParts(w);
    if step.Open? {
      OpenedSync(w.disk);
      NextOpen(parse, w);
      var (disk', m) := (ExecAll(w.disk, OpenOps(w.disk)), OpenedMem(w.disk));
      NoPlan(|m.pending|);
      NoFlight(EventsOf(m.pending), [], w.sent);
      RunningMade(disk', Process(m, [], None, false), w.sent);
    } else {
      OpenLeft(w, step);
      OpenKilled(w.disk, step.left);
      NextOpenKilled(parse, w, step);
    }
    DiskSideParts(Next(parse, w, step));
  }

  lemma DiskSideParts(w: World)
    ensures DiskSide(w) <==>
              && View(w.disk).Ok? && Ledger(w.recorded, View(w.disk).value, w.tables)
              && w.returned <= Elements(w.recorded)
              && (w.process.Some? ==> RunningOk(w.disk, w.process.value, w.sent))
  {
    hide View, Ledger, RunningOk;
  }

  lemma NoPlan(pendingCount: nat)
    ensures PlanOk([], pendingCount)
  {
  }

  lemma NextOpen(parse: Parser, w: World)
    requires Enabled(w, Open)
    ensures View(w.disk).Ok?
    ensures Next(parse, w, Open) ==
            w.(disk := ExecAll(w.disk, OpenOps(w.disk)), process := Some(Process(OpenedMem(w.disk), [], None, false)))
  {
    hide View, ExecAll, OpenOps, OpenedMem;
  }

  lemma OpenLeft(w: World, step: Step)
    requires step.OpenKilledStep? && Enabled(w, step)
    ensures w.process.None? && KilledDuring(w.disk, OpenOps(w.disk), step.left)
  {
    hide KilledDuring, OpenOps;
  }

  lemma NextOpenKilled(parse: Parser, w: World, step: Step)
    requires step.OpenKilledStep? && Enabled(w, step)
    ensures Next(parse, w, step) == w.(disk := step.left) && w.process.None?
  {
    hide KilledDuring, OpenOps;
  }

  // ---------- Every step, every run ----------

  lemma StepKeeps(parse: Parser, w: World, step: Step)
    requires ParserFaithful(parse) && Inv(parse, w) && Enabled(w, step)
    ensures Inv(parse, Next(parse, w, step))
  {
    hide View, Ledger, RunningOk, NetSide, Truthful, KilledDuring, ReactOps, ExecAll, OpenOps, AppendOps,
         IngestTables, IngestResponse;
    var w' := Next(parse, w, step);
    match step {
      case Record(events) =>
        RecordKeeps(w, events, w');
        NetGrows(parse, w, w');
      case RecordKilled(events, left) =>
        RecordKilledKeeps(w, events, left, w');
        NetGrows(parse, w, w');
      case Send(batchId) =>
        SendKeeps(parse, w, batchId);
      case Commit(request) =>
        CommitSent(w, request);
        CommitKeeps(parse, w, request);
      case Lose =>
        LoseKeeps(w);
        NetGrows(parse, w, w');
      case Answer(_, _, _, _) =>
        AnswerKeeps(parse, w, step);
        NetGrows(parse, w, w');
      case AnswerKilled(_, _, _, _, _) =>
        AnswerKilledKeeps(parse, w, step);
        NetGrows(parse, w, w');
      case Kill =>
        NetGrows(parse, w, w');
      case Open =>
        OpenKeeps(parse, w, step);
        NetGrows(parse, w, w');
      case OpenKilledStep(_) =>
        OpenKeeps(parse, w, step);
        NetGrows(parse, w, w');
    }
  }

  lemma CommitSent(w: World, request: Request)
    requires Enabled(w, Commit(request))
    ensures request in w.sent
  {
  }

  lemma LoseKeeps(w: World)
    requires DiskSide(w) && w.process.Some?
    ensures DiskSide(w.(process := Some(w.process.value.(inFlight := None))))
  {
    hide View, Ledger, Synced, Tail, PlanOk;
  }

  /** An empty directory opens to an empty queue. */
  lemma StartView()
    ensures View(EMPTY_DISK) == Ok(Queue([], 0, []))
  {
    EmptyFileSound();
    assert ManifestUsable(EMPTY_DISK) && SettledJournal(EMPTY_DISK) == [] && Read(EMPTY_DISK, Failed) == [];
    hide Lines, Tail;
    assert DecodeAll([]) == Some([]) && DecodeFailedAll([]) == Some([]);
  }

  lemma StartOk(parse: Parser)
    ensures Inv(parse, START)
  {
    hide DiskSide, NetSide;
    StartDiskSide();
    StartNetSide(parse);
  }

  lemma StartDiskSide()
    ensures DiskSide(START)
  {
    hide View;
    StartView();
  }

  lemma StartNetSide(parse: Parser)
    ensures NetSide(parse, START)
  {
    hide ValidateEvent;
  }

  /** A run from empty disks and tables, any length, any interleaving. */
  ghost predicate IsRun(parse: Parser, run: seq<World>, steps: seq<Step>) {
    && |run| == |steps| + 1 && run[0] == START
    && forall i :: 0 <= i < |steps| ==> Enabled(run[i], steps[i]) && run[i + 1] == Next(parse, run[i], steps[i])
  }

  lemma {:induction false} RunKeeps(parse: Parser, run: seq<World>, steps: seq<Step>, i: nat)
    requires ParserFaithful(parse) && IsRun(parse, run, steps) && i < |run|
    ensures Inv(parse, run[i])
  {
    hide Inv, Enabled, Next;
    if i == 0 {
      StartOk(parse);
    } else {
      RunKeeps(parse, run, steps, i - 1);
      StepKeeps(parse, run[i - 1], steps[i - 1]);
    }
  }

  /**
   * No loss: at every point of every run, the directory can be opened, and every event
   * whose appendMany returned is pending in it, stored by the server, or recorded as
   * failed. Moreover the pending events are exactly the recorded ones that are not yet
   * settled, in order, and the recorded count is the number ever recorded.
   */
  lemma NoLoss(parse: Parser, run: seq<World>, steps: seq<Step>, i: nat)
    requires ParserFaithful(parse) && IsRun(parse, run, steps) && i < |run|
    ensures var w := run[i];
            && View(w.disk).Ok?
            && var q := View(w.disk).value;
               && (forall e :: e in w.returned ==> e in q.pending || Stored(w.tables, e) || e.eventId in q.failed)
               && q.recordedCount == |w.recorded| >= |q.pending|
               && q.pending == w.recorded[|w.recorded| - |q.pending|..]
               && (forall k :: 0 <= k < |w.recorded| - |q.pending| ==>
                     Stored(w.tables, w.recorded[k]) || w.recorded[k].eventId in q.failed)
               && Distinct(q.failed)
  {
    hide IsRun, View, ProcessOk, NetSide, Stored;
    RunKeeps(parse, run, steps, i);
    var w := run[i];
    var q := View(w.disk).value;
    forall e | e in w.returned ensures e in q.pending || Stored(w.tables, e) || e.eventId in q.failed {
      var k :| 0 <= k < |w.recorded| && w.recorded[k] == e;
      var settled := |w.recorded| - |q.pending|;
      if k < settled {
        assert Accounted(w.tables, q.failed, w.recorded[k]);
      } else {
        assert q.pending[k - settled] == e;
      }
    }
    forall k | 0 <= k < |w.recorded| - |q.pending|
      ensures Stored(w.tables, w.recorded[k]) || w.recorded[k].eventId in q.failed
    {
      assert Accounted(w.tables, q.failed, w.recorded[k]);
    }
  }
}
