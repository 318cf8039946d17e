/**
 * Runs against the modelled server: a deterministic verdict per event, 413 by body size
 * only, no 400 for a well-formed batch, and a commit only of what the guard and the tables
 * take. There the event table and the failed journal never overlap, and once nothing is
 * pending they partition what was recorded.
 */
module Reconciliation {
  import opened Ack
  import opened Admission
  import opened Basics
  import opened Batching
  import opened Codec
  import opened DaemonModel
  import opened Disk
  import opened Ingestion
  import JournalFiles
  import Opening
  import opened OutboxModel
  import opened Reacting
  import opened Recovery
  import opened System

  const MAX_BODY_BYTES: nat := 4 * 1024 * 1024

  predicate TooLarge(events: seq<Event>) {
    BatchBodyByteLength(events) > MAX_BODY_BYTES
  }

  /** The receiver: how it reads an event, the instance its key belongs to, and its columns. */
  datatype Server = Server(parse: Parser, mapped: Option<Bytes>, columns: Columns)

  /** Neither the guard nor the tables refuse a whole batch because of this event. */
  predicate Admitted(server: Server, e: Event) {
    && SameInstance(server.mapped, server.parse(e))
    && (ValidateEvent(server.parse(e)).Accept? ==> FitsTables(server.columns, ValidateEvent(server.parse(e)).event))
  }

  /** What the server takes: an event with an accepting verdict that fits into a request alone. */
  predicate Acceptable(server: Server, e: Event) {
    ValidateEvent(server.parse(e)).Accept? && Admitted(server, e) && !TooLarge([e])
  }

  /** What the server refuses for good: an event with a refusing verdict, or one too large for any request. */
  predicate Refusable(server: Server, e: Event) {
    TooLarge([e]) || (ValidateEvent(server.parse(e)).Reject? && Admitted(server, e))
  }

  /** What the server never settles: every batch with this event is answered 403 or 503. */
  predicate Blocked(server: Server, e: Event) {
    !TooLarge([e]) && !Admitted(server, e)
  }

  /** Every event is one of the three. */
  lemma OneOfThree(server: Server, e: Event)
    ensures Acceptable(server, e) <==> !Refusable(server, e) && !Blocked(server, e)
    ensures Refusable(server, e) ==> !Blocked(server, e)
  {
    hide ValidateEvent, TooLarge, Admitted;
  }

  // ---------- The server's own answers are truthful ----------

  lemma ReplyReadBack(r: BatchResponse, batchId: Bytes, ids: seq<Bytes>)
    requires Validate(BodyOf(r), batchId, ids).Ok?
    ensures RejectedIndexes(Validate(BodyOf(r), batchId, ids).value) == RejectedIndexes(r)
    ensures Validate(BodyOf(r), batchId, ids).value.rejected == r.rejected
  {
    var entries := BodyOf(r).rejected.value;
    CheckedShapes(entries, ids, {});
    assert EntriesOf(entries, |ids|) == r.rejected;
  }

  /** In every reachable state, a reply the server really made for the request in flight may be trusted. */
  lemma ServerAnswersTruthfully(parse: Parser, w: World, request: Request, reply: Reply)
    requires NetSide(parse, w)
    requires request in w.sent && reply in w.replies && reply.batchId == request.batchId
    ensures Truthful(w.tables, request, 200, BodyOf(reply.response))
    ensures ReplyOk(parse, reply, request, w.tables)
  {
    hide ReplyOk, TablesOk, TablesFrom, Validate, Stored;
    var other :| other in w.sent && other.batchId == reply.batchId && ReplyOk(parse, reply, other, w.tables);
    assert other == request;
    TruthfulReply(parse, reply, request, w.tables);
  }

  lemma TruthfulReply(parse: Parser, reply: Reply, request: Request, tables: Tables)
    requires ReplyOk(parse, reply, request, tables)
    ensures Truthful(tables, request, 200, BodyOf(reply.response))
  {
    hide Validate;
    if Validate(BodyOf(reply.response), request.batchId, IdsOf(request.events)).Ok? {
      ReplyReadBack(reply.response, request.batchId, IdsOf(request.events));
    }
  }

  /** With a truthful answer the reaction never asks for more than is pending. */
  lemma AnswerAlwaysPossible(w: World, status: int, body: Body, retryAfter: Option<real>, detail: Bytes)
    requires DiskSide(w) && w.process.Some? && w.process.value.inFlight.Some?
    requires Truthful(w.tables, w.process.value.inFlight.value, status, body)
    ensures Enabled(w, Answer(status, body, retryAfter, detail))
  {
    hide Synced, View, Ledger, Truthful, ReactionTo;
    AnswerSound(w.tables, w.process.value, w.sent, status, body, retryAfter);
  }

  // ---------- Steps of a run against the modelled server ----------

  ghost predicate HonestAnswer(w: World, status: int, body: Body)
    requires w.process.Some? && w.process.value.inFlight.Some?
  {
    var request := w.process.value.inFlight.value;
    && status != 400
    && (status == 413 ==> TooLarge(request.events))
    && (status == 200 ==>
          || Validate(body, request.batchId, IdsOf(request.events)).Err?
          || exists reply :: reply in w.replies && reply.batchId == request.batchId && body == BodyOf(reply.response))
  }

  /** The server commits a request within its limit that the guard passes and the tables can hold. */
  ghost predicate Takes(server: Server, tables: Tables, request: Request) {
    var raws := Raws(server.parse, request.events);
    && !TooLarge(request.events)
    && PassesGuard(server.mapped, raws)
    && Storable(server.columns, tables, FirstOfEachId(Accepted(raws)))
  }

  ghost predicate Honest(server: Server, w: World, step: Step)
    requires Enabled(w, step)
  {
    match step
    case Commit(request) => Takes(server, w.tables, request)
    case Answer(status, body, _, _) => HonestAnswer(w, status, body)
    case AnswerKilled(status, body, _, _, _) => HonestAnswer(w, status, body)
    case _ => true
  }

  /** Stored events are acceptable ones, failed events are refusable ones. */
  ghost predicate StoredAcceptable(server: Server, tables: Tables, recorded: seq<Event>) {
    forall id :: id in tables.events ==> exists e :: e in recorded && ToLower(e.eventId) == id && Acceptable(server, e)
  }

  ghost predicate FailedRefusable(server: Server, failed: seq<Bytes>, recorded: seq<Event>) {
    forall id :: id in failed ==> exists e :: e in recorded && e.eventId == id && Refusable(server, e)
  }

  /** Only requests that pass the guard are ever replied to. */
  ghost predicate RepliesGuarded(server: Server, replies: set<Reply>, sent: set<Request>) {
    forall reply :: reply in replies ==>
      exists request :: request in sent && request.batchId == reply.batchId &&
          PassesGuard(server.mapped, Raws(server.parse, request.events))
  }

  ghost predicate Separated(server: Server, w: World) {
    && View(w.disk).Ok?
    && StoredAcceptable(server, w.tables, w.recorded)
    && FailedRefusable(server, View(w.disk).value.failed, w.recorded)
    && RepliesGuarded(server, w.replies, w.sent)
  }

  lemma SeparatedGrows(server: Server, w: World, recorded: seq<Event>)
    requires StoredAcceptable(server, w.tables, w.recorded) && w.recorded <= recorded
    ensures StoredAcceptable(server, w.tables, recorded)
    ensures forall failed :: FailedRefusable(server, failed, w.recorded) ==> FailedRefusable(server, failed, recorded)
  {
    hide Acceptable, Refusable;
    assert forall e :: e in w.recorded ==> e in recorded;
    forall failed | FailedRefusable(server, failed, w.recorded) ensures FailedRefusable(server, failed, recorded) {
      forall id | id in failed ensures exists e :: e in recorded && e.eventId == id && Refusable(server, e) {
        var e :| e in w.recorded && e.eventId == id && Refusable(server, e);
        assert e in recorded;
      }
    }
    forall id | id in w.tables.events
      ensures exists e :: e in recorded && ToLower(e.eventId) == id && Acceptable(server, e)
    {
      var e :| e in w.recorded && ToLower(e.eventId) == id && Acceptable(server, e);
      assert e in recorded;
    }
  }

  lemma RepliesStayGuarded(server: Server, replies: set<Reply>, sent: set<Request>, more: set<Request>)
    requires RepliesGuarded(server, replies, sent) && sent <= more
    ensures RepliesGuarded(server, replies, more)
  {
    hide PassesGuard;
  }

  /** An event that travels in a body under the limit fits into a body alone. */
  lemma {:induction false} AloneIsSmaller(events: seq<Event>, e: Event)
    requires e in events
    ensures BatchBodyByteLength([e]) <= BatchBodyByteLength(events)
  {
    hide Encode;
    var last := |events| - 1;
    SuffixNotLonger(events, last);
    if e == events[last] {
      assert events[last..] == [e];
    } else {
      AloneIsSmaller(events[..last], e);
    }
  }

  lemma CommitSeparates(server: Server, w: World, request: Request)
    requires ParserFaithful(server.parse) && SentOk(w.sent, w.recorded) && request in w.sent
    requires StoredAcceptable(server, w.tables, w.recorded) && Takes(server, w.tables, request)
    ensures StoredAcceptable(server, IngestTables(w.tables, Raws(server.parse, request.events)), w.recorded)
  {
    hide ValidateEvent, IngestTables, BatchBodyByteLength, Storable, FitsTables;
    var raws := Raws(server.parse, request.events);
    var after := IngestTables(w.tables, raws);
    IngestStores(w.tables, raws);
    forall id | id in after.events
      ensures exists e :: e in w.recorded && ToLower(e.eventId) == id && Acceptable(server, e)
    {
      if id !in w.tables.events {
        AcceptedFrom(server.parse, request.events, after.events[id]);
        var e :| e in request.events && ValidateEvent(server.parse(e)) == Accept(after.events[id]);
        AcceptedKeepsId(server.parse, e);
        AloneIsSmaller(request.events, e);
        TakenAdmits(server, w.tables, request, e);
        assert e in w.recorded && Acceptable(server, e);
      }
    }
  }

  /** An event whose row a commit adds is admitted. */
  lemma TakenAdmits(server: Server, tables: Tables, request: Request, e: Event)
    requires Takes(server, tables, request) && e in request.events
    requires var after := IngestTables(tables, Raws(server.parse, request.events)).events;
             ValidateEvent(server.parse(e)).Accept? &&
             var id := ValidateEvent(server.parse(e)).event.eventId;
             id !in tables.events && id in after && after[id] == ValidateEvent(server.parse(e)).event
    ensures Admitted(server, e)
  {
    hide ValidateEvent, StoreBatch, TooLarge, SameInstance, Storable, FitsTables, Accepted, FirstOfEachId;
    var raws := Raws(server.parse, request.events);
    var k :| 0 <= k < |request.events| && request.events[k] == e;
    assert raws[k] == server.parse(e);
    NewRowsFit(server.columns, tables, Accepted(raws), ValidateEvent(server.parse(e)).event.eventId);
  }

  lemma {:induction false} RejectedOnlyListed(rejected: seq<Rejected>, batch: seq<Event>, e: Event)
    requires e in RejectedEvents(rejected, batch)
    ensures exists k :: 0 <= k < |batch| && batch[k] == e && exists r :: r in rejected && r.index == k
  {
    var last := |rejected| - 1;
    var rest := rejected[..last];
    if e in RejectedEvents(rest, batch) {
      RejectedOnlyListed(rest, batch, e);
      var k :| 0 <= k < |batch| && batch[k] == e && exists r :: r in rest && r.index == k;
      var r :| r in rest && r.index == k;
      assert r in rejected;
    } else {
      assert batch[rejected[last].index] == e && rejected[last] in rejected;
    }
  }

  /** A rejection in a reply the server really made is for an event it admits. */
  lemma RepliedIsGuarded(server: Server, w: World, request: Request, reply: Reply, e: Event)
    requires NetSide(server.parse, w) && RepliesGuarded(server, w.replies, w.sent)
    requires request in w.sent && reply in w.replies && reply.batchId == request.batchId && e in request.events
    ensures SameInstance(server.mapped, server.parse(e))
  {
    hide ReplyOk, TablesOk, TablesFrom, SameInstance;
    var other :| other in w.sent && other.batchId == reply.batchId &&
                 PassesGuard(server.mapped, Raws(server.parse, other.events));
    assert other == request;
    var k :| 0 <= k < |request.events| && request.events[k] == e;
    assert Raws(server.parse, request.events)[k] == server.parse(e);
  }

  /** Everything an honest answer sends to quarantine is refusable. */
  lemma QuarantinedRefusable(server: Server, w: World, status: int, body: Body, retryAfter: Option<real>)
    requires NetSide(server.parse, w) && RepliesGuarded(server, w.replies, w.sent)
    requires w.process.Some? && w.process.value.inFlight.Some?
    requires w.process.value.inFlight.value in w.sent && HonestAnswer(w, status, body)
    ensures var reaction := ReactionTo(w.process.value.inFlight.value, w.process.value.plan, status, body, retryAfter);
            forall e :: e in reaction.quarantine ==> Refusable(server, e)
  {
    hide NetSide, RepliesGuarded, ValidateEvent, Validate, Truthful, SameInstance, FitsTables, TooLarge;
    var p := w.process.value;
    var request := p.inFlight.value;
    var reaction := ReactionTo(request, p.plan, status, body, retryAfter);
    if status == 200 && Validate(body, request.batchId, IdsOf(request.events)).Ok? {
      var reply :| reply in w.replies && reply.batchId == request.batchId && body == BodyOf(reply.response);
      ServerAnswersTruthfully(server.parse, w, request, reply);
      ReplyReadBack(reply.response, request.batchId, IdsOf(request.events));
      forall e | e in reaction.quarantine ensures Refusable(server, e) {
        RejectedOnlyListed(reply.response.rejected, request.events, e);
        var k :| 0 <= k < |request.events| && request.events[k] == e
                 && exists r :: r in reply.response.rejected && r.index == k;
        IndexListed(reply.response.rejected, k);
        RepliedIsGuarded(server, w, request, reply, e);
      }
    } else if status == 413 && |request.events| == 1 {
      assert request.events == [request.events[0]];
    }
  }

  lemma FailuresSeparate(server: Server, failed: seq<Bytes>, events: seq<Event>, n: nat, recorded: seq<Event>)
    requires FailedRefusable(server, failed, recorded)
    requires n <= |NewFailures(events, Elements(failed))|
    requires forall e :: e in events ==> e in recorded && Refusable(server, e)
    ensures FailedRefusable(server, failed + IdsOf(NewFailures(events, Elements(failed)))[..n], recorded)
  {
    hide Refusable, NewFailures, IdsOf;
    FailedAfterCovers(failed, events, n);
  }

  lemma AnswerSeparates(server: Server, w: World, step: Step)
    requires Inv(server.parse, w) && Separated(server, w)
    requires (step.Answer? || step.AnswerKilled?) && Enabled(w, step) && Honest(server, w, step)
    ensures Separated(server, Next(server.parse, w, step))
  {
    hide *;
    AnswerMeans(server, w, step);
    AnswerLeads(server.parse, w, step);
    var p := w.process.value;
    var reaction := ReactionTo(p.inFlight.value, p.plan, step.status, step.body, step.retryAfter);
    RunningView(w.disk, p, w.sent);
    var failed := FailedIds(w.disk);
    var failures := NewFailures(reaction.quarantine, Elements(failed));
    QuarantinedRefusable(server, w, step.status, step.body, step.retryAfter);
    AnswerSound(w.tables, p, w.sent, step.status, step.body, step.retryAfter);
    SoundMeans(w.tables, EventsOf(p.mem.pending), reaction);
    PendingRecorded(w.recorded, View(w.disk).value, w.tables);
    if step.Answer? {
      AnswerRuns(w.disk, p, w.sent, reaction, step.detail, p.halted || reaction.halted);
      FailedAfterIs(failed, reaction.quarantine);
      FailuresSeparate(server, failed, reaction.quarantine, |failures|, w.recorded);
    } else {
      var n := ReactKilled(w.disk, p.mem, reaction, step.detail, step.left);
      FailuresSeparate(server, failed, reaction.quarantine, n, w.recorded);
    }
    SeparatedMeans(server, Next(server.parse, w, step));
  }

  lemma SoundMeans(tables: Tables, pending: seq<Event>, reaction: Reaction)
    requires Sound(tables, pending, reaction)
    ensures reaction.confirm <= |pending| && forall e :: e in reaction.quarantine ==> e in pending
  {
  }

  lemma SeparatedMeans(server: Server, w: World)
    ensures Separated(server, w) <==>
              && View(w.disk).Ok? && StoredAcceptable(server, w.tables, w.recorded)
              && FailedRefusable(server, View(w.disk).value.failed, w.recorded)
              && RepliesGuarded(server, w.replies, w.sent)
  {
    hide View, StoredAcceptable, FailedRefusable, RepliesGuarded;
  }

  /** What an answering step takes for granted. */
  lemma AnswerMeans(server: Server, w: World, step: Step)
    requires Inv(server.parse, w) && Separated(server, w)
    requires (step.Answer? || step.AnswerKilled?) && Enabled(w, step) && Honest(server, w, step)
    ensures w.process.Some? && w.process.value.inFlight.Some? && w.process.value.inFlight.value in w.sent
    ensures RunningOk(w.disk, w.process.value, w.sent)
    ensures Truthful(w.tables, w.process.value.inFlight.value, step.status, step.body)
    ensures HonestAnswer(w, step.status, step.body)
    ensures View(w.disk).Ok? && Ledger(w.recorded, View(w.disk).value, w.tables) && NetSide(server.parse, w)
    ensures StoredAcceptable(server, w.tables, w.recorded) &&
              FailedRefusable(server, View(w.disk).value.failed, w.recorded)
    ensures RepliesGuarded(server, w.replies, w.sent)
  {
    hide View, Ledger, NetSide, Truthful, HonestAnswer, StoredAcceptable, FailedRefusable, RepliesGuarded, ReactOps,
         KilledDuring, ReactionTo, Synced, FailedLines, JournalFiles.DecodeAll;
  }

  /** What an answering step leads to. */
  lemma AnswerLeads(parse: Parser, w: World, step: Step)
    requires (step.Answer? || step.AnswerKilled?) && Enabled(w, step)
    ensures w.process.Some? && w.process.value.inFlight.Some?
    ensures var p := w.process.value;
            var reaction := ReactionTo(p.inFlight.value, p.plan, step.status, step.body, step.retryAfter);
            var ops := ReactOps(p.mem, Elements(KnownFailures(w.disk)), reaction, step.detail);
            && reaction.confirm <= |p.mem.pending|
            && Next(parse, w, step).tables == w.tables && Next(parse, w, step).recorded == w.recorded
            && Next(parse, w, step).replies == w.replies && Next(parse, w, step).sent == w.sent
            && Next(parse, w, step).disk == (if step.Answer? then ExecAll(w.disk, ops) else step.left)
            && (step.AnswerKilled? ==> KilledDuring(w.disk, ops, step.left))
  {
    hide Truthful, ReactOps, KilledDuring, ExecAll, ReactionTo, KnownFailures;
  }

  lemma StepSeparates(server: Server, w: World, step: Step)
    requires ParserFaithful(server.parse) && Inv(server.parse, w) && Separated(server, w)
    requires Enabled(w, step) && Honest(server, w, step)
    ensures Separated(server, Next(server.parse, w, step))
  {
    if step.Answer? || step.AnswerKilled? {
      AnswerSeparates(server, w, step);
    } else {
      OtherStepSeparates(server, w, step);
    }
  }

  /** Every other step keeps the failed records of the directory. */
  lemma OtherStepSeparates(server: Server, w: World, step: Step)
    requires ParserFaithful(server.parse) && Inv(server.parse, w) && Separated(server, w)
    requires Enabled(w, step) && Honest(server, w, step)
    requires !step.Answer? && !step.AnswerKilled?
    ensures Separated(server, Next(server.parse, w, step))
  {
    hide View, Ledger, RunningOk, NetSide, Truthful, KilledDuring, ExecAll, AppendOps, IngestTables, IngestResponse,
         StoredAcceptable, FailedRefusable, RepliesGuarded, Takes, FailedLines, Synced;
    var w' := Next(server.parse, w, step);
    StepKeeps(server.parse, w, step);
    match step {
      case Record(events) =>
        RecordRuns(w.disk, w.process.value, w.sent, events);
        RunningView(w.disk, w.process.value, w.sent);
        SeparatedGrows(server, w, w'.recorded);
      case RecordKilled(events, left) =>
        RunningView(w.disk, w.process.value, w.sent);
        var n := AppendKilled(w.disk, w.process.value.mem, events, left);
        SeparatedGrows(server, w, w'.recorded);
      case Send(batchId) =>
        RepliesStayGuarded(server, w.replies, w.sent, w'.sent);
      case Commit(request) =>
        SentParts(server.parse, w);
        CommitSeparates(server, w, request);
        CommitGuards(server, w, request, w');
      case Open =>
        Opening.OpenedSync(w.disk);
      case OpenKilledStep(left) =>
        OpenKilled(w.disk, left);
      case _ =>
    }
  }

  /** The reply of a commit is to a request that passes the guard. */
  lemma CommitGuards(server: Server, w: World, request: Request, w': World)
    requires RepliesGuarded(server, w.replies, w.sent) && request in w.sent && Takes(server, w.tables, request)
    requires w'.sent == w.sent && forall r :: r in w'.replies ==> r in w.replies || r.batchId == request.batchId
    ensures RepliesGuarded(server, w'.replies, w'.sent)
  {
    hide PassesGuard, Storable, TooLarge;
  }

  lemma SentParts(parse: Parser, w: World)
    requires NetSide(parse, w)
    ensures SentOk(w.sent, w.recorded)
  {
  }

  // ---------- The final accounts ----------

  ghost predicate IsHonestRun(server: Server, run: seq<World>, steps: seq<Step>) {
    && IsRun(server.parse, run, steps)
    && forall i :: 0 <= i < |steps| ==> Enabled(run[i], steps[i]) && Honest(server, run[i], steps[i])
  }

  lemma StartSeparated(server: Server)
    ensures Separated(server, START)
  {
    hide View;
    StartView();
  }

  lemma {:induction false} HonestRunKeeps(server: Server, run: seq<World>, steps: seq<Step>, i: nat)
    requires ParserFaithful(server.parse) && IsHonestRun(server, run, steps) && i < |run|
    ensures Inv(server.parse, run[i]) && Separated(server, run[i])
  {
    hide Inv, Separated, Enabled, Next, Honest;
    RunKeeps(server.parse, run, steps, i);
    if i == 0 {
      StartSeparated(server);
    } else {
      HonestRunKeeps(server, run, steps, i - 1);
      StepSeparates(server, run[i - 1], steps[i - 1]);
    }
  }

  /** Equal ids, up to letter case, mean the same event. */
  ghost predicate IdsFixEvents(recorded: seq<Event>) {
    forall a, b :: a in recorded && b in recorded && ToLower(a.eventId) == ToLower(b.eventId) ==> a == b
  }

  /**
   * Reconciliation: against the modelled server no event is both stored and failed, only
   * acceptable ones are stored and only refusable ones failed. Hence a settled event is
   * stored exactly when it is acceptable and failed exactly when it is refusable, and a
   * blocked one stays pending for good.
   */
  lemma Reconciled(server: Server, run: seq<World>, steps: seq<Step>, i: nat, e: Event)
    requires ParserFaithful(server.parse) && IsHonestRun(server, run, steps) && i < |run|
    requires IdsFixEvents(run[i].recorded) && e in run[i].recorded
    ensures var w := run[i];
            && View(w.disk).Ok?
            && var q := View(w.disk).value;
               && !(Stored(w.tables, e) && e.eventId in q.failed)
               && (Stored(w.tables, e) ==> Acceptable(server, e))
               && (e.eventId in q.failed ==> Refusable(server, e))
               && (Blocked(server, e) ==> e in q.pending)
               && (e !in q.pending ==>
                     && (Stored(w.tables, e) <==> Acceptable(server, e))
                     && (e.eventId in q.failed <==> Refusable(server, e)))
  {
    hide IsHonestRun, View, Stored, Acceptable, Refusable, Blocked, Inv, Separated;
    HonestRunKeeps(server, run, steps, i);
    ReconciledState(server, run[i], e);
  }

  lemma ReconciledState(server: Server, w: World, e: Event)
    requires Inv(server.parse, w) && Separated(server, w)
    requires IdsFixEvents(w.recorded) && e in w.recorded
    ensures View(w.disk).Ok?
    ensures var q := View(w.disk).value;
            && !(Stored(w.tables, e) && e.eventId in q.failed)
            && (Stored(w.tables, e) ==> Acceptable(server, e))
            && (e.eventId in q.failed ==> Refusable(server, e))
            && (Blocked(server, e) ==> e in q.pending)
            && (e !in q.pending ==>
                  && (Stored(w.tables, e) <==> Acceptable(server, e))
                  && (e.eventId in q.failed <==> Refusable(server, e)))
  {
    hide View, ProcessOk, NetSide, Acceptable, Refusable, Blocked, RepliesGuarded;
    OneOfThree(server, e);
    var q := View(w.disk).value;
    if Stored(w.tables, e) {
      var other :| other in w.recorded && ToLower(other.eventId) == ToLower(e.eventId) && Acceptable(server, other);
      assert other == e;
    }
    if e.eventId in q.failed {
      var other :| other in w.recorded && other.eventId == e.eventId && Refusable(server, other);
      assert other == e;
    }
    if e !in q.pending {
      var k :| 0 <= k < |w.recorded| && w.recorded[k] == e;
      SettledOrPending(w.recorded, q, w.tables, k);
    }
  }

  lemma SettledOrPending(recorded: seq<Event>, q: Queue, tables: Tables, k: nat)
    requires Ledger(recorded, q, tables) && k < |recorded|
    ensures recorded[k] in q.pending || Accounted(tables, q.failed, recorded[k])
  {
    hide Accounted;
    var settled := |recorded| - |q.pending|;
    if k >= settled {
      assert q.pending[k - settled] == recorded[k];
    }
  }

  /**
   * Nothing but recorded events is ever stored or recorded as failed, every stored row is the
   * verdict on a recorded event, and the two tables are sound together.
   */
  lemma NothingInvented(parse: Parser, run: seq<World>, steps: seq<Step>, i: nat)
    requires ParserFaithful(parse) && IsRun(parse, run, steps) && i < |run|
    ensures var w := run[i];
            && TablesOk(w.tables)
            && (forall id :: id in w.tables.events ==>
                  exists e :: e in w.recorded && ToLower(e.eventId) == id &&
                              ValidateEvent(parse(e)) == Accept(w.tables.events[id]))
            && View(w.disk).Ok?
            && (forall id :: id in View(w.disk).value.failed ==> exists e :: e in w.recorded && e.eventId == id)
  {
    hide View, ProcessOk, IsRun, ValidateEvent, TablesOk, RepliesOk, SentOk;
    RunKeeps(parse, run, steps, i);
  }

  lemma {:induction false} ImageCardinality(s: set<Event>, image: set<Bytes>, f: Event -> Bytes)
    requires forall a, b :: a in s && b in s && f(a) == f(b) ==> a == b
    requires forall id :: id in image <==> exists e :: e in s && f(e) == id
    ensures |image| == |s|
    decreases |s|
  {
    if s == {} {
      assert image == {};
    } else {
      var e :| e in s;
      forall id ensures id in image - {f(e)} <==> exists x :: x in s - {e} && f(x) == id {
        if id in image && id != f(e) {
          var x :| x in s && f(x) == id;
          assert x in s - {e};
        }
      }
      ImageCardinality(s - {e}, image - {f(e)}, f);
      assert f(e) in image;
    }
  }

  /** In numbers: once nothing is pending, stored rows plus failed records are the events recorded. */
  lemma CountsReconcile(server: Server, run: seq<World>, steps: seq<Step>, i: nat)
    requires ParserFaithful(server.parse) && IsHonestRun(server, run, steps) && i < |run|
    requires IdsFixEvents(run[i].recorded)
    requires View(run[i].disk).Ok? && View(run[i].disk).value.pending == []
    ensures |run[i].tables.events| + |View(run[i].disk).value.failed| == |Elements(run[i].recorded)|
  {
    hide *;
    var w := run[i];
    var q := View(w.disk).value;
    HonestRunMeans(server, run, steps);
    NothingInvented(server.parse, run, steps, i);
    NoLoss(server.parse, run, steps, i);
    var good := set e | e in w.recorded && Acceptable(server, e);
    forall e | e in w.recorded
      ensures ToLower(e.eventId) in w.tables.events.Keys <==> e in good
      ensures e.eventId in q.failed <==> e !in good
    {
      Reconciled(server, run, steps, i, e);
      StoredMeans(w.tables, e);
      OneOfThree(server, e);
    }
    IdsInjective(w.recorded);
    CountsAdd(w.recorded, good, w.tables.events.Keys, q.failed);
  }

  /** Ids of some of the recorded events in one table and ids of the others in one list, without repetition. */
  lemma CountsAdd(recorded: seq<Event>, good: set<Event>, stored: set<Bytes>, failed: seq<Bytes>)
    requires forall e :: e in good ==> e in recorded
    requires forall e :: e in recorded ==>
               (ToLower(e.eventId) in stored <==> e in good) && (e.eventId in failed <==> e !in good)
    requires forall a, b ::
               a in Elements(recorded) && b in Elements(recorded) && ToLower(a.eventId) == ToLower(b.eventId) ==> a == b
    requires forall a, b :: a in Elements(recorded) && b in Elements(recorded) && a.eventId == b.eventId ==> a == b
    requires forall id :: id in stored ==> exists e :: e in recorded && ToLower(e.eventId) == id
    requires forall id :: id in failed ==> exists e :: e in recorded && e.eventId == id
    requires Distinct(failed)
    ensures |stored| + |failed| == |Elements(recorded)|
  {
    hide ToLower, Distinct;
    var all := Elements(recorded);
    var bad := all - good;
    assert all == good + bad;
    forall id ensures id in stored <==> exists e :: e in good && ToLower(e.eventId) == id {
      if id in stored {
        var e :| e in recorded && ToLower(e.eventId) == id;
        assert e in good;
      }
    }
    ImageCardinality(good, stored, (e: Event) => ToLower(e.eventId));
    forall id ensures id in Elements(failed) <==> exists e :: e in bad && e.eventId == id {
      if id in failed {
        var e :| e in recorded && e.eventId == id;
        assert e in bad;
      }
    }
    ImageCardinality(bad, Elements(failed), (e: Event) => e.eventId);
    DistinctCardinality(failed);
  }

  lemma HonestRunMeans(server: Server, run: seq<World>, steps: seq<Step>)
    requires IsHonestRun(server, run, steps)
    ensures IsRun(server.parse, run, steps)
  {
  }

  lemma StoredMeans(tables: Tables, e: Event)
    ensures Stored(tables, e) <==> ToLower(e.eventId) in tables.events
  {
  }

  lemma IdsInjective(recorded: seq<Event>)
    requires IdsFixEvents(recorded)
    ensures forall a, b ::
              a in Elements(recorded) && b in Elements(recorded) && ToLower(a.eventId) == ToLower(b.eventId) ==> a == b
    ensures forall a, b :: a in Elements(recorded) && b in Elements(recorded) && a.eventId == b.eventId ==> a == b
  {
  }
}
