/**
 * Progress: what each honest answer does to the queue, and how the sender and the modelled
 * server settle everything pending, from every state of every run, when no event is blocked.
 */
module Progress {
  import opened Ack
  import opened Admission
  import opened Basics
  import opened Batching
  import opened Codec
  import opened DaemonModel
  import opened Disk
  import Draining
  import opened Framing
  import opened Ingestion
  import Opening
  import opened OutboxModel
  import opened Recovery
  import opened Reconciliation
  import opened SplitPlan
  import opened System

  /** The steps lead from one world to the other, against the modelled server. */
  ghost predicate Path(server: Server, w: World, steps: seq<Step>, end: World)
    decreases |steps|
  {
    if steps == [] then end == w
    else
      && Enabled(w, steps[0]) && Honest(server, w, steps[0])
      && Path(server, Next(server.parse, w, steps[0]), steps[1..], end)
  }

  lemma PathOne(server: Server, w: World, step: Step)
    requires Enabled(w, step) && Honest(server, w, step)
    ensures Path(server, w, [step], Next(server.parse, w, step))
  {
    hide Enabled, Honest, Next;
    assert [step][1..] == [];
  }

  lemma {:induction false} PathJoins(server: Server, w: World, first: seq<Step>, mid: World, second: seq<Step>,
      end: World)
    requires Path(server, w, first, mid) && Path(server, mid, second, end)
    ensures Path(server, w, first + second, end)
    decreases |first|
  {
    hide Enabled, Honest, Next;
    if first == [] {
      assert first + second == second;
    } else {
      assert (first + second)[1..] == first[1..] + second;
      PathJoins(server, Next(server.parse, w, first[0]), first[1..], mid, second, end);
    }
  }

  // ---------- What every honest run keeps ----------

  /**
   * A sender whose plan is empty and whose request in flight, if it is too large for the
   * server, is a single event.
   */
  ghost predicate Unsplit(w: World) {
    w.process.Some? ==>
      && w.process.value.plan == []
      && (w.process.value.inFlight.Some? && TooLarge(w.process.value.inFlight.value.events) ==>
            |w.process.value.inFlight.value.events| == 1)
  }

  /** The facts a world of an honest run carries. */
  ghost predicate Healthy(server: Server, w: World) {
    ParserFaithful(server.parse) && Inv(server.parse, w) && Separated(server, w) && Unsplit(w)
  }

  lemma HealthyParts(server: Server, w: World)
    ensures Healthy(server, w) <==>
              ParserFaithful(server.parse) && Inv(server.parse, w) && Separated(server, w) && Unsplit(w)
    ensures Healthy(server, w) ==> DiskSide(w) && NetSide(server.parse, w)
    ensures Healthy(server, w) && w.process.Some? ==> RunningOk(w.disk, w.process.value, w.sent)
  {
    hide NetSide, Separated, View, Ledger, RunningOk, Unsplit;
  }

  /** An honest answer settles the whole request on a 413 or a trustworthy 200, and nothing otherwise. */
  lemma HonestReaction(w: World, status: int, body: Body, retryAfter: Option<real>)
    requires Unsplit(w) && w.process.Some? && w.process.value.inFlight.Some? && HonestAnswer(w, status, body)
    requires w.process.value.inFlight.value.events != []
    ensures var request := w.process.value.inFlight.value;
            var reaction := ReactionTo(request, [], status, body, retryAfter);
            && reaction.plan == [] && (reaction.halted <==> status == 401 || status == 403)
            && reaction.confirm == if Settles(request, status, body) then |request.events| else 0
  {
    hide Validate, Trustworthy, TooLarge, RejectedEvents;
    var request := w.process.value.inFlight.value;
    ValidateExact(body, request.batchId, IdsOf(request.events));
  }

  /** The answers that settle a request. */
  ghost predicate Settles(request: Request, status: int, body: Body) {
    status == 413 || (status == 200 && Trustworthy(body, request.batchId, IdsOf(request.events)))
  }

  /** A batch that is too large for the server is a single event. */
  lemma TooLargeIsSingle(pending: seq<Event>, cap: nat)
    requires pending != [] && cap > 0
    ensures var batch := pending[..Head(pending, cap, MAX_BATCH_BYTES)];
            batch != [] && (TooLarge(batch) ==> |batch| == 1)
  {
    hide BatchBodyByteLength, HeadLength;
    assert pending[..0] == [];
    HeadIsLongest(pending, cap, MAX_BATCH_BYTES, 0);
  }

  lemma StepUnsplit(server: Server, w: World, step: Step)
    requires Unsplit(w) && DiskSide(w) && Enabled(w, step) && Honest(server, w, step)
    ensures Unsplit(Next(server.parse, w, step))
  {
    hide View, Ledger, Synced, TooLarge, Truthful, KilledDuring, ExecAll, ReactOps, ReactionTo,
         HonestAnswer, Head, FailedLines, Takes, Settles, PlanOk, Tail;
    match step {
      case Send(batchId) =>
        TooLargeIsSingle(EventsOf(w.process.value.mem.pending), Cap([]));
      case Answer(status, body, retryAfter, _) =>
        HonestReaction(w, status, body, retryAfter);
      case _ =>
    }
  }

  lemma StepHealthy(server: Server, w: World, step: Step)
    requires Healthy(server, w) && Enabled(w, step) && Honest(server, w, step)
    ensures Healthy(server, Next(server.parse, w, step))
    ensures Path(server, w, [step], Next(server.parse, w, step))
  {
    hide Inv, Separated, Enabled, Honest, Next, Path, ParserFaithful, Unsplit;
    HealthyParts(server, w);
    StepKeeps(server.parse, w, step);
    StepSeparates(server, w, step);
    StepUnsplit(server, w, step);
    PathOne(server, w, step);
  }

  lemma StartHealthy(server: Server)
    requires ParserFaithful(server.parse)
    ensures Healthy(server, START)
  {
    hide Inv, Separated;
    StartOk(server.parse);
    StartSeparated(server);
  }

  lemma {:induction false} HonestRunHealthy(server: Server, run: seq<World>, steps: seq<Step>, i: nat)
    requires ParserFaithful(server.parse) && IsHonestRun(server, run, steps) && i < |run|
    ensures Healthy(server, run[i])
  {
    hide Healthy, Enabled, Next, Honest, Path;
    if i == 0 {
      StartHealthy(server);
    } else {
      HonestRunHealthy(server, run, steps, i - 1);
      StepHealthy(server, run[i - 1], steps[i - 1]);
    }
  }

  /**
   * Against the modelled server no batch is ever split: in every state of every honest run
   * the plan of a running sender is empty, and a request over the server's limit is one event.
   */
  lemma NeverSplit(server: Server, run: seq<World>, steps: seq<Step>, i: nat)
    requires ParserFaithful(server.parse) && IsHonestRun(server, run, steps) && i < |run| && run[i].process.Some?
    ensures run[i].process.value.plan == []
    ensures var inFlight := run[i].process.value.inFlight;
            inFlight.Some? && TooLarge(inFlight.value.events) ==> |inFlight.value.events| == 1
  {
    hide IsHonestRun, Healthy, TooLarge;
    HonestRunHealthy(server, run, steps, i);
    HealthyParts(server, run[i]);
  }

  // ---------- What an honest answer does to the queue ----------

  /** The events that wait in the directory. */
  ghost function Waiting(w: World): seq<Event> {
    match View(w.disk)
    case Ok(q) => q.pending
    case Err(_) => []
  }

  lemma WaitingIs(w: World)
    requires View(w.disk).Ok?
    ensures Waiting(w) == View(w.disk).value.pending
  {
    hide View;
  }

  /** What waits for a running sender is what its memory holds. */
  lemma RunningWaits(server: Server, w: World)
    requires Healthy(server, w) && w.process.Some?
    ensures Waiting(w) == EventsOf(w.process.value.mem.pending)
    ensures |Waiting(w)| == |w.process.value.mem.pending|
    ensures View(w.disk).Ok?
    ensures w.process.value.inFlight.Some? ==>
              w.process.value.inFlight.value.events != [] && w.process.value.inFlight.value.events <= Waiting(w)
  {
    hide View, RunningOk, Synced, PlanOk, Tail;
    HealthyParts(server, w);
    hide Healthy;
    RunningView(w.disk, w.process.value, w.sent);
  }

  lemma AnswerSettles(server: Server, w: World, step: Step)
    requires Healthy(server, w) && Enabled(w, step) && Honest(server, w, step) && step.Answer?
    ensures w.process.Some? && w.process.value.inFlight.Some?
    ensures var request := w.process.value.inFlight.value;
            var end := Next(server.parse, w, step);
            && request.events != [] && request.events <= Waiting(w)
            && Waiting(end) ==
                 (if Settles(request, step.status, step.body) then Waiting(w)[|request.events|..] else Waiting(w))
            && end.process.Some? && end.process.value.inFlight.None?
            && (end.process.value.halted <==> w.process.value.halted || step.status == 401 || step.status == 403)
            && end.recorded == w.recorded && Healthy(server, end)
  {
    hide *;
    HonestAnswerMeans(server, w, step);
    AnswerNext(server.parse, w, step);
    StepHealthy(server, w, step);
    var end := Next(server.parse, w, step);
    RunningWaits(server, w);
    RunningWaits(server, end);
    HealthyParts(server, w);
    UnsplitPlan(w);
    HonestReaction(w, step.status, step.body, step.retryAfter);
    Draining.ConfirmedEvents(w.process.value.mem, ReactionIn(w, step).confirm);
  }

  lemma HonestAnswerMeans(server: Server, w: World, step: Step)
    requires Enabled(w, step) && Honest(server, w, step) && step.Answer?
    ensures w.process.Some? && w.process.value.inFlight.Some? && HonestAnswer(w, step.status, step.body)
  {
    hide HonestAnswer, Truthful, ReactionIn;
  }

  lemma UnsplitPlan(w: World)
    requires Unsplit(w) && w.process.Some?
    ensures w.process.value.plan == []
  {
    hide TooLarge;
  }

  /**
   * In every honest run, an answer that is 413 or a trustworthy 200 takes exactly the batch
   * in flight off the queue, so the queue gets shorter; any other answer leaves it as it is.
   */
  lemma AnswersShorten(server: Server, run: seq<World>, steps: seq<Step>, i: nat)
    requires ParserFaithful(server.parse) && IsHonestRun(server, run, steps) && i < |steps| && steps[i].Answer?
    ensures run[i].process.Some? && run[i].process.value.inFlight.Some?
    ensures var (request, status) := (run[i].process.value.inFlight.value, steps[i].status);
            && request.events != [] && request.events <= Waiting(run[i])
            && Waiting(run[i + 1]) ==
               if status == 413 || (status == 200 && Trustworthy(steps[i].body, request.batchId, IdsOf(request.events)))
               then Waiting(run[i])[|request.events|..] else Waiting(run[i])
  {
    hide Healthy, Enabled, Next, Honest, Waiting, Trustworthy;
    HonestRunHealthy(server, run, steps, i);
    AnswerSettles(server, run[i], steps[i]);
  }

  // ---------- Getting ready to send ----------

  /** A sender that may send: running, not halted, nothing in flight. */
  ghost predicate Idle(w: World) {
    w.process.Some? && !w.process.value.halted && w.process.value.inFlight.None?
  }

  lemma OpenAgain(server: Server, w: World) returns (end: World)
    requires Healthy(server, w) && w.process.None?
    ensures Path(server, w, [Open], end) && Healthy(server, end) && Idle(end)
    ensures end.recorded == w.recorded && Waiting(end) == Waiting(w)
  {
    hide *;
    HealthyParts(server, w);
    DiskSideParts(w);
    OpenHonest(server, w);
    NextOpen(server.parse, w);
    Opening.OpenedSync(w.disk);
    StepHealthy(server, w, Open);
    end := Next(server.parse, w, Open);
    IdleMeans(end);
    WaitingIs(w);
    WaitingIs(end);
  }

  lemma OpenHonest(server: Server, w: World)
    requires w.process.None? && View(w.disk).Ok?
    ensures Enabled(w, Open) && Honest(server, w, Open)
  {
    hide View;
  }

  lemma IdleMeans(w: World)
    ensures Idle(w) <==> w.process.Some? && !w.process.value.halted && w.process.value.inFlight.None?
  {
  }

  /** A stopped or halted sender is restarted, a lost answer is given up. */
  lemma GetReady(server: Server, w: World) returns (steps: seq<Step>, end: World)
    requires Healthy(server, w)
    ensures Path(server, w, steps, end) && Healthy(server, end) && Idle(end)
    ensures end.recorded == w.recorded && Waiting(end) == Waiting(w)
  {
    hide Healthy, Path, View;
    if w.process.None? {
      steps := [Open];
      end := OpenAgain(server, w);
    } else if w.process.value.halted {
      StepHealthy(server, w, Kill);
      var stopped := Next(server.parse, w, Kill);
      end := OpenAgain(server, stopped);
      steps := [Kill] + [Open];
      PathJoins(server, w, [Kill], stopped, [Open], end);
    } else if w.process.value.inFlight.Some? {
      StepHealthy(server, w, Lose);
      end := Next(server.parse, w, Lose);
      steps := [Lose];
    } else {
      steps, end := [], w;
      NoSteps(server, w);
    }
  }

  lemma NoSteps(server: Server, w: World)
    ensures Path(server, w, [], w)
  {
  }

  // ---------- One request ----------

  /** There is always an unused batch id. */
  lemma {:induction false} FreshId(sent: set<Request>) returns (id: Bytes)
    ensures forall r :: r in sent ==> |r.batchId| < |id|
    decreases |sent|
  {
    if sent == {} {
      id := [0];
    } else {
      var r :| r in sent;
      var shorter := FreshId(sent - {r});
      id := shorter + r.batchId + [0];
      forall other | other in sent ensures |other.batchId| < |id| {
        if other != r {
          assert other in sent - {r};
        }
      }
    }
  }

  /** Sending: the request is the batch under the current cap, and a single event when it is too large. */
  lemma SendOne(server: Server, w: World) returns (request: Request, end: World)
    requires Healthy(server, w) && Idle(w) && Waiting(w) != []
    ensures Path(server, w, [Step.Send(request.batchId)], end) && Healthy(server, end)
    ensures end == w.(process := Some(w.process.value.(inFlight := Some(request))), sent := w.sent + {request})
    ensures request.events == BatchOf(w.process.value) && request.events != [] && request.events <= Waiting(w)
  {
    hide *;
    IdleMeans(w);
    RunningWaits(server, w);
    var id := FreshId(w.sent);
    request := Request(id, BatchOf(w.process.value));
    assert w.process.value.mem.pending != [];
    SendNext(server.parse, w, id);
    SendHonest(server, w, id);
    StepHealthy(server, w, Step.Send(id));
    end := Next(server.parse, w, Step.Send(id));
    RunningWaits(server, end);
    SameWaiting(w, end);
  }

  lemma SendHonest(server: Server, w: World, id: Bytes)
    requires Enabled(w, Step.Send(id))
    ensures Honest(server, w, Step.Send(id))
  {
  }

  lemma SameWaiting(w: World, end: World)
    requires w.disk == end.disk
    ensures Waiting(w) == Waiting(end)
  {
  }

  predicate NoneBlocked(server: Server, events: seq<Event>) {
    forall i :: 0 <= i < |events| ==> !Blocked(server, events[i])
  }

  /** A batch within the server's limit and without blocked events is taken, whatever the tables hold. */
  lemma UnblockedIsTaken(server: Server, tables: Tables, request: Request)
    requires !TooLarge(request.events) && NoneBlocked(server, request.events)
    ensures Takes(server, tables, request)
  {
    hide TooLarge, Admitted, Storable, SameInstance, FitsTables, ValidateEvent, Accepted, FirstOfEachId;
    var raws := Raws(server.parse, request.events);
    forall i | 0 <= i < |request.events| ensures Admitted(server, request.events[i]) {
      WithinAlone(request.events, request.events[i]);
    }
    forall i | 0 <= i < |raws| ensures SameInstance(server.mapped, raws[i]) {
      AdmittedMeans(server, request.events[i]);
    }
    forall n | n in Accepted(raws) ensures FitsTables(server.columns, n) {
      AcceptedFrom(server.parse, request.events, n);
      var e :| e in request.events && ValidateEvent(server.parse(e)) == Accept(n);
      AdmittedMeans(server, e);
    }
    FittingIsStorable(server.columns, tables, Accepted(raws));
  }

  lemma AdmittedMeans(server: Server, e: Event)
    requires Admitted(server, e)
    ensures SameInstance(server.mapped, server.parse(e))
    ensures ValidateEvent(server.parse(e)).Accept? ==>
              FitsTables(server.columns, ValidateEvent(server.parse(e)).event)
  {
    hide SameInstance, FitsTables, ValidateEvent;
  }

  lemma WithinAlone(events: seq<Event>, e: Event)
    requires !TooLarge(events) && e in events
    ensures !TooLarge([e])
  {
    hide BatchBodyByteLength;
    AloneIsSmaller(events, e);
  }

  /** The steps of one round: a request, then the server's 413, or its commit and its own response. */
  ghost predicate IsRound(server: Server, w: World, steps: seq<Step>)
    requires w.process.Some?
  {
    |steps| > 0 && steps[0].Send? &&
    var request := Request(steps[0].batchId, BatchOf(w.process.value));
    if TooLarge(request.events) then steps[1..] == [Answer(413, Unparsable, None, [])]
    else
      var response := IngestResponse(w.tables, request.batchId, Raws(server.parse, request.events));
      steps[1..] == [Commit(request), Answer(200, BodyOf(response), None, [])]
  }

  /**
   * One round from any idle sender without blocked events in its head: the request, the 413
   * or the commit, and the answer are possible, and take exactly that batch off the queue.
   */
  lemma OneRound(server: Server, w: World) returns (steps: seq<Step>, end: World)
    requires Healthy(server, w) && Idle(w) && Waiting(w) != [] && NoneBlocked(server, Waiting(w))
    ensures IsRound(server, w, steps) && Path(server, w, steps, end) && Healthy(server, end) && Idle(end)
    ensures end.recorded == w.recorded
    ensures var batch := BatchOf(w.process.value);
            batch != [] && batch <= Waiting(w) && Waiting(end) == Waiting(w)[|batch|..]
  {
    hide *;
    var request, sent := SendOne(server, w);
    IdleMeans(w);
    SameWaiting(w, sent);
    var first := [Step.Send(request.batchId)];
    if TooLarge(request.events) {
      end := AnswerOne(server, sent, 413, Unparsable);
      steps := first + [Answer(413, Unparsable, None, [])];
      PathJoins(server, w, first, sent, [Answer(413, Unparsable, None, [])], end);
      RoundRefused(server, w, steps);
    } else {
      HeadUnblocked(server, Waiting(w), request.events);
      UnblockedIsTaken(server, sent.tables, request);
      var committed, body := CommitOne(server, sent, request);
      var answer := Answer(200, body, None, []);
      end := AnswerOne(server, committed, 200, body);
      SameWaiting(sent, committed);
      PathJoins(server, w, first, sent, [Commit(request)], committed);
      PathJoins(server, w, first + [Commit(request)], committed, [answer], end);
      steps := first + [Commit(request)] + [answer];
      RoundCommitted(server, w, steps);
    }
  }

  lemma RoundRefused(server: Server, w: World, steps: seq<Step>)
    requires w.process.Some? && |steps| == 2 && steps[0].Send? && TooLarge(BatchOf(w.process.value))
    requires steps[1] == Answer(413, Unparsable, None, [])
    ensures IsRound(server, w, steps)
  {
    hide TooLarge, BatchOf;
    assert steps[1..] == [steps[1]];
  }

  lemma RoundCommitted(server: Server, w: World, steps: seq<Step>)
    requires w.process.Some? && |steps| == 3 && steps[0].Send? && !TooLarge(BatchOf(w.process.value))
    requires var request := Request(steps[0].batchId, BatchOf(w.process.value));
             var response := IngestResponse(w.tables, request.batchId, Raws(server.parse, request.events));
             steps[1] == Commit(request) && steps[2] == Answer(200, BodyOf(response), None, [])
    ensures IsRound(server, w, steps)
  {
    hide TooLarge, BatchOf, BodyOf, IngestResponse;
    assert steps[1..] == [steps[1], steps[2]];
  }

  lemma HeadUnblocked(server: Server, events: seq<Event>, batch: seq<Event>)
    requires NoneBlocked(server, events) && batch <= events
    ensures NoneBlocked(server, batch) && NoneBlocked(server, events[|batch|..])
  {
    hide Blocked;
  }

  /** The server commits the request in flight and makes its response. */
  lemma CommitOne(server: Server, w: World, request: Request) returns (end: World, body: Body)
    requires Healthy(server, w) && request in w.sent && Takes(server, w.tables, request)
    requires w.process.Some? && w.process.value.inFlight == Some(request) && request.events != []
    ensures Path(server, w, [Commit(request)], end) && Healthy(server, end)
    ensures end.disk == w.disk && end.process == w.process && end.recorded == w.recorded
    ensures body == BodyOf(IngestResponse(w.tables, request.batchId, Raws(server.parse, request.events)))
    ensures Truthful(end.tables, request, 200, body) && HonestAnswer(end, 200, body)
    ensures Settles(request, 200, body)
  {
    hide *;
    CommitHonest(server, w, request);
    StepHealthy(server, w, Commit(request));
    end := Next(server.parse, w, Commit(request));
    var response := IngestResponse(w.tables, request.batchId, Raws(server.parse, request.events));
    body := BodyOf(response);
    HealthyParts(server, w);
    HealthyParts(server, end);
    ServerAnswersTruthfully(server.parse, end, request, Reply(request.batchId, response));
    ReadsIds(server, request);
    ServerResponsePasses(w.tables, request.batchId, Raws(server.parse, request.events), IdsOf(request.events));
    ValidateExact(body, request.batchId, IdsOf(request.events));
    SettlesMeans(request, body);
    GenuineIsHonest(end, Reply(request.batchId, response));
  }

  lemma CommitHonest(server: Server, w: World, request: Request)
    requires request in w.sent && Takes(server, w.tables, request)
    ensures Enabled(w, Commit(request)) && Honest(server, w, Commit(request))
    ensures var end := Next(server.parse, w, Commit(request));
            && end.disk == w.disk && end.process == w.process && end.recorded == w.recorded && end.sent == w.sent
            && Reply(request.batchId, IngestResponse(w.tables, request.batchId, Raws(server.parse, request.events)))
                 in end.replies
  {
    hide Takes, IngestTables, IngestResponse;
  }

  lemma ReadsIds(server: Server, request: Request)
    requires ParserFaithful(server.parse)
    ensures var raws := Raws(server.parse, request.events);
            forall i :: 0 <= i < |raws| && raws[i].RawObject? && raws[i].eventId.Some? ==>
              raws[i].eventId.value == IdsOf(request.events)[i]
  {
  }

  lemma SettlesMeans(request: Request, body: Body)
    ensures Trustworthy(body, request.batchId, IdsOf(request.events)) ==> Settles(request, 200, body)
    ensures Settles(request, 413, body)
  {
    hide Trustworthy;
  }

  lemma GenuineIsHonest(w: World, reply: Reply)
    requires w.process.Some? && w.process.value.inFlight.Some?
    requires reply in w.replies && reply.batchId == w.process.value.inFlight.value.batchId
    ensures HonestAnswer(w, 200, BodyOf(reply.response))
  {
    hide Validate, BodyOf;
  }

  /** An answer that settles the request in flight of a running, unhalted sender. */
  lemma AnswerOne(server: Server, w: World, status: int, body: Body) returns (end: World)
    requires Healthy(server, w) && w.process.Some? && !w.process.value.halted && w.process.value.inFlight.Some?
    requires var request := w.process.value.inFlight.value;
             || (status == 413 && TooLarge(request.events))
             || (status == 200 && Truthful(w.tables, request, status, body) && HonestAnswer(w, status, body) &&
                 Settles(request, status, body))
    ensures Path(server, w, [Answer(status, body, None, [])], end) && Healthy(server, end) && Idle(end)
    ensures end.recorded == w.recorded
    ensures var batch := w.process.value.inFlight.value.events;
            batch != [] && batch <= Waiting(w) && Waiting(end) == Waiting(w)[|batch|..]
  {
    hide *;
    var answer := Answer(status, body, None, []);
    var request := w.process.value.inFlight.value;
    SettlesMeans(request, body);
    RefusalIsHonest(w, body);
    HealthyParts(server, w);
    AnswerAlwaysPossible(w, status, body, None, []);
    AnswerHonest(server, w, answer);
    StepHealthy(server, w, answer);
    AnswerSettles(server, w, answer);
    end := Next(server.parse, w, answer);
    IdleMeans(end);
  }

  lemma RefusalIsHonest(w: World, body: Body)
    requires w.process.Some? && w.process.value.inFlight.Some?
    ensures TooLarge(w.process.value.inFlight.value.events) ==> HonestAnswer(w, 413, body)
    ensures Truthful(w.tables, w.process.value.inFlight.value, 413, body)
  {
    hide Validate, TooLarge;
  }

  lemma AnswerHonest(server: Server, w: World, answer: Step)
    requires answer.Answer? && Enabled(w, answer) && w.process.Some? && w.process.value.inFlight.Some?
    requires HonestAnswer(w, answer.status, answer.body)
    ensures Honest(server, w, answer)
  {
    hide HonestAnswer, Truthful, ReactionIn;
  }

  // ---------- Draining ----------

  lemma {:induction false} DrainIdle(server: Server, w: World) returns (steps: seq<Step>, end: World)
    requires Healthy(server, w) && Idle(w) && NoneBlocked(server, Waiting(w))
    ensures Path(server, w, steps, end) && Healthy(server, end)
    ensures end.recorded == w.recorded && Waiting(end) == []
    decreases |Waiting(w)|
  {
    hide Healthy, Path, Waiting, Idle, NoneBlocked, IsRound, BatchOf;
    if Waiting(w) == [] {
      steps, end := [], w;
      NoSteps(server, w);
    } else {
      IdleMeans(w);
      var first, mid := OneRound(server, w);
      HeadUnblocked(server, Waiting(w), BatchOf(w.process.value));
      var second, last := DrainIdle(server, mid);
      PathJoins(server, w, first, mid, second, last);
      steps, end := first + second, last;
    }
  }

  /** A continuation that records nothing more and leaves nothing pending. */
  ghost predicate Drains(server: Server, w: World, more: seq<Step>, end: World) {
    Path(server, w, more, end) && end.recorded == w.recorded && View(end.disk).Ok? && Waiting(end) == []
  }

  /**
   * From every state of every honest run without blocked events in the queue, whatever was
   * lost, killed or halted before, there is a continuation after which nothing is pending and,
   * when ids name one event each, every recorded event is stored exactly when it is acceptable
   * and recorded as failed exactly when it is refusable.
   */
  lemma Drainable(server: Server, run: seq<World>, steps: seq<Step>, i: nat) returns (more: seq<Step>, end: World)
    requires ParserFaithful(server.parse) && IsHonestRun(server, run, steps) && i < |run|
    requires NoneBlocked(server, Waiting(run[i]))
    ensures Drains(server, run[i], more, end)
    ensures IdsFixEvents(run[i].recorded) ==>
              forall e :: e in run[i].recorded ==>
                && (Stored(end.tables, e) <==> Acceptable(server, e))
                && (e.eventId in View(end.disk).value.failed <==> Refusable(server, e))
  {
    hide *;
    HonestRunHealthy(server, run, steps, i);
    var ready, idle := GetReady(server, run[i]);
    var drain, last := DrainIdle(server, idle);
    PathJoins(server, run[i], ready, idle, drain, last);
    more, end := ready + drain, last;
    HealthyParts(server, end);
    DiskSideParts(end);
    WaitingIs(end);
    DrainsMeans(server, run[i], more, end);
    if IdsFixEvents(run[i].recorded) {
      forall e | e in run[i].recorded
        ensures Stored(end.tables, e) <==> Acceptable(server, e)
        ensures e.eventId in View(end.disk).value.failed <==> Refusable(server, e)
      {
        ReconciledState(server, end, e);
      }
    }
  }

  lemma DrainsMeans(server: Server, w: World, more: seq<Step>, end: World)
    ensures Drains(server, w, more, end) <==>
              Path(server, w, more, end) && end.recorded == w.recorded && View(end.disk).Ok? && Waiting(end) == []
  {
    hide Path, View, Waiting;
  }
}
