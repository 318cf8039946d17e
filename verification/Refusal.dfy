/**
 * A server that answers every request 413: whatever is recorded and committed meanwhile,
 * a head batch of n events is quarantined one by one within 2n - 1 requests.
 */
module Refusal {
  import opened Ack
  import opened Basics
  import opened Batching
  import opened Codec
  import opened DaemonModel
  import opened Disk
  import opened Framing
  import opened Ingestion
  import opened OutboxModel
  import Progress
  import opened Reacting
  import Reconciliation
  import opened Recovery
  import opened SplitPlan
  import opened System

  /**
   * Steps while a refused batch is being settled: requests under its split plan, answers
   * 413, and anything recorded or committed in between.
   */
  ghost predicate Refusing(w: World, step: Step) {
    match step
    case Record(_) => true
    case Commit(_) => true
    case Send(_) => w.process.Some? && w.process.value.plan != []
    case Answer(status, _, _, _) => status == 413
    case _ => false
  }

  ghost predicate RefusedPath(parse: Parser, w: World, steps: seq<Step>, end: World)
    decreases |steps|
  {
    if steps == [] then end == w
    else
      && Enabled(w, steps[0]) && Refusing(w, steps[0])
      && RefusedPath(parse, Next(parse, w, steps[0]), steps[1..], end)
  }

  function Requests(steps: seq<Step>): nat {
    if steps == [] then 0 else (if steps[0].Send? then 1 else 0) + Requests(steps[1..])
  }

  function InFlightCount(p: Process): nat { if p.inFlight.Some? then 1 else 0 }

  function PendingEvents(p: Process): seq<Event> { EventsOf(p.mem.pending) }

  /** The plan of a refused batch; a first request in flight is a segment of its own. */
  function PlanInForce(p: Process): seq<nat> {
    if p.plan == [] && p.inFlight.Some? then [|p.inFlight.value.events|] else p.plan
  }

  /** A running, unhalted sender in a reachable state. */
  ghost predicate Runs(parse: Parser, w: World) {
    ParserFaithful(parse) && Inv(parse, w) && w.process.Some? && !w.process.value.halted
  }

  // ---------- One step ----------

  /** What one step of a refused path does to queue, plan and failed records. */
  ghost predicate Moved(w: World, end: World, settled: nat) {
    && w.process.Some? && end.process.Some?
    && w.recorded <= end.recorded
    && settled <= |PendingEvents(w.process.value)|
    && PendingEvents(end.process.value) ==
         PendingEvents(w.process.value)[settled..] + end.recorded[|w.recorded|..]
    && (forall id :: id in KnownFailures(w.disk) ==> id in KnownFailures(end.disk))
    && (forall k :: 0 <= k < settled ==> PendingEvents(w.process.value)[k].eventId in KnownFailures(end.disk))
  }

  lemma Stays(w: World)
    requires w.process.Some?
    ensures Moved(w, w, 0)
  {
    hide KnownFailures;
    assert PendingEvents(w.process.value)[0..] + w.recorded[|w.recorded|..] == PendingEvents(w.process.value);
  }

  lemma MovedOn(w: World, mid: World, end: World, first: nat, second: nat)
    requires Moved(w, mid, first) && Moved(mid, end, second)
    requires first + second <= |PendingEvents(w.process.value)|
    ensures Moved(w, end, first + second)
  {
    hide KnownFailures, EventsOf, PendingEvents;
    var (a, b) := (PendingEvents(w.process.value), PendingEvents(mid.process.value));
    var c := PendingEvents(end.process.value);
    assert b[second..] == a[first + second..] + mid.recorded[|w.recorded|..];
    assert end.recorded[|w.recorded|..] == mid.recorded[|w.recorded|..] + end.recorded[|mid.recorded|..];
    assert c == a[first + second..] + (mid.recorded[|w.recorded|..] + end.recorded[|mid.recorded|..]);
    forall k | 0 <= k < first + second ensures a[k].eventId in KnownFailures(end.disk) {
      if k >= first {
        assert b[k - first] == a[k];
      }
    }
  }

  lemma RunsParts(parse: Parser, w: World)
    requires Runs(parse, w)
    ensures Inv(parse, w) && w.process.Some? && RunningOk(w.disk, w.process.value, w.sent)
    ensures FlightOk(w.process.value.inFlight, PendingEvents(w.process.value), w.process.value.plan, w.sent)
  {
    hide View, Ledger, NetSide, Synced, PlanOk, FlightOk;
  }

  /** Recording grows the queue behind and leaves the failed records alone. */
  lemma Recording(parse: Parser, w: World, events: seq<Event>)
    requires Runs(parse, w)
    ensures Moved(w, Next(parse, w, Record(events)), 0)
    ensures Next(parse, w, Record(events)).process.Some?
    ensures var p := Next(parse, w, Record(events)).process.value;
            p.plan == w.process.value.plan && p.inFlight == w.process.value.inFlight && !p.halted
  {
    hide *;
    RunsRuns(parse, w);
    RunsParts(parse, w);
    RecordNext(parse, w, events);
    var end := Next(parse, w, Record(events));
    RecordRuns(w.disk, w.process.value, w.sent, events);
    RunningView(w.disk, w.process.value, w.sent);
    RunningView(end.disk, end.process.value, end.sent);
    AppendMemoryEvents(w.process.value.mem, events);
    RecordMoves(w, end, events);
  }

  lemma RecordMoves(w: World, end: World, events: seq<Event>)
    requires w.process.Some? && end.process.Some? && end.recorded == w.recorded + events
    requires EventsOf(end.process.value.mem.pending) == EventsOf(w.process.value.mem.pending) + events
    requires KnownFailures(end.disk) == KnownFailures(w.disk)
    ensures Moved(w, end, 0)
  {
    hide KnownFailures, EventsOf;
    assert PendingEvents(w.process.value)[0..] == PendingEvents(w.process.value);
    assert end.recorded[|w.recorded|..] == events;
  }

  /** Nothing of the sender moves when the server commits. */
  lemma Committing(parse: Parser, w: World, request: Request)
    requires Runs(parse, w) && Enabled(w, Commit(request))
    ensures Moved(w, Next(parse, w, Commit(request)), 0)
    ensures Next(parse, w, Commit(request)).process == w.process
  {
    hide Inv, KnownFailures, IngestTables, IngestResponse, ParserFaithful;
    var end := Next(parse, w, Commit(request));
    Stays(w);
  }

  /** A request takes a non-empty head, no longer than the first segment, and moves nothing. */
  lemma Sending(parse: Parser, w: World, batchId: Bytes)
    requires Runs(parse, w) && Enabled(w, Step.Send(batchId))
    ensures Moved(w, Next(parse, w, Step.Send(batchId)), 0)
    ensures Next(parse, w, Step.Send(batchId)).process.Some?
    ensures var p := Next(parse, w, Step.Send(batchId)).process.value;
            p.plan == w.process.value.plan && p.inFlight.Some? && !p.halted
  {
    hide Inv, KnownFailures, ParserFaithful, BatchOf;
    Stays(w);
  }

  /** A batch in flight is a head of the queue within its segment. */
  lemma InFlightIs(parse: Parser, w: World)
    requires Runs(parse, w) && w.process.value.inFlight.Some?
    ensures var (p, batch) := (w.process.value, w.process.value.inFlight.value.events);
            && batch != [] && batch <= PendingEvents(p) && |batch| <= Cap(p.plan)
            && PlanInForce(p) != [] && 1 <= |batch| <= PlanInForce(p)[0]
  {
    hide Inv, RunningOk, ParserFaithful, EventsOf;
    RunsParts(parse, w);
  }

  lemma RefusedReaction(request: Request, plan: seq<nat>, body: Body, retryAfter: Option<real>)
    requires request.events != []
    ensures var (r, n) := (ReactionTo(request, plan, 413, body, retryAfter), |request.events|);
            && r.plan == AfterRefusal(plan, n) && !r.halted
            && r.confirm == (if n == 1 then 1 else 0) && r.quarantine == (if n == 1 then request.events else [])
  {
    hide Validate, Advance, SplitPlan.SplitHead;
  }

  /** Only a single refused event leaves the queue, and then it has a failed record. */
  lemma Refused413(parse: Parser, w: World, step: Step)
    requires Runs(parse, w) && step.Answer? && step.status == 413 && Enabled(w, step)
    ensures var (p, end) := (w.process.value, Next(parse, w, step));
            var n := |p.inFlight.value.events|;
            && Moved(w, end, if n == 1 then 1 else 0) && end.process.Some?
            && end.process.value.plan == AfterRefusal(p.plan, n)
            && end.process.value.inFlight.None? && !end.process.value.halted
  {
    hide *;
    RunsRuns(parse, w);
    AnswerNext(parse, w, step);
    var p := w.process.value;
    var (request, end) := (p.inFlight.value, Next(parse, w, step));
    RunsParts(parse, w);
    FlightParts(p.inFlight, PendingEvents(p), p.plan, w.sent);
    RefusedReaction(request, p.plan, step.body, step.retryAfter);
    var reaction := ReactionTo(request, p.plan, 413, step.body, step.retryAfter);
    RunningView(w.disk, p, w.sent);
    AnswerSound(w.tables, p, w.sent, 413, step.body, step.retryAfter);
    AnswerRuns(w.disk, p, w.sent, reaction, step.detail, p.halted || reaction.halted);
    RunningView(end.disk, end.process.value, end.sent);
    var failures := NewFailures(reaction.quarantine, Elements(KnownFailures(w.disk)));
    FailedAfterCovers(KnownFailures(w.disk), reaction.quarantine, |failures|);
    FailedGrows(KnownFailures(w.disk), reaction.quarantine);
    PendingMeans(p);
    PendingMeans(end.process.value);
    RefusedMoves(w, end, reaction, request.events);
  }

  lemma PendingMeans(p: Process)
    ensures PendingEvents(p) == EventsOf(p.mem.pending)
  {
  }

  lemma FlightParts(inFlight: Option<Request>, pending: seq<Event>, plan: seq<nat>, sent: set<Request>)
    requires FlightOk(inFlight, pending, plan, sent) && inFlight.Some?
    ensures inFlight.value.events != [] && inFlight.value.events <= pending && |inFlight.value.events| <= Cap(plan)
  {
    hide Cap;
  }

  lemma FailedGrows(failed: seq<Bytes>, events: seq<Event>)
    ensures forall id :: id in failed ==> id in FailedAfter(failed, events)
  {
    hide NewFailures;
  }

  lemma RefusedMoves(w: World, end: World, r: Reaction, batch: seq<Event>)
    requires w.process.Some? && end.process.Some? && end.recorded == w.recorded
    requires batch != [] && batch <= PendingEvents(w.process.value)
    requires r.confirm == (if |batch| == 1 then 1 else 0) && r.quarantine == (if |batch| == 1 then batch else [])
    requires PendingEvents(end.process.value) == PendingEvents(w.process.value)[r.confirm..]
    requires forall id :: id in KnownFailures(w.disk) ==> id in KnownFailures(end.disk)
    requires forall e :: e in r.quarantine ==> e.eventId in KnownFailures(end.disk)
    ensures Moved(w, end, r.confirm)
  {
    hide KnownFailures, PendingEvents;
    var pending := PendingEvents(w.process.value);
    assert pending[r.confirm..] + end.recorded[|w.recorded|..] == pending[r.confirm..];
    if r.confirm == 1 {
      assert pending[0] == batch[0] && batch[0] in r.quarantine;
    }
  }

  // ---------- Whole paths ----------

  /** The requests answered on a refused path follow the refusals of the plan in force. */
  ghost predicate Follows(w: World, steps: seq<Step>, end: World, sizes: seq<nat>) {
    && w.process.Some? && end.process.Some? && !end.process.value.halted
    && SplitPlan.Refused(PlanInForce(w.process.value), sizes)
    && PlanInForce(end.process.value) == PlanAfter(PlanInForce(w.process.value), sizes)
    && |sizes| + InFlightCount(end.process.value) == Requests(steps) + InFlightCount(w.process.value)
    && Singles(sizes) <= |PendingEvents(w.process.value)|
    && Moved(w, end, Singles(sizes))
  }

  lemma FollowsNothing(w: World)
    requires w.process.Some? && !w.process.value.halted
    ensures Follows(w, [], w, [])
  {
    hide SplitPlan.Refused, PlanAfter, Singles, Moved, PlanInForce;
    RefusedNone(PlanInForce(w.process.value));
    Stays(w);
  }

  /** A plan in force covers a head of the queue, so what is settled under it was pending. */
  lemma SettledIsPending(parse: Parser, w: World, sizes: seq<nat>)
    requires Runs(parse, w) && SplitPlan.Refused(PlanInForce(w.process.value), sizes)
    ensures PlanOk(PlanInForce(w.process.value), |PendingEvents(w.process.value)|)
    ensures Singles(sizes) <= |PendingEvents(w.process.value)|
  {
    hide Inv, RunningOk, ParserFaithful, EventsOf, SplitPlan.Refused, PlanAfter, Singles, Potential;
    var p := w.process.value;
    RunsParts(parse, w);
    RunningView(w.disk, p, w.sent);
    if p.plan == [] && p.inFlight.Some? {
      InFlightIs(parse, w);
      OneSegment(|p.inFlight.value.events|);
    }
    RefusedRun(PlanInForce(p), sizes);
  }

  /** A step that is no answer, in front of a path. */
  lemma FollowsQuiet(parse: Parser, w: World, step: Step, mid: World, steps: seq<Step>, end: World, sizes: seq<nat>)
    requires Runs(parse, w) && Moved(w, mid, 0) && Follows(mid, steps, end, sizes)
    requires PlanInForce(mid.process.value) == PlanInForce(w.process.value)
    requires InFlightCount(mid.process.value) == InFlightCount(w.process.value) + (if step.Send? then 1 else 0)
    ensures Follows(w, [step] + steps, end, sizes)
  {
    hide SplitPlan.Refused, PlanAfter, Singles, PlanInForce, InFlightCount, KnownFailures, Moved, PendingEvents, Runs;
    assert ([step] + steps)[1..] == steps;
    RunsRuns(parse, w);
    SettledIsPending(parse, w, sizes);
    MovedOn(w, mid, end, 0, Singles(sizes));
  }

  /** An answered request of n events, in front of a path. */
  lemma FollowsAnswer(parse: Parser, w: World, step: Step, mid: World, steps: seq<Step>, end: World, n: nat,
      rest: seq<nat>)
    requires Runs(parse, w) && Moved(w, mid, if n == 1 then 1 else 0) && Follows(mid, steps, end, rest)
    requires !step.Send? && InFlightCount(w.process.value) == 1 && InFlightCount(mid.process.value) == 0
    requires var plan := PlanInForce(w.process.value);
             plan != [] && 1 <= n <= plan[0] && PlanInForce(mid.process.value) == AfterRefusal(plan, n)
    ensures Follows(w, [step] + steps, end, [n] + rest)
  {
    hide SplitPlan.Refused, PlanAfter, Singles, PlanInForce, InFlightCount, KnownFailures, Moved, PendingEvents, Runs,
         AfterRefusal;
    assert ([step] + steps)[1..] == steps;
    RunsRuns(parse, w);
    RefusedFirst(PlanInForce(w.process.value), n, rest);
    SettledIsPending(parse, w, [n] + rest);
    MovedOn(w, mid, end, if n == 1 then 1 else 0, Singles(rest));
  }

  /** The first refusal acts on the segment that the request itself is. */
  lemma InForceAfterAnswer(p: Process, q: Process)
    requires p.inFlight.Some? && p.inFlight.value.events != [] && q.inFlight.None?
    requires q.plan == AfterRefusal(p.plan, |p.inFlight.value.events|)
    ensures PlanInForce(q) == AfterRefusal(PlanInForce(p), |p.inFlight.value.events|)
  {
    hide AfterRefusal;
    if p.plan == [] {
      FirstRefusal(|p.inFlight.value.events|);
    }
  }

  lemma PathUncons(parse: Parser, w: World, steps: seq<Step>, end: World)
    requires RefusedPath(parse, w, steps, end) && steps != []
    ensures Enabled(w, steps[0]) && Refusing(w, steps[0])
    ensures RefusedPath(parse, Next(parse, w, steps[0]), steps[1..], end)
    ensures steps == [steps[0]] + steps[1..]
  {
    hide Enabled, Refusing, Next;
  }

  lemma PathNothing(parse: Parser, w: World, end: World)
    requires RefusedPath(parse, w, [], end)
    ensures end == w
  {
  }

  lemma RunsOn(parse: Parser, w: World, step: Step)
    requires Runs(parse, w) && Enabled(w, step)
    requires Next(parse, w, step).process.Some? && !Next(parse, w, step).process.value.halted
    ensures Runs(parse, Next(parse, w, step))
  {
    hide Inv, Enabled, Next, ParserFaithful;
    StepKeeps(parse, w, step);
  }

  /** A step that is no answer keeps the plan in force and puts a request in flight exactly when it sends. */
  lemma QuietStep(parse: Parser, w: World, step: Step)
    requires Runs(parse, w) && Enabled(w, step) && Refusing(w, step) && !step.Answer?
    ensures var mid := Next(parse, w, step);
            && Moved(w, mid, 0) && Runs(parse, mid)
            && PlanInForce(mid.process.value) == PlanInForce(w.process.value)
            && InFlightCount(mid.process.value) == InFlightCount(w.process.value) + (if step.Send? then 1 else 0)
  {
    hide Inv, Moved, Next, ParserFaithful, KnownFailures, BatchOf;
    match step {
      case Record(events) => Recording(parse, w, events);
      case Commit(request) => Committing(parse, w, request);
      case Send(batchId) => Sending(parse, w, batchId); NothingInFlight(w, batchId);
    }
    RunsOn(parse, w, step);
  }

  lemma NothingInFlight(w: World, batchId: Bytes)
    requires Enabled(w, Step.Send(batchId))
    ensures w.process.Some? && w.process.value.inFlight.None?
  {
  }

  /** Along a refused path the daemon's requests are a run of refusals of its plan, with their effect on the queue. */
  lemma {:induction false} RequestsFollowPlan(parse: Parser, w: World, steps: seq<Step>, end: World)
    returns (sizes: seq<nat>)
    requires Runs(parse, w) && RefusedPath(parse, w, steps, end)
    ensures Follows(w, steps, end, sizes) && Runs(parse, end)
    decreases |steps|
  {
    hide *;
    RunsRuns(parse, w);
    if steps == [] {
      PathNothing(parse, w, end);
      FollowsNothing(w);
      sizes := [];
    } else {
      PathUncons(parse, w, steps, end);
      var (step, mid) := (steps[0], Next(parse, w, steps[0]));
      if step.Answer? {
        var n := AnswerStep(parse, w, step);
        var rest := RequestsFollowPlan(parse, mid, steps[1..], end);
        FollowsAnswer(parse, w, step, mid, steps[1..], end, n, rest);
        sizes := [n] + rest;
      } else {
        QuietStep(parse, w, step);
        sizes := RequestsFollowPlan(parse, mid, steps[1..], end);
        FollowsQuiet(parse, w, step, mid, steps[1..], end, sizes);
      }
    }
  }

  lemma RunsRuns(parse: Parser, w: World)
    requires Runs(parse, w)
    ensures w.process.Some? && !w.process.value.halted
  {
    hide Inv, ParserFaithful;
  }

  lemma AnswerStep(parse: Parser, w: World, step: Step) returns (n: nat)
    requires Runs(parse, w) && Enabled(w, step) && Refusing(w, step) && step.Answer?
    ensures var mid := Next(parse, w, step);
            var plan := PlanInForce(w.process.value);
            && Moved(w, mid, if n == 1 then 1 else 0) && Runs(parse, mid)
            && InFlightCount(w.process.value) == 1 && InFlightCount(mid.process.value) == 0
            && plan != [] && 1 <= n <= plan[0] && PlanInForce(mid.process.value) == AfterRefusal(plan, n)
  {
    hide Inv, Moved, Next, ParserFaithful, KnownFailures, AfterRefusal, PlanInForce, Runs, Truthful, ReactionIn;
    InFlightIs(parse, w);
    n := |w.process.value.inFlight.value.events|;
    Refused413(parse, w, step);
    RunsOn(parse, w, step);
    InForceAfterAnswer(w.process.value, Next(parse, w, step).process.value);
  }

  // ---------- The result ----------

  /** A sender between batches: running, nothing in flight, no split plan. */
  ghost predicate BetweenBatches(parse: Parser, w: World) {
    Runs(parse, w) && w.process.value.inFlight.None? && w.process.value.plan == []
  }

  lemma BetweenParts(parse: Parser, w: World)
    requires BetweenBatches(parse, w)
    ensures Runs(parse, w) && w.process.Some? && w.process.value.inFlight.None? && w.process.value.plan == []
  {
    hide Inv, ParserFaithful;
  }

  /** The first request is a segment of its own, a non-empty head of the queue of at most 500 events. */
  lemma FirstSend(parse: Parser, w: World, batchId: Bytes)
    requires BetweenBatches(parse, w) && Enabled(w, Step.Send(batchId))
    ensures var (sent, n) := (Next(parse, w, Step.Send(batchId)), |BatchOf(w.process.value)|);
            && Runs(parse, sent) && sent.process.Some?
            && PlanInForce(sent.process.value) == [n] && InFlightCount(sent.process.value) == 1
            && PendingEvents(sent.process.value) == PendingEvents(w.process.value)
            && 1 <= n <= MAX_EVENTS_PER_BATCH && n <= |PendingEvents(w.process.value)|
            && sent.recorded == w.recorded
  {
    hide Inv, ParserFaithful, BatchOf, EventsOf, Moved;
    Sending(parse, w, batchId);
    RunsOn(parse, w, Step.Send(batchId));
    InFlightIs(parse, Next(parse, w, Step.Send(batchId)));
  }

  lemma FollowsParts(w: World, steps: seq<Step>, end: World, sizes: seq<nat>)
    requires Follows(w, steps, end, sizes)
    ensures w.process.Some? && end.process.Some?
    ensures SplitPlan.Refused(PlanInForce(w.process.value), sizes)
    ensures PlanInForce(end.process.value) == PlanAfter(PlanInForce(w.process.value), sizes)
    ensures |sizes| + InFlightCount(end.process.value) == Requests(steps) + InFlightCount(w.process.value)
    ensures Moved(w, end, Singles(sizes))
  {
    hide SplitPlan.Refused, PlanInForce, PlanAfter, InFlightCount, Requests, Moved, Singles, PendingEvents;
  }

  lemma InForceParts(p: Process)
    ensures InFlightCount(p) == (if p.inFlight.Some? then 1 else 0)
    ensures p.plan == [] && p.inFlight.None? ==> PlanInForce(p) == []
    ensures p.inFlight.Some? ==> PlanInForce(p) != []
    ensures Sum([]) == 0
  {
  }

  lemma MovedParts(w: World, end: World, settled: nat)
    requires Moved(w, end, settled)
    ensures w.process.Some? && end.process.Some? && |w.recorded| <= |end.recorded|
    ensures settled <= |PendingEvents(w.process.value)|
    ensures PendingEvents(end.process.value) ==
            PendingEvents(w.process.value)[settled..] + end.recorded[|w.recorded|..]
    ensures forall k :: 0 <= k < settled ==> PendingEvents(w.process.value)[k].eventId in KnownFailures(end.disk)
  {
    hide KnownFailures, PendingEvents;
  }

  /**
   * While every request is answered 413, a head batch of n events causes at most 2n - 1
   * requests, whatever is recorded and committed in between. At every point the settled
   * events, each of which travelled alone in one of the answered requests, have failed
   * records, and the queue is the rest followed by what was recorded since; once the plan
   * is empty and nothing is in flight, all n are settled.
   */
  lemma PermanentRefusal(parse: Parser, w: World, batchId: Bytes, steps: seq<Step>, end: World)
    returns (sizes: seq<nat>)
    requires BetweenBatches(parse, w) && Enabled(w, Step.Send(batchId))
    requires RefusedPath(parse, Next(parse, w, Step.Send(batchId)), steps, end)
    ensures w.process.Some? && end.process.Some? && |w.recorded| <= |end.recorded|
    ensures Singles(sizes) <= |PendingEvents(w.process.value)|
    ensures var (p, q, n) := (w.process.value, end.process.value, |BatchOf(w.process.value)|);
            var settled := Singles(sizes);
            && |sizes| + InFlightCount(q) == 1 + Requests(steps) <= 2 * n - 1
            && settled <= n <= |PendingEvents(p)|
            && PendingEvents(q) == PendingEvents(p)[settled..] + end.recorded[|w.recorded|..]
            && (forall k :: 0 <= k < settled ==> PendingEvents(p)[k].eventId in KnownFailures(end.disk))
            && (q.plan == [] && q.inFlight.None? ==> settled == n)
  {
    hide *;
    BetweenParts(parse, w);
    FirstSend(parse, w, batchId);
    var sent := Next(parse, w, Step.Send(batchId));
    sizes := RequestsFollowPlan(parse, sent, steps, end);
    FollowsParts(sent, steps, end, sizes);
    RefusedSegment(|BatchOf(w.process.value)|, sizes);
    InForceParts(end.process.value);
    MovedParts(sent, end, Singles(sizes));
  }

  // ---------- It comes to an end ----------

  lemma PathCons(parse: Parser, w: World, step: Step, steps: seq<Step>, end: World)
    requires Enabled(w, step) && Refusing(w, step) && RefusedPath(parse, Next(parse, w, step), steps, end)
    ensures RefusedPath(parse, w, [step] + steps, end)
  {
    hide Enabled, Refusing, Next;
    assert ([step] + steps)[1..] == steps;
  }

  /** While the plan is not empty the next request can be sent. */
  lemma NextRequest(parse: Parser, w: World) returns (batchId: Bytes)
    requires Runs(parse, w) && w.process.value.inFlight.None? && w.process.value.plan != []
    ensures Enabled(w, Step.Send(batchId)) && Refusing(w, Step.Send(batchId))
  {
    hide Inv, RunningOk, ParserFaithful;
    batchId := Progress.FreshId(w.sent);
    RunsParts(parse, w);
    RunningView(w.disk, w.process.value, w.sent);
    PlanHasEvents(w.process.value.plan, |w.process.value.mem.pending|);
  }

  lemma PlanHasEvents(plan: seq<nat>, pendingCount: nat)
    requires PlanOk(plan, pendingCount) && plan != []
    ensures pendingCount > 0
  {
  }

  /** A request in flight can be refused. */
  lemma NextRefusal(parse: Parser, w: World) returns (answer: Step)
    requires Runs(parse, w) && w.process.value.inFlight.Some?
    ensures answer == Answer(413, Unparsable, None, [])
    ensures Enabled(w, answer) && Refusing(w, answer)
  {
    hide Inv, ParserFaithful, DiskSide, Enabled;
    answer := Answer(413, Unparsable, None, []);
    DiskOf(parse, w);
    NeverTrusted(w.tables, w.process.value.inFlight.value);
    Reconciliation.AnswerAlwaysPossible(w, 413, Unparsable, None, []);
  }

  lemma DiskOf(parse: Parser, w: World)
    requires Runs(parse, w)
    ensures DiskSide(w)
  {
    hide DiskSide, NetSide;
  }

  lemma NeverTrusted(tables: Tables, request: Request)
    ensures Truthful(tables, request, 413, Unparsable)
  {
  }

  lemma RefusalLowers(plan: seq<nat>, n: nat, pendingCount: nat)
    requires PlanOk(plan, pendingCount) && plan != [] && 1 <= n <= plan[0]
    ensures 0 <= Potential(AfterRefusal(plan, n)) < Potential(plan)
  {
    hide AfterRefusal, Potential, Sum;
    RefusedNone(AfterRefusal(plan, n));
    RefusedFirst(plan, n, []);
    RefusedRun(plan, [n] + []);
  }

  /** Refused to the end, a plan runs empty. */
  lemma {:induction false} PlanRunsEmpty(parse: Parser, w: World) returns (steps: seq<Step>, end: World)
    requires Runs(parse, w)
    ensures RefusedPath(parse, w, steps, end)
    ensures end.process.Some? && end.process.value.plan == [] && end.process.value.inFlight.None?
    decreases Potential(PlanInForce(w.process.value)), 1 - InFlightCount(w.process.value)
  {
    hide *;
    RunsRuns(parse, w);
    var p := w.process.value;
    InForceParts(p);
    if p.inFlight.Some? {
      var answer := NextRefusal(parse, w);
      var n := AnswerStep(parse, w, answer);
      SettledNothing(parse, w);
      RefusalLowers(PlanInForce(p), n, |PendingEvents(p)|);
      steps, end := PlanRunsEmpty(parse, Next(parse, w, answer));
      PathCons(parse, w, answer, steps, end);
      steps := [answer] + steps;
    } else if p.plan != [] {
      var batchId := NextRequest(parse, w);
      QuietStep(parse, w, Step.Send(batchId));
      steps, end := PlanRunsEmpty(parse, Next(parse, w, Step.Send(batchId)));
      PathCons(parse, w, Step.Send(batchId), steps, end);
      steps := [Step.Send(batchId)] + steps;
    } else {
      steps, end := [], w;
      NoPath(parse, w);
    }
  }

  lemma NoPath(parse: Parser, w: World)
    ensures RefusedPath(parse, w, [], w)
  {
  }

  lemma SettledNothing(parse: Parser, w: World)
    requires Runs(parse, w)
    ensures PlanOk(PlanInForce(w.process.value), |PendingEvents(w.process.value)|)
  {
    hide Inv, ParserFaithful, PlanInForce, PlanOk, PendingEvents, Runs;
    RunsRuns(parse, w);
    RefusedNone(PlanInForce(w.process.value));
    SettledIsPending(parse, w, []);
  }

  /** The permanent refusal of a head batch can always be followed to its end: all its events quarantined. */
  lemma HeadIsQuarantined(parse: Parser, w: World, batchId: Bytes) returns (steps: seq<Step>, end: World)
    requires BetweenBatches(parse, w) && Enabled(w, Step.Send(batchId))
    ensures w.process.Some? && end.process.Some? && |w.recorded| <= |end.recorded|
    ensures RefusedPath(parse, Next(parse, w, Step.Send(batchId)), steps, end)
    ensures var (p, n) := (w.process.value, |BatchOf(w.process.value)|);
            && 1 + Requests(steps) <= 2 * n - 1 && n <= |PendingEvents(p)|
            && PendingEvents(end.process.value) == PendingEvents(p)[n..] + end.recorded[|w.recorded|..]
            && forall k :: 0 <= k < n ==> PendingEvents(p)[k].eventId in KnownFailures(end.disk)
  {
    hide *;
    BetweenParts(parse, w);
    FirstSend(parse, w, batchId);
    steps, end := PlanRunsEmpty(parse, Next(parse, w, Step.Send(batchId)));
    var sizes := PermanentRefusal(parse, w, batchId, steps, end);
  }
}
