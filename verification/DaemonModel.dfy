/** What one answered request does to the queue and to the split plan. */
module DaemonModel {
  import opened Ack
  import opened Basics
  import opened Batching
  import opened Codec
  import opened Disk
  import opened Ingestion
  import opened OutboxModel
  import opened SplitPlan

  const BATCH_INTERVAL_MS: int := 1_000
  const BACKPRESSURE_PENDING_LIMIT: nat := 100_000

  datatype Request = Request(batchId: Bytes, events: seq<Event>)

  /** A running sender: the memory of its outbox, its split plan, the request in flight, and whether it is halted. */
  datatype Process = Process(mem: Memory, plan: seq<nat>, inFlight: Option<Request>, halted: bool)

  /** isBatchReady */
  predicate IsBatchReady(batchLength: nat, batchCap: nat, pendingCount: nat, batchStartedAt: int, now: int) {
    batchLength != 0 &&
    (batchLength >= batchCap || pendingCount > batchLength || now - batchStartedAt >= BATCH_INTERVAL_MS)
  }

  /** A head batch waits only while it is the whole queue, under its cap and younger than a second. */
  lemma OnlyTheTailWaits(events: seq<Event>, cap: nat, startedAt: int, now: int)
    requires events != [] && 0 < cap
    ensures var n := Head(events, cap, MAX_BATCH_BYTES);
            !IsBatchReady(n, cap, |events|, startedAt, now) <==>
                n == |events| < cap && now - startedAt < BATCH_INTERVAL_MS
  {
    var n := Head(events, cap, MAX_BATCH_BYTES);
    assert events[..0] == [] && Fits(events[..0], cap, MAX_BATCH_BYTES);
    HeadIsLongest(events, cap, MAX_BATCH_BYTES, 0);
  }

  /** What the sender remembers beside its queue and plan: retries, startup drain, batch window. */
  datatype Books = Books(attempt: nat, drainRemaining: nat, drainCounts: seq<nat>, batchStartedAt: Option<int>)

  /** The books once count head events are settled and pendingLeft events remain. */
  function AfterProgress(b: Books, count: nat, pendingLeft: nat, now: int): Books {
    if count == 0 then b
    else
      var drained := if count < b.drainRemaining then count else b.drainRemaining;
      var remaining := b.drainRemaining - drained;
      Books(0, remaining,
            if b.drainRemaining == 0 then b.drainCounts else b.drainCounts + [drained],
            if pendingLeft == 0 then None else if remaining > 0 then Some(0) else Some(now))
  }

  /** Progress never changes how much was to be drained at startup. */
  lemma ProgressKeepsBacklog(b: Books, count: nat, pendingLeft: nat, now: int)
    ensures var after := AfterProgress(b, count, pendingLeft, now);
            && after.drainRemaining + Sum(after.drainCounts) == b.drainRemaining + Sum(b.drainCounts)
            && after.drainRemaining == if count < b.drainRemaining then b.drainRemaining - count else 0
  {
    var drained := if count < b.drainRemaining then count else b.drainRemaining;
    SumAppend(b.drainCounts, [drained]);
    assert [drained][1..] == [];
  }

  /** How long an answer makes the sender wait before the next request. */
  function WaitAfter(action: AckAction, attempt: nat, random: real): real
    requires 0.0 <= random < 1.0
  {
    match action
    case Backoff(_) => BackoffDelayMs(attempt) as real
    case RateLimited(retryAfterSec) => RateLimitedDelayMs(retryAfterSec, random)
    case _ => 0.0
  }

  /** The events to quarantine, the number to confirm, the next plan, and whether sending halts. */
  datatype Reaction = Reaction(quarantine: seq<Event>, confirm: nat, plan: seq<nat>, halted: bool)

  /** The events of a batch at the rejected positions that exist. */
  function RejectedEvents(rejected: seq<Rejected>, batch: seq<Event>): (events: seq<Event>)
    ensures forall e :: e in events ==> e in batch
  {
    if rejected == [] then []
    else
      var last := |rejected| - 1;
      RejectedEvents(rejected[..last], batch)
      + (if rejected[last].index < |batch| then [batch[rejected[last].index]] else [])
  }

  /** The transition table of a response. */
  function React(action: AckAction, batch: seq<Event>, plan: seq<nat>): Reaction {
    match action
    case Confirm(response) =>
      Reaction(RejectedEvents(response.rejected, batch), |batch|, Advance(plan, |batch|), false)
    case QuarantineBatch => Reaction(batch, |batch|, Advance(plan, |batch|), false)
    case Split =>
      if |batch| == 1 then Reaction(batch, 1, Advance(plan, 1), false)
      else Reaction([], 0, SplitPlan.SplitHead(plan, |batch|), false)
    case Halt(_) => Reaction([], 0, plan, true)
    case Resend(_) => Reaction([], 0, plan, false)
    case RateLimited(_) => Reaction([], 0, plan, false)
    case Backoff(_) => Reaction([], 0, plan, false)
  }

  /** The reaction to a response for a request. */
  function ReactionTo(request: Request, plan: seq<nat>, status: int, body: Body, retryAfter: Option<real>): Reaction {
    React(ActionOn(request, status, body, retryAfter), request.events, plan)
  }

  /** The action on a response for a request. */
  function ActionOn(request: Request, status: int, body: Body, retryAfter: Option<real>): AckAction {
    DecideAck(status, body, request.batchId, IdsOf(request.events), retryAfter)
  }

  /** The books after an answer that settled confirm head events: only a backoff counts as a retry. */
  function AnsweredBooks(b: Books, action: AckAction, confirm: nat, pendingLeft: nat, now: int): Books {
    var after := AfterProgress(b, confirm, pendingLeft, now);
    if action.Backoff? then after.(attempt := after.attempt + 1) else after
  }

  /** A reaction settles the whole batch or none of it, and keeps the plan within the queue. */
  lemma ReactionKeepsPlan(action: AckAction, batch: seq<Event>, plan: seq<nat>, pendingCount: nat)
    requires PlanOk(plan, pendingCount)
    requires 0 < |batch| <= pendingCount && |batch| <= Cap(plan)
    ensures var r := React(action, batch, plan);
            && (r.confirm == 0 || r.confirm == |batch|)
            && PlanOk(r.plan, pendingCount - r.confirm)
            && (forall e :: e in r.quarantine ==> e in batch)
            && (r.confirm == 0 ==> r.quarantine == [])
            && (plan != [] && (r.confirm > 0 || action == AckAction.Split) ==> Potential(r.plan) < Potential(plan))
  {
    if action.Confirm? || action.QuarantineBatch? || (action == AckAction.Split && |batch| == 1) {
      AdvanceKeepsRange(plan, |batch|, pendingCount);
    } else if action == AckAction.Split {
      SplitKeepsRange(plan, |batch|, pendingCount);
    }
  }

  /**
   * The checkpoint moves exactly on a 200 that may be trusted, on a 400, and on a 413 for a
   * single event; everything settled by the latter two is quarantined, and only 401 and 403 halt.
   */
  lemma CheckpointMovesExactly(request: Request, plan: seq<nat>, status: int, body: Body, retryAfter: Option<real>)
    requires request.events != []
    ensures var trusted := Trustworthy(body, request.batchId, IdsOf(request.events));
            var r := ReactionTo(request, plan, status, body, retryAfter);
            && (r.confirm > 0 <==>
                  (status == 200 && trusted) || status == 400 || (status == 413 && |request.events| == 1))
            && (r.confirm > 0 && status != 200 ==> r.quarantine == request.events)
            && (r.halted <==> status == 401 || status == 403)
            && (r.plan == plan || r.confirm > 0 || status == 413)
  {
    hide Trustworthy, Validate, Advance, SplitPlan.SplitHead, RejectedEvents;
    ValidateExact(body, request.batchId, IdsOf(request.events));
  }

  lemma {:induction false} RejectedAre(rejected: seq<Rejected>, batch: seq<Event>, k: nat)
    requires k < |batch|
    ensures (exists r :: r in rejected && r.index == k) ==> batch[k] in RejectedEvents(rejected, batch)
  {
    if rejected != [] {
      var last := |rejected| - 1;
      RejectedAre(rejected[..last], batch, k);
      assert rejected == rejected[..last] + [rejected[last]];
    }
  }

  /** The file operations of a reaction: the failed records first, then the checkpoint. */
  function ReactOps(m: Memory, known: set<Bytes>, r: Reaction, detail: Bytes): seq<FileOp>
    requires r.confirm <= |m.pending|
  {
    QuarantineOps(NewFailures(r.quarantine, known), detail) + ConfirmOps(m, r.confirm)
  }
}
