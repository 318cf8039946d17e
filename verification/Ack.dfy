/**
 * When a 200 may be trusted, and what the sender does with every response. The
 * response body is what a JSON parser sees: a field is absent, of another type, or
 * the value; null and fractions count as another type.
 */
module Ack {
  import opened Basics
  import opened Ingestion

  datatype Field<+T> = Absent | OtherType | Is(value: T)

  datatype RejectedValue =
    | NotARecord
    | RejectedRecord(index: Field<int>, eventId: Field<Bytes>, code: Field<string>, message: Field<string>)

  datatype Body =
    | Unparsable
    | NotAnObjectBody
    | ObjectBody(
        batchId: Field<Bytes>, receivedCount: Field<int>, acceptedCount: Field<int>, storedCount: Field<int>,
        duplicateCount: Field<int>, orderDuplicateCount: Field<int>, rejectedCount: Field<int>,
        rejected: Field<seq<RejectedValue>>)

  datatype Reason =
    | BodyParseFailed | BodySchemaInvalid | BatchIdMismatch | ReceivedCountMismatch
    | CountInvariantViolated | RejectedEntryInvalid | RejectedEventIdMismatch

  const MAX_REJECTED_MESSAGE_LENGTH: nat := 200

  // ---------- The checks ----------

  predicate Count(f: Field<int>) { f.Is? && f.value >= 0 }

  predicate CountsPresent(b: Body)
    requires b.ObjectBody?
  {
    && Count(b.receivedCount) && Count(b.acceptedCount) && Count(b.storedCount)
    && Count(b.duplicateCount) && Count(b.orderDuplicateCount) && Count(b.rejectedCount)
    && b.rejected.Is?
  }

  predicate CountsConsistent(b: Body)
    requires b.ObjectBody? && CountsPresent(b)
  {
    && b.receivedCount.value == b.acceptedCount.value + b.rejectedCount.value
    && b.acceptedCount.value == b.storedCount.value + b.duplicateCount.value
    && b.orderDuplicateCount.value <= b.storedCount.value
    && |b.rejected.value| == b.rejectedCount.value
  }

  predicate EntryShape(entry: RejectedValue, n: nat) {
    && entry.RejectedRecord?
    && entry.index.Is? && 0 <= entry.index.value < n
    && entry.code.Is? && |entry.code.value| > 0
    && entry.message.Is? && |entry.message.value| <= MAX_REJECTED_MESSAGE_LENGTH
  }

  predicate EntryNamesEvent(entry: RejectedValue, ids: seq<Bytes>)
    requires EntryShape(entry, |ids|)
  {
    entry.eventId == Absent || entry.eventId == Is(ids[entry.index.value])
  }

  /** What the entry loop concludes, from the front, given the indexes already seen. */
  function CheckEntries(entries: seq<RejectedValue>, ids: seq<Bytes>, seen: set<int>): Option<Reason> {
    if entries == [] then None
    else if !EntryShape(entries[0], |ids|) || entries[0].index.value in seen then Some(RejectedEntryInvalid)
    else if !EntryNamesEvent(entries[0], ids) then Some(RejectedEventIdMismatch)
    else CheckEntries(entries[1..], ids, seen + {entries[0].index.value})
  }

  function EntryOf(entry: RejectedValue, n: nat): Rejected
    requires EntryShape(entry, n)
  {
    Rejected(entry.index.value, if entry.eventId.Is? then Some(entry.eventId.value) else None,
             entry.code.value, entry.message.value)
  }

  function EntriesOf(entries: seq<RejectedValue>, n: nat): (r: seq<Rejected>)
    requires forall i :: 0 <= i < |entries| ==> EntryShape(entries[i], n)
    ensures |r| == |entries|
    ensures forall i :: 0 <= i < |entries| ==> r[i] == EntryOf(entries[i], n)
  {
    seq(|entries|, i requires 0 <= i < |entries| && EntryShape(entries[i], n) => EntryOf(entries[i], n))
  }

  lemma {:induction false} CheckedShapes(entries: seq<RejectedValue>, ids: seq<Bytes>, seen: set<int>)
    ensures CheckEntries(entries, ids, seen).None? <==>
              && (forall i :: 0 <= i < |entries| ==>
                    EntryShape(entries[i], |ids|) && EntryNamesEvent(entries[i], ids) &&
                        entries[i].index.value !in seen)
              && (forall i, j :: 0 <= i < j < |entries| ==> entries[i].index != entries[j].index)
  {
    if entries != [] {
      var first := entries[0];
      if EntryShape(first, |ids|) && first.index.value !in seen && EntryNamesEvent(first, ids) {
        CheckedShapes(entries[1..], ids, seen + {first.index.value});
        assert entries == [first] + entries[1..];
      }
    }
  }

  /** parseBatchResponse: the first reason not to trust a 200, or its content. */
  function Validate(b: Body, batchId: Bytes, ids: seq<Bytes>): Result<BatchResponse, Reason> {
    if b.Unparsable? then Err(BodyParseFailed)
    else if b.NotAnObjectBody? then Err(BodySchemaInvalid)
    else if b.batchId != Is(batchId) then Err(BatchIdMismatch)
    else if !CountsPresent(b) then Err(BodySchemaInvalid)
    else if b.receivedCount.value != |ids| then Err(ReceivedCountMismatch)
    else if !CountsConsistent(b) then Err(CountInvariantViolated)
    else match CheckEntries(b.rejected.value, ids, {})
      case Some(reason) => Err(reason)
      case None =>
        CheckedShapes(b.rejected.value, ids, {});
        Ok(BatchResponse(
             batchId, b.receivedCount.value, b.acceptedCount.value, b.storedCount.value, b.duplicateCount.value,
             b.orderDuplicateCount.value, b.rejectedCount.value, EntriesOf(b.rejected.value, |ids|)))
  }

  /** Everything that must match before the checkpoint may move. */
  ghost predicate Trustworthy(b: Body, batchId: Bytes, ids: seq<Bytes>) {
    && b.ObjectBody? && b.batchId == Is(batchId)
    && CountsPresent(b) && b.receivedCount.value == |ids| && CountsConsistent(b)
    && var entries := b.rejected.value;
       && (forall i :: 0 <= i < |entries| ==> EntryShape(entries[i], |ids|) && EntryNamesEvent(entries[i], ids))
       && (forall i, j :: 0 <= i < j < |entries| ==> entries[i].index != entries[j].index)
  }

  /** The checks accept exactly the trustworthy bodies, in whatever order they are made. */
  lemma ValidateExact(b: Body, batchId: Bytes, ids: seq<Bytes>)
    ensures Validate(b, batchId, ids).Ok? <==> Trustworthy(b, batchId, ids)
  {
    if b.ObjectBody? && b.rejected.Is? {
      CheckedShapes(b.rejected.value, ids, {});
    }
  }

  /** validateBatchResponse with its loop over the rejected entries. */
  method ValidateBatchResponse(b: Body, batchId: Bytes, ids: seq<Bytes>) returns (r: Result<BatchResponse, Reason>)
    ensures r == Validate(b, batchId, ids)
  {
    if b.Unparsable? { return Err(BodyParseFailed); }
    if b.NotAnObjectBody? { return Err(BodySchemaInvalid); }
    if b.batchId != Is(batchId) { return Err(BatchIdMismatch); }
    if !CountsPresent(b) { return Err(BodySchemaInvalid); }
    if b.receivedCount.value != |ids| { return Err(ReceivedCountMismatch); }
    if !CountsConsistent(b) { return Err(CountInvariantViolated); }
    var entries := b.rejected.value;
    var seenIndexes: set<int> := {};
    var converted: seq<Rejected> := [];
    var i := 0;
    assert entries[0..] == entries;
    while i < |entries|
      invariant 0 <= i <= |entries|
      invariant CheckEntries(entries[i..], ids, seenIndexes) == CheckEntries(entries, ids, {})
      invariant |converted| == i
      invariant forall j :: 0 <= j < i ==> EntryShape(entries[j], |ids|) && converted[j] == EntryOf(entries[j], |ids|)
    {
      var entry := entries[i];
      assert entries[i..][0] == entry && entries[i..][1..] == entries[i + 1..];
      if !EntryShape(entry, |ids|) || entry.index.value in seenIndexes { return Err(RejectedEntryInvalid); }
      if !EntryNamesEvent(entry, ids) { return Err(RejectedEventIdMismatch); }
      seenIndexes := seenIndexes + {entry.index.value};
      converted := converted + [EntryOf(entry, |ids|)];
      i := i + 1;
    }
    assert entries[i..] == [];
    assert converted == EntriesOf(entries, |ids|);
    return Ok(BatchResponse(
                batchId, b.receivedCount.value, b.acceptedCount.value, b.storedCount.value, b.duplicateCount.value,
                b.orderDuplicateCount.value, b.rejectedCount.value, converted));
  }

  // ---------- What a trusted response means ----------

  function IndexesOf(rejected: seq<Rejected>): (indexes: seq<nat>)
    ensures |indexes| == |rejected|
    ensures forall i :: 0 <= i < |rejected| ==> indexes[i] == rejected[i].index
  {
    seq(|rejected|, i requires 0 <= i < |rejected| => rejected[i].index)
  }

  function RejectedIndexes(r: BatchResponse): set<nat> {
    Elements<nat>(IndexesOf(r.rejected))
  }

  /**
   * A response that passes splits the batch into distinct rejected positions and their
   * complement, and stored plus duplicate is exactly the size of the complement.
   */
  lemma PassedSplitsBatch(b: Body, batchId: Bytes, ids: seq<Bytes>)
    requires Validate(b, batchId, ids).Ok?
    ensures var r := Validate(b, batchId, ids).value;
            && (forall i :: i in RejectedIndexes(r) ==> i < |ids|)
            && |RejectedIndexes(r)| == r.rejectedCount == |r.rejected|
            && r.storedCount + r.duplicateCount == |ids| - |RejectedIndexes(r)|
            && r.orderDuplicateCount <= r.storedCount
  {
    var r := Validate(b, batchId, ids).value;
    var entries := b.rejected.value;
    CheckedShapes(entries, ids, {});
    var indexes := IndexesOf(r.rejected);
    forall i | 0 <= i < |indexes| ensures indexes[i] < |ids| && Is(indexes[i] as int) == entries[i].index {
      assert r.rejected[i] == EntryOf(entries[i], |ids|);
    }
    forall i, j | 0 <= i < j < |indexes| ensures indexes[i] != indexes[j] {
      assert entries[i].index != entries[j].index;
    }
    DistinctCardinality<nat>(indexes);
    forall x | x in Elements<nat>(indexes) ensures x < |ids| {
      var i :| 0 <= i < |indexes| && indexes[i] == x;
    }
  }

  // ---------- The server's own responses ----------

  function EntryValue(r: Rejected): RejectedValue {
    RejectedRecord(Is(r.index), if r.eventId.Some? then Is(r.eventId.value) else Absent, Is(r.code), Is(r.message))
  }

  /** The JSON body the server sends for a response. */
  function BodyOf(r: BatchResponse): Body {
    ObjectBody(Is(r.batchId), Is(r.receivedCount), Is(r.acceptedCount), Is(r.storedCount), Is(r.duplicateCount),
               Is(r.orderDuplicateCount), Is(r.rejectedCount),
               Is(seq(|r.rejected|, i requires 0 <= i < |r.rejected| => EntryValue(r.rejected[i]))))
  }

  /** A rejection entry reports the verdict on the event at its position. */
  ghost predicate Reports(raws: seq<RawEvent>, r: Rejected) {
    r.index < |raws| && ValidateEvent(raws[r.index]) == Reject(r.eventId, r.code, r.message)
  }

  lemma RejectionsUnfold(raws: seq<RawEvent>)
    requires raws != []
    ensures var last := |raws| - 1;
            Rejections(raws) ==
            match ValidateEvent(raws[last])
            case Accept(_) => Rejections(raws[..last])
            case Reject(eventId, code, message) => Rejections(raws[..last]) + [Rejected(last, eventId, code, message)]
  {
    hide ValidateEvent, Accepted;
  }

  /** The rejections are refused positions in order, each with its verdict. */
  lemma RejectionsMore(raws: seq<RawEvent>, raw: RawEvent)
    ensures Rejections(raws + [raw]) ==
            match ValidateEvent(raw)
            case Accept(_) => Rejections(raws)
            case Reject(eventId, code, message) => Rejections(raws) + [Rejected(|raws|, eventId, code, message)]
  {
    hide *;
    assert (raws + [raw])[..|raws|] == raws;
    RejectionsUnfold(raws + [raw]);
  }

  lemma ReportsMore(raws: seq<RawEvent>, raw: RawEvent, r: Rejected)
    ensures Reports(raws, r) ==> Reports(raws + [raw], r) && r.index < |raws|
    ensures r.index == |raws| && ValidateEvent(raw) == Reject(r.eventId, r.code, r.message) ==> Reports(raws + [raw], r)
  {
    hide ValidateEvent;
  }

  lemma {:induction false} RejectionsAre(raws: seq<RawEvent>)
    ensures forall r :: r in Rejections(raws) ==> Reports(raws, r)
    ensures forall i, j :: 0 <= i < j < |Rejections(raws)| ==> Rejections(raws)[i].index < Rejections(raws)[j].index
  {
    if raws != [] {
      var (rest, raw) := (raws[..|raws| - 1], raws[|raws| - 1]);
      assert raws == rest + [raw];
      RejectionsAre(rest);
      RejectionsMore(rest, raw);
      hide *;
      forall r | r in Rejections(raws) ensures Reports(raws, r) {
        ReportsMore(rest, raw, r);
      }
      forall r | r in Rejections(rest) ensures r.index < |rest| {
        ReportsMore(rest, raw, r);
      }
    }
  }

  /** A position is rejected exactly when its event is refused. */
  lemma {:induction false} RefusedIsListed(raws: seq<RawEvent>, k: nat)
    requires k < |raws|
    ensures ValidateEvent(raws[k]).Reject? <==> exists r :: r in Rejections(raws) && r.index == k
  {
    hide *;
    var (rest, raw) := (raws[..|raws| - 1], raws[|raws| - 1]);
    assert raws == rest + [raw];
    RejectionsAre(rest);
    RejectionsMore(rest, raw);
    forall r | r in Rejections(rest) ensures r.index < |rest| {
      ReportsMore(rest, raw, r);
    }
    if k < |rest| {
      RefusedIsListed(rest, k);
    } else if ValidateEvent(raw).Reject? {
      assert Rejections(raws)[|Rejections(rest)|].index == k;
    }
  }

  /**
   * The client/server contract: whatever the tables hold, the response built for a batch
   * passes the sender's validation, so a commit whose answer arrives always counts.
   */
  lemma ServerResponsePasses(t: Tables, batchId: Bytes, raws: seq<RawEvent>, ids: seq<Bytes>)
    requires |raws| == |ids|
    requires forall i :: 0 <= i < |raws| && raws[i].RawObject? && raws[i].eventId.Some? ==>
               raws[i].eventId.value == ids[i]
    ensures Validate(BodyOf(IngestResponse(t, batchId, raws)), batchId, ids) == Ok(IngestResponse(t, batchId, raws))
  {
    var response := IngestResponse(t, batchId, raws);
    var body := BodyOf(response);
    ResponseCounts(t, batchId, raws);
    ResponseParts(t, batchId, raws);
    RejectionsAre(raws);
    hide IngestResponse, IngestTables, Rejections;
    var entries := body.rejected.value;
    forall i | 0 <= i < |entries| ensures EntryShape(entries[i], |ids|) && EntryNamesEvent(entries[i], ids) {
      var rejected := response.rejected[i];
      assert entries[i] == EntryValue(rejected);
      assert Reports(raws, rejected);
    }
    CheckedShapes(entries, ids, {});
    assert EntriesOf(entries, |ids|) == response.rejected;
  }

  lemma ResponseParts(t: Tables, batchId: Bytes, raws: seq<RawEvent>)
    ensures var r := IngestResponse(t, batchId, raws);
            r.batchId == batchId && r.receivedCount == |raws| && r.rejected == Rejections(raws)
  {
    hide Accepted, Rejections, FirstOfEachId, StoredIds, Candidates, PurchaseStoredIds;
  }

  // ---------- Response to action ----------

  datatype AckAction =
    | Confirm(response: BatchResponse)
    | Resend(reason: Reason)
    | Halt(status: int)
    | QuarantineBatch
    | Split
    | RateLimited(retryAfterSec: real)
    | Backoff(status: int)

  /** decideAck; the header is None when it is missing or not a finite number. */
  function DecideAck(status: int, body: Body, batchId: Bytes, ids: seq<Bytes>, retryAfter: Option<real>): AckAction {
    if status == 200 then
      match Validate(body, batchId, ids)
      case Ok(response) => Confirm(response)
      case Err(reason) => Resend(reason)
    else if status == 401 || status == 403 then Halt(status)
    else if status == 400 then QuarantineBatch
    else if status == 413 then Split
    else if status == 429 then
      RateLimited(if retryAfter.Some? && retryAfter.value > 0.0 then retryAfter.value else 1.0)
    else Backoff(status)
  }

  /**
   * decideAck: a 200 counts exactly when its body is trustworthy and is otherwise sent again;
   * every other status has its action whatever the body says.
   */
  method Decide(status: int, body: Body, batchId: Bytes, ids: seq<Bytes>, retryAfter: Option<real>)
    returns (action: AckAction)
    ensures action == DecideAck(status, body, batchId, ids, retryAfter)
    ensures action.Confirm? <==> status == 200 && Trustworthy(body, batchId, ids)
    ensures action.Confirm? ==>
              && |RejectedIndexes(action.response)| == |action.response.rejected|
              && forall k :: k in RejectedIndexes(action.response) ==> k < |ids|
    ensures action.Resend? <==> status == 200 && !Trustworthy(body, batchId, ids)
    ensures action.Halt? <==> status == 401 || status == 403
    ensures action.QuarantineBatch? <==> status == 400
    ensures action == AckAction.Split <==> status == 413
    ensures action.RateLimited? <==> status == 429
    ensures action.RateLimited? ==>
              && action.retryAfterSec > 0.0
              && (retryAfter.Some? && retryAfter.value > 0.0 ==> action.retryAfterSec == retryAfter.value)
    ensures action.Backoff? <==> status !in {200, 400, 401, 403, 413, 429}
  {
    hide Validate, Trustworthy, RejectedIndexes;
    ValidateExact(body, batchId, ids);
    if Validate(body, batchId, ids).Ok? {
      PassedSplitsBatch(body, batchId, ids);
    }
    if status == 200 {
      var validation := ValidateBatchResponse(body, batchId, ids);
      match validation
      case Ok(response) => return Confirm(response);
      case Err(reason) => return Resend(reason);
    }
    return DecideAck(status, body, batchId, ids, retryAfter);
  }

  const BACKOFF_BASE_MS: nat := 1_000
  const BACKOFF_CAP_MS: nat := 30_000

  function Pow2(n: nat): (p: nat)
    ensures p >= 1 && p > n
  {
    if n == 0 then 1 else 2 * Pow2(n - 1)
  }

  /** backoffDelayMs */
  function BackoffDelayMs(attempt: int): nat {
    var delay := BACKOFF_BASE_MS * Pow2(if attempt > 0 then attempt else 0);
    if delay < BACKOFF_CAP_MS then delay else BACKOFF_CAP_MS
  }

  lemma {:induction false} Pow2Monotone(a: nat, b: nat)
    requires a <= b
    ensures Pow2(a) <= Pow2(b)
  {
    if a < b {
      Pow2Monotone(a, b - 1);
    }
  }

  /** The backoff starts at one second, doubles until it would pass the cap, and then stays there. */
  lemma BackoffShape(attempt: nat)
    ensures attempt < 5 <==> BackoffDelayMs(attempt) < BACKOFF_CAP_MS
    ensures attempt < 5 ==> BackoffDelayMs(attempt) == BACKOFF_BASE_MS * Pow2(attempt)
    ensures BackoffDelayMs(attempt) <= BackoffDelayMs(attempt + 1) <= 2 * BackoffDelayMs(attempt)
  {
    assert Pow2(1) == 2 && Pow2(2) == 4 && Pow2(3) == 8 && Pow2(4) == 16 && Pow2(5) == 32;
    if attempt < 5 {
      Pow2Monotone(attempt, 4);
    } else {
      Pow2Monotone(5, attempt);
    }
  }

  /** rateLimitedDelayMs, with the random draw in [0, 1) as an argument. */
  function RateLimitedDelayMs(retryAfterSec: real, random: real): real
    requires 0.0 <= random < 1.0
  {
    (if retryAfterSec > 1.0 then retryAfterSec else 1.0) * 1000.0 + (random * 1000.0).Floor as real
  }
}
