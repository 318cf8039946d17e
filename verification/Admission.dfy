/**
 * What the server can take at all: the guard that holds instance ids against the key, and the
 * column types of the two tables. One event beyond either has its whole batch refused, every time.
 */
module Admission {
  import opened Basics
  import opened Ingestion

  const MAX_INTEGER: int := 0x7FFF_FFFF
  const MAX_BIGINT: int := 0x7FFF_FFFF_FFFF_FFFF

  predicate IsBigint(n: int) { -MAX_BIGINT - 1 <= n <= MAX_BIGINT }

  /** What the database says of the uuid, text, jsonb and timestamp values of a row. */
  datatype Columns = Columns(takesEvent: NormalizedEvent -> bool, takesPurchase: PurchaseRow -> bool)

  predicate FitsEvent(columns: Columns, e: NormalizedEvent) {
    IsBigint(e.userId) && IsBigint(e.characterId) && columns.takesEvent(e)
  }

  predicate FitsPurchase(columns: Columns, row: PurchaseRow) {
    && IsBigint(row.userId) && 1 <= row.purchase.quantity <= MAX_INTEGER
    && 0 <= row.purchase.amountMinor <= MAX_BIGINT && columns.takesPurchase(row)
  }

  /** An event whose rows fit, should they be inserted. */
  predicate FitsTables(columns: Columns, e: NormalizedEvent) {
    FitsEvent(columns, e) && (e.purchase.Some? ==> FitsPurchase(columns, RowOf(e)))
  }

  predicate EventsFit(columns: Columns, events: seq<NormalizedEvent>) {
    forall i :: 0 <= i < |events| ==> FitsEvent(columns, events[i])
  }

  predicate PurchasesFit(columns: Columns, candidates: seq<NormalizedEvent>)
    requires forall c :: c in candidates ==> c.purchase.Some?
  {
    forall i :: 0 <= i < |candidates| ==> FitsPurchase(columns, RowOf(candidates[i]))
  }

  /** The first statement takes all its rows, the second one those of the newly stored purchases. */
  predicate Storable(columns: Columns, t: Tables, events: seq<NormalizedEvent>) {
    EventsFit(columns, events) && PurchasesFit(columns, Candidates(events, StoredIds(t.events, events)))
  }

  /** The guard on one event: without a mapped instance, or without a string instance_id, nothing is compared. */
  predicate SameInstance(mapped: Option<Bytes>, raw: RawEvent) {
    mapped.None? || mapped.value == [] || raw.NotAnObject? || raw.instanceId.None? ||
    ToLower(raw.instanceId.value) == ToLower(mapped.value)
  }

  predicate PassesGuard(mapped: Option<Bytes>, raws: seq<RawEvent>) {
    forall i :: 0 <= i < |raws| ==> SameInstance(mapped, raws[i])
  }

  /** A batch of fitting events can be stored whatever the tables hold. */
  lemma FittingIsStorable(columns: Columns, t: Tables, accepted: seq<NormalizedEvent>)
    requires forall e :: e in accepted ==> FitsTables(columns, e)
    ensures Storable(columns, t, FirstOfEachId(accepted))
  {
    hide FirstOfEachId, FitsEvent, FitsPurchase, Candidates, StoredIds;
    var unique := FirstOfEachId(accepted);
    var candidates := Candidates(unique, StoredIds(t.events, unique));
    FirstOfEachIdDistinct(accepted);
    CandidatesWithin(unique, StoredIds(t.events, unique));
    forall i | 0 <= i < |unique| ensures FitsEvent(columns, unique[i]) {
      assert unique[i] in unique;
    }
    forall i | 0 <= i < |candidates| ensures FitsPurchase(columns, RowOf(candidates[i])) {
      assert candidates[i] in candidates;
    }
  }

  /** Every row a storable batch adds fits, in both tables. */
  lemma NewRowsFit(columns: Columns, t: Tables, accepted: seq<NormalizedEvent>, id: Bytes)
    requires Storable(columns, t, FirstOfEachId(accepted))
    requires var after := StoreBatch(t, FirstOfEachId(accepted)).events; id in after && id !in t.events
    ensures FitsTables(columns, StoreBatch(t, FirstOfEachId(accepted)).events[id])
  {
    hide FirstOfEachId, FitsEvent, FitsPurchase, Candidates, InsertEvents, InsertPurchases;
    var unique := FirstOfEachId(accepted);
    var stored := StoredIds(t.events, unique);
    FirstOfEachIdDistinct(accepted);
    InsertEventsKeys(t.events, unique);
    CandidatesWithin(unique, stored);
    var e := InsertEvents(t.events, unique)[id];
    assert e in unique && e.eventId == id && id in stored;
    if e.purchase.Some? {
      assert e in Candidates(unique, stored);
    }
  }
}
