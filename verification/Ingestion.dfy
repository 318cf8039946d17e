/**
 * The receiver: per-event verdicts, the two-stage idempotent insert, and the batch
 * response. One batch is one atomic step on two tables; ON CONFLICT DO NOTHING means
 * that the first row wins, also among the rows of one statement.
 */
module Ingestion {
  import opened Basics

  // ---------- Data ----------

  datatype Purchase = Purchase(
    orderId: Bytes, productId: Bytes, productName: Bytes, quantity: int, amountMinor: int, currency: Bytes)

  datatype NormalizedEvent = NormalizedEvent(
    eventId: Bytes, instanceId: Bytes, eventType: Bytes, userId: int, characterId: int,
    sessionId: Bytes, channelId: Bytes, payload: Bytes, occurredAt: Bytes, purchase: Option<Purchase>)

  /** A purchases row; its primary key is eventId, and orderId is unique. */
  datatype PurchaseRow = PurchaseRow(eventId: Bytes, userId: int, occurredAt: Bytes, purchase: Purchase)

  datatype Tables = Tables(events: map<Bytes, NormalizedEvent>, purchases: map<Bytes, PurchaseRow>)

  const EMPTY_TABLES := Tables(map[], map[])

  datatype Rejected = Rejected(index: nat, eventId: Option<Bytes>, code: string, message: string)

  datatype BatchResponse = BatchResponse(
    batchId: Bytes, receivedCount: nat, acceptedCount: nat, storedCount: nat, duplicateCount: nat,
    orderDuplicateCount: nat, rejectedCount: nat, rejected: seq<Rejected>)

  // ---------- Per-event verdict ----------

  /** One class-validator error: its constraint messages and its nested errors. */
  datatype ErrorNode = ErrorNode(messages: seq<string>, children: seq<ErrorNode>)

  const MAX_ERROR_MESSAGE_LENGTH: nat := 200
  const DEFAULT_VALIDATION_MESSAGE := "validation failed"
  const SHOP_PURCHASE: Bytes := Ascii("shop_purchase")

  function Slice(s: string, n: nat): (r: string)
    ensures |r| <= n && r <= s
  {
    if |s| <= n then s else s[..n]
  }

  /** firstConstraintMessage: the first message in the error tree, never longer than the limit. */
  function FirstConstraintMessage(errors: seq<ErrorNode>): (message: string)
    ensures |message| <= MAX_ERROR_MESSAGE_LENGTH
  {
    if errors == [] then DEFAULT_VALIDATION_MESSAGE
    else if errors[0].messages != [] then Slice(errors[0].messages[0], MAX_ERROR_MESSAGE_LENGTH)
    else
      var nested := FirstConstraintMessage(errors[0].children);
      if errors[0].children != [] && nested != DEFAULT_VALIDATION_MESSAGE then nested
      else FirstConstraintMessage(errors[1..])
  }

  /**
   * A received event: either no JSON object, or its fields together with what the
   * validator library finds wrong with them, in declaration order. The two ids are None
   * when they are no strings; a missing or malformed one is an envelope error.
   */
  datatype RawEvent =
    | NotAnObject
    | RawObject(
        instanceId: Option<Bytes>, instanceIdIsUuid: bool, eventId: Option<Bytes>, eventIdIsUuid: bool,
        fields: NormalizedEvent, otherErrors: seq<ErrorNode>,
        purchase: Purchase, payloadErrors: seq<ErrorNode>)

  datatype Verdict =
    | Accept(event: NormalizedEvent)
    | Reject(eventId: Option<Bytes>, code: string, message: string)

  function LowerByte(b: byte): byte { if 0x41 <= b <= 0x5A then b + 0x20 else b }

  /** toLowerCase on a UUID. */
  function ToLower(id: Bytes): (r: Bytes)
    ensures |r| == |id|
  {
    seq(|id|, i requires 0 <= i < |id| => LowerByte(id[i]))
  }

  function EnvelopeErrors(raw: RawEvent): seq<ErrorNode>
    requires raw.RawObject?
  {
    (if raw.instanceId.Some? && raw.instanceIdIsUuid then [] else [ErrorNode(["instance_id must be a UUID"], [])])
    + (if raw.eventId.Some? && raw.eventIdIsUuid then [] else [ErrorNode(["event_id must be a UUID"], [])])
    + raw.otherErrors
  }

  /** validateEvent */
  function ValidateEvent(raw: RawEvent): (v: Verdict)
    ensures v.Reject? ==> v.code != "" && |v.message| <= MAX_ERROR_MESSAGE_LENGTH
    ensures v.Reject? && v.eventId.Some? ==> raw.RawObject? && raw.eventId == v.eventId
    ensures v.Reject? ==> (v.eventId.Some? <==> raw.RawObject? && raw.eventId.Some? && raw.eventIdIsUuid)
    ensures v.Accept? ==> raw.RawObject? && raw.eventId.Some? && v.event.eventId == ToLower(raw.eventId.value)
    ensures v.Accept? ==> raw.instanceId.Some? && v.event.instanceId == ToLower(raw.instanceId.value)
    ensures v.Accept? ==> (v.event.purchase.Some? <==> v.event.eventType == SHOP_PURCHASE)
  {
    match raw
    case NotAnObject => Reject(None, "INVALID_ENVELOPE", "event must be a JSON object")
    case RawObject(instanceId, _, rawId, isUuid, fields, _, purchase, payloadErrors) =>
      var eventId := if rawId.Some? && isUuid then rawId else None;
      var errors := EnvelopeErrors(raw);
      if errors != [] then Reject(eventId, "INVALID_ENVELOPE", FirstConstraintMessage(errors))
      else
        assert rawId.Some? && instanceId.Some?;
        var event := fields.(
                       eventId := ToLower(rawId.value), instanceId := ToLower(instanceId.value), purchase := None);
        if fields.eventType != SHOP_PURCHASE then Accept(event)
        else if payloadErrors != [] then
          Reject(eventId, "INVALID_PAYLOAD",
                 Slice("shop_purchase.payload: " + FirstConstraintMessage(payloadErrors), MAX_ERROR_MESSAGE_LENGTH))
        else Accept(event.(purchase := Some(purchase)))
  }

  // ---------- Specification of a batch ----------

  function Accepted(raws: seq<RawEvent>): (events: seq<NormalizedEvent>)
    ensures |events| <= |raws|
  {
    if raws == [] then []
    else
      var last := |raws| - 1;
      var rest := Accepted(raws[..last]);
      match ValidateEvent(raws[last])
      case Accept(event) => rest + [event]
      case Reject(_, _, _) => rest
  }

  function Rejections(raws: seq<RawEvent>): (rejected: seq<Rejected>)
    ensures |rejected| + |Accepted(raws)| == |raws|
  {
    if raws == [] then []
    else
      var last := |raws| - 1;
      var rest := Rejections(raws[..last]);
      match ValidateEvent(raws[last])
      case Accept(_) => rest
      case Reject(eventId, code, message) => rest + [Rejected(last, eventId, code, message)]
  }

  function EventIds(events: seq<NormalizedEvent>): set<Bytes> {
    set e | e in events :: e.eventId
  }

  /** The first event of every id. */
  function FirstOfEachId(events: seq<NormalizedEvent>): (unique: seq<NormalizedEvent>)
    ensures |unique| <= |events|
  {
    if events == [] then []
    else
      var last := |events| - 1;
      var rest := FirstOfEachId(events[..last]);
      if events[last].eventId in EventIds(events[..last]) then rest else rest + [events[last]]
  }

  /** INSERT INTO game_events … ON CONFLICT (event_id) DO NOTHING */
  function InsertEvents(table: map<Bytes, NormalizedEvent>, events: seq<NormalizedEvent>): map<Bytes, NormalizedEvent> {
    if events == [] then table
    else
      var last := |events| - 1;
      var before := InsertEvents(table, events[..last]);
      if events[last].eventId in before then before else before[events[last].eventId := events[last]]
  }

  function StoredIds(table: map<Bytes, NormalizedEvent>, events: seq<NormalizedEvent>): set<Bytes> {
    EventIds(events) - table.Keys
  }

  /** The events of this batch that get a purchases row attempt. */
  function Candidates(events: seq<NormalizedEvent>, stored: set<Bytes>): (candidates: seq<NormalizedEvent>)
    ensures |candidates| <= |events|
    ensures forall c :: c in candidates ==> c.purchase.Some?
  {
    if events == [] then []
    else
      var last := |events| - 1;
      var rest := Candidates(events[..last], stored);
      if events[last].purchase.Some? && events[last].eventId in stored then rest + [events[last]] else rest
  }

  function RowOf(event: NormalizedEvent): PurchaseRow
    requires event.purchase.Some?
  {
    PurchaseRow(event.eventId, event.userId, event.occurredAt, event.purchase.value)
  }

  /** INSERT INTO purchases … ON CONFLICT (order_id) DO NOTHING */
  function InsertPurchases(table: map<Bytes, PurchaseRow>, candidates: seq<NormalizedEvent>): map<Bytes, PurchaseRow>
    requires forall c :: c in candidates ==> c.purchase.Some?
  {
    if candidates == [] then table
    else
      var last := |candidates| - 1;
      var before := InsertPurchases(table, candidates[..last]);
      var order := candidates[last].purchase.value.orderId;
      if order in before then before else before[order := RowOf(candidates[last])]
  }

  /** The event ids that the second statement returns. */
  function PurchaseStoredIds(table: map<Bytes, PurchaseRow>, candidates: seq<NormalizedEvent>): set<Bytes>
    requires forall c :: c in candidates ==> c.purchase.Some?
  {
    if candidates == [] then {}
    else
      var last := |candidates| - 1;
      var order := candidates[last].purchase.value.orderId;
      PurchaseStoredIds(table, candidates[..last])
      + (if order in InsertPurchases(table, candidates[..last]) then {} else {candidates[last].eventId})
  }

  function StoreBatch(t: Tables, events: seq<NormalizedEvent>): Tables {
    Tables(InsertEvents(t.events, events),
           InsertPurchases(t.purchases, Candidates(events, StoredIds(t.events, events))))
  }

  function IngestTables(t: Tables, raws: seq<RawEvent>): Tables {
    StoreBatch(t, FirstOfEachId(Accepted(raws)))
  }

  function IngestResponse(t: Tables, batchId: Bytes, raws: seq<RawEvent>): BatchResponse {
    var accepted := Accepted(raws);
    var unique := FirstOfEachId(accepted);
    var stored := StoredIds(t.events, unique);
    var candidates := Candidates(unique, stored);
    StoredBound(t, accepted);
    PurchaseStoredBound(t.purchases, candidates);
    BatchResponse(
      batchId, |raws|, |accepted|, |stored|, |accepted| - |stored|,
      |candidates| - |PurchaseStoredIds(t.purchases, candidates)|,
      |raws| - |accepted|, Rejections(raws))
  }

  // ---------- Counts ----------

  lemma {:induction false} EventIdsBound(events: seq<NormalizedEvent>)
    ensures |EventIds(events)| <= |events|
  {
    if events != [] {
      var last := |events| - 1;
      EventIdsBound(events[..last]);
      assert EventIds(events) == EventIds(events[..last]) + {events[last].eventId};
    }
  }

  /** No more events can be newly stored than were accepted. */
  lemma StoredBound(t: Tables, accepted: seq<NormalizedEvent>)
    ensures |StoredIds(t.events, FirstOfEachId(accepted))| <= |accepted|
  {
    var unique := FirstOfEachId(accepted);
    EventIdsBound(unique);
    SubsetCardinality(StoredIds(t.events, unique), EventIds(unique));
  }

  ghost predicate DistinctIds(events: seq<NormalizedEvent>) {
    forall i, j :: 0 <= i < j < |events| ==> events[i].eventId != events[j].eventId
  }

  lemma FirstOfEachIdMore(events: seq<NormalizedEvent>, e: NormalizedEvent)
    ensures FirstOfEachId(events + [e]) ==
            if e.eventId in EventIds(events) then FirstOfEachId(events) else FirstOfEachId(events) + [e]
    ensures EventIds(events + [e]) == EventIds(events) + {e.eventId}
  {
    assert (events + [e])[..|events|] == events;
  }

  lemma {:induction false} FirstOfEachIdDistinct(events: seq<NormalizedEvent>)
    ensures var unique := FirstOfEachId(events);
            && DistinctIds(unique)
            && EventIds(unique) == EventIds(events)
            && (forall e :: e in unique ==> e in events)
  {
    if events != [] {
      var last := |events| - 1;
      FirstOfEachIdDistinct(events[..last]);
      assert EventIds(events) == EventIds(events[..last]) + {events[last].eventId};
      var rest := FirstOfEachId(events[..last]);
      if events[last].eventId !in EventIds(events[..last]) {
        assert EventIds(rest + [events[last]]) == EventIds(rest) + {events[last].eventId};
        forall i | 0 <= i < |rest| ensures rest[i].eventId != events[last].eventId {
          assert rest[i].eventId in EventIds(rest);
        }
      }
    }
  }

  lemma {:induction false} CandidatesWithin(events: seq<NormalizedEvent>, stored: set<Bytes>)
    requires DistinctIds(events)
    ensures var candidates := Candidates(events, stored);
            && DistinctIds(candidates)
            && EventIds(candidates) <= stored
            && (forall e :: e in candidates <==> e in events && e.purchase.Some? && e.eventId in stored)
  {
    if events != [] {
      var last := |events| - 1;
      CandidatesWithin(events[..last], stored);
      var rest := Candidates(events[..last], stored);
      assert events == events[..last] + [events[last]];
      forall i | 0 <= i < |rest| ensures rest[i].eventId != events[last].eventId {
        assert rest[i] in events[..last];
      }
    }
  }

  lemma {:induction false} DistinctIdsCardinality(events: seq<NormalizedEvent>)
    requires DistinctIds(events)
    ensures |EventIds(events)| == |events|
  {
    if events != [] {
      var last := |events| - 1;
      DistinctIdsCardinality(events[..last]);
      assert EventIds(events) == EventIds(events[..last]) + {events[last].eventId};
      assert events[last].eventId !in EventIds(events[..last]);
    }
  }

  lemma {:induction false} PurchaseStoredWithin(table: map<Bytes, PurchaseRow>, candidates: seq<NormalizedEvent>)
    requires forall c :: c in candidates ==> c.purchase.Some?
    ensures PurchaseStoredIds(table, candidates) <= EventIds(candidates)
  {
    if candidates != [] {
      var last := |candidates| - 1;
      PurchaseStoredWithin(table, candidates[..last]);
      assert EventIds(candidates) == EventIds(candidates[..last]) + {candidates[last].eventId};
    }
  }

  lemma PurchaseStoredBound(table: map<Bytes, PurchaseRow>, candidates: seq<NormalizedEvent>)
    requires forall c :: c in candidates ==> c.purchase.Some?
    ensures |PurchaseStoredIds(table, candidates)| <= |candidates|
  {
    PurchaseStoredWithin(table, candidates);
    EventIdsBound(candidates);
    SubsetCardinality(PurchaseStoredIds(table, candidates), EventIds(candidates));
  }

  /**
   * The count invariants of every response: received = accepted + rejected, accepted =
   * stored + duplicate, and order_duplicate = candidates - inserted never exceeds stored.
   */
  lemma ResponseCounts(t: Tables, batchId: Bytes, raws: seq<RawEvent>)
    ensures var r := IngestResponse(t, batchId, raws);
            && r.receivedCount == |raws| == r.acceptedCount + r.rejectedCount
            && r.acceptedCount == r.storedCount + r.duplicateCount
            && r.orderDuplicateCount <= r.storedCount
            && |r.rejected| == r.rejectedCount
            && r.storedCount == |IngestTables(t, raws).events| - |t.events|
            && r.storedCount - r.orderDuplicateCount >= |IngestTables(t, raws).purchases| - |t.purchases|
  {
    hide FirstOfEachId, InsertEvents, InsertPurchases, Candidates, PurchaseStoredIds, EventIds, Accepted, Rejections;
    var unique := FirstOfEachId(Accepted(raws));
    FirstOfEachIdDistinct(Accepted(raws));
    AddedRows(t, unique);
  }

  /** The rows the two statements add are the ones they return. */
  lemma AddedRows(t: Tables, unique: seq<NormalizedEvent>)
    requires DistinctIds(unique)
    ensures var stored := StoredIds(t.events, unique);
            var candidates := Candidates(unique, stored);
            && |candidates| <= |stored|
            && |InsertEvents(t.events, unique)| == |t.events| + |stored|
            && |InsertPurchases(t.purchases, candidates)| ==
                |t.purchases| + |PurchaseStoredIds(t.purchases, candidates)|
  {
    hide *;
    var stored := StoredIds(t.events, unique);
    AddedEvents(t.events, unique);
    FewCandidates(unique, stored);
    InsertedPurchases(t.purchases, Candidates(unique, stored));
  }

  lemma AddedEvents(table: map<Bytes, NormalizedEvent>, events: seq<NormalizedEvent>)
    ensures |InsertEvents(table, events)| == |table| + |StoredIds(table, events)|
  {
    hide *;
    InsertEventsKeys(table, events);
    StoredIdsAre(table, events);
    KeysAdded(table, InsertEvents(table, events), StoredIds(table, events));
  }

  lemma FewCandidates(events: seq<NormalizedEvent>, stored: set<Bytes>)
    requires DistinctIds(events)
    ensures DistinctIds(Candidates(events, stored)) && |Candidates(events, stored)| <= |stored|
  {
    hide *;
    CandidatesWithin(events, stored);
    DistinctIdsCardinality(Candidates(events, stored));
    SubsetCardinality(EventIds(Candidates(events, stored)), stored);
  }

  lemma StoredIdsAre(table: map<Bytes, NormalizedEvent>, events: seq<NormalizedEvent>)
    ensures StoredIds(table, events) == EventIds(events) - table.Keys
  {
  }

  lemma KeysAdded(before: map<Bytes, NormalizedEvent>, after: map<Bytes, NormalizedEvent>, added: set<Bytes>)
    requires after.Keys == before.Keys + added && before.Keys !! added
    ensures |after| == |before| + |added|
  {
    assert |after.Keys| == |before.Keys| + |added|;
  }

  // ---------- First write wins ----------

  lemma {:induction false} InsertEventsKeys(table: map<Bytes, NormalizedEvent>, events: seq<NormalizedEvent>)
    ensures var after := InsertEvents(table, events);
            && after.Keys == table.Keys + EventIds(events)
            && (forall id :: id in table ==> after[id] == table[id])
            && (forall id :: id in after && id !in table ==> after[id] in events && after[id].eventId == id)
  {
    if events != [] {
      var last := |events| - 1;
      InsertEventsKeys(table, events[..last]);
      assert EventIds(events) == EventIds(events[..last]) + {events[last].eventId};
      assert events == events[..last] + [events[last]];
    }
  }

  /** With distinct ids, every event that is not yet stored is stored as it is. */
  lemma {:induction false} InsertedAsIs(table: map<Bytes, NormalizedEvent>, events: seq<NormalizedEvent>,
      e: NormalizedEvent)
    requires DistinctIds(events) && e in events && e.eventId !in table
    ensures var after := InsertEvents(table, events); e.eventId in after && after[e.eventId] == e
  {
    InsertEventsKeys(table, events);
    assert e.eventId in EventIds(events);
  }

  function OrderIds(candidates: seq<NormalizedEvent>): set<Bytes>
    requires forall c :: c in candidates ==> c.purchase.Some?
  {
    set c | c in candidates :: c.purchase.value.orderId
  }

  ghost predicate RowFrom(row: PurchaseRow, order: Bytes, candidates: seq<NormalizedEvent>) {
    exists c :: c in candidates && c.purchase.Some? && c.purchase.value.orderId == order && row == RowOf(c)
  }

  lemma RowFromMore(row: PurchaseRow, order: Bytes, candidates: seq<NormalizedEvent>, c: NormalizedEvent)
    ensures RowFrom(row, order, candidates) ==> RowFrom(row, order, candidates + [c])
    ensures c.purchase.Some? && c.purchase.value.orderId == order && row == RowOf(c) ==>
              RowFrom(row, order, candidates + [c])
  {
    if RowFrom(row, order, candidates) {
      var x :| x in candidates && x.purchase.Some? && x.purchase.value.orderId == order && row == RowOf(x);
      assert x in candidates + [c];
    }
    assert c in candidates + [c];
  }

  /** One more row of the second statement. */
  lemma InsertPurchasesMore(purchases: map<Bytes, PurchaseRow>, candidates: seq<NormalizedEvent>, e: NormalizedEvent)
    requires (forall c :: c in candidates ==> c.purchase.Some?) && e.purchase.Some?
    ensures InsertPurchases(purchases, candidates + [e]) ==
            var before := InsertPurchases(purchases, candidates);
            if e.purchase.value.orderId in before then before else before[e.purchase.value.orderId := RowOf(e)]
  {
    assert (candidates + [e])[..|candidates|] == candidates;
  }

  lemma OrderIdsMore(candidates: seq<NormalizedEvent>, e: NormalizedEvent)
    requires (forall c :: c in candidates ==> c.purchase.Some?) && e.purchase.Some?
    ensures OrderIds(candidates + [e]) == OrderIds(candidates) + {e.purchase.value.orderId}
  {
  }

  lemma NoPurchases(table: map<Bytes, PurchaseRow>)
    ensures InsertPurchases(table, []) == table && OrderIds([]) == {}
  {
  }

  lemma {:induction false} InsertPurchasesKeys(table: map<Bytes, PurchaseRow>, candidates: seq<NormalizedEvent>)
    requires forall c :: c in candidates ==> c.purchase.Some?
    ensures var after := InsertPurchases(table, candidates);
            && after.Keys == table.Keys + OrderIds(candidates)
            && (forall o :: o in table ==> after[o] == table[o])
            && (forall o :: o in after && o !in table ==> RowFrom(after[o], o, candidates))
  {
    hide *;
    if candidates == [] {
      NoPurchases(table);
    } else {
      var last := |candidates| - 1;
      var (c, rest) := (candidates[last], candidates[..last]);
      InsertPurchasesKeys(table, rest);
      assert candidates == rest + [c];
      InsertPurchasesMore(table, rest, c);
      OrderIdsMore(rest, c);
      var after := InsertPurchases(table, candidates);
      forall o | o in after && o !in table ensures RowFrom(after[o], o, candidates) {
        RowFromMore(after[o], o, rest, c);
      }
    }
  }

  /** The returned ids are as many as the rows the second statement added. */
  lemma {:induction false} InsertedPurchases(table: map<Bytes, PurchaseRow>, candidates: seq<NormalizedEvent>)
    requires DistinctIds(candidates) && forall c :: c in candidates ==> c.purchase.Some?
    ensures |InsertPurchases(table, candidates)| == |table| + |PurchaseStoredIds(table, candidates)|
  {
    if candidates != [] {
      var last := |candidates| - 1;
      InsertedPurchases(table, candidates[..last]);
      PurchaseStoredWithin(table, candidates[..last]);
      assert candidates[last].eventId !in EventIds(candidates[..last]);
    }
  }

  // ---------- The invariant of the two tables ----------

  /**
   * Rows are keyed by their own ids; every purchase row belongs to a stored event and is
   * derived from it; every stored event with a purchase has a row for its order.
   */
  ghost predicate TablesOk(t: Tables) {
    && (forall id :: id in t.events ==> t.events[id].eventId == id)
    && (forall o :: o in t.purchases ==>
          var row := t.purchases[o];
          row.eventId in t.events && t.events[row.eventId].purchase.Some? &&
          t.events[row.eventId].purchase.value.orderId == o && row == RowOf(t.events[row.eventId]))
    && (forall id :: id in t.events && t.events[id].purchase.Some? ==>
          t.events[id].purchase.value.orderId in t.purchases)
  }

  /** The event id is the primary key of purchases: no row may already carry it. */
  ghost predicate PrimaryKeyFree(purchases: map<Bytes, PurchaseRow>, eventId: Bytes) {
    forall o :: o in purchases ==> purchases[o].eventId != eventId
  }

  function PurchasedOrders(events: map<Bytes, NormalizedEvent>): set<Bytes> {
    set id | id in events && events[id].purchase.Some? :: events[id].purchase.value.orderId
  }

  /** Purchases hold exactly one row per distinct order among the stored purchase events. */
  lemma OneRowPerOrder(t: Tables)
    requires TablesOk(t)
    ensures t.purchases.Keys == PurchasedOrders(t.events)
    ensures forall o1, o2 ::
              o1 in t.purchases && o2 in t.purchases && t.purchases[o1].eventId == t.purchases[o2].eventId ==> o1 == o2
  {
    forall o | o in t.purchases ensures o in PurchasedOrders(t.events) {
      assert t.purchases[o].eventId in t.events;
    }
  }

  /** Every batch keeps the invariant of the tables. */
  lemma IngestKeepsTables(t: Tables, raws: seq<RawEvent>)
    requires TablesOk(t)
    ensures TablesOk(IngestTables(t, raws))
  {
    FirstOfEachIdDistinct(Accepted(raws));
    StoreKeepsTables(t, FirstOfEachId(Accepted(raws)));
  }

  lemma StoreKeepsTables(t: Tables, events: seq<NormalizedEvent>)
    requires TablesOk(t) && DistinctIds(events)
    ensures TablesOk(StoreBatch(t, events))
  {
    var stored := StoredIds(t.events, events);
    var candidates := Candidates(events, stored);
    CandidatesWithin(events, stored);
    InsertEventsKeys(t.events, events);
    InsertPurchasesKeys(t.purchases, candidates);
    var after := StoreBatch(t, events);
    forall o | o in after.purchases
      ensures var row := after.purchases[o];
              row.eventId in after.events && after.events[row.eventId].purchase.Some? &&
              after.events[row.eventId].purchase.value.orderId == o && row == RowOf(after.events[row.eventId])
    {
      if o !in t.purchases {
        var c :| c in candidates && c.purchase.Some? && c.purchase.value.orderId == o && after.purchases[o] == RowOf(c);
        InsertedAsIs(t.events, events, c);
      }
    }
    forall id | id in after.events && after.events[id].purchase.Some?
      ensures after.events[id].purchase.value.orderId in after.purchases
    {
      if id !in t.events {
        assert after.events[id] in candidates;
      }
    }
  }

  /** The second statement never meets an occupied primary key, whatever prefix of it has run. */
  lemma {:induction false} PurchaseKeyFree(t: Tables, events: seq<NormalizedEvent>, i: nat)
    requires TablesOk(t) && DistinctIds(events)
    requires var candidates := Candidates(events, StoredIds(t.events, events)); i < |candidates|
    ensures var candidates := Candidates(events, StoredIds(t.events, events));
            PrimaryKeyFree(InsertPurchases(t.purchases, candidates[..i]), candidates[i].eventId)
  {
    var stored := StoredIds(t.events, events);
    var candidates := Candidates(events, stored);
    CandidatesWithin(events, stored);
    InsertPurchasesKeys(t.purchases, candidates[..i]);
    var before := InsertPurchases(t.purchases, candidates[..i]);
    assert candidates[i] in candidates;
    forall o | o in before ensures before[o].eventId != candidates[i].eventId {
      if o !in t.purchases {
        var c :| c in candidates[..i] && c.purchase.Some? && c.purchase.value.orderId == o && before[o] == RowOf(c);
      }
    }
  }

  // ---------- Replay and schedules ----------

  lemma {:induction false} NothingNew(table: map<Bytes, NormalizedEvent>, events: seq<NormalizedEvent>)
    requires EventIds(events) <= table.Keys
    ensures InsertEvents(table, events) == table
  {
    if events != [] {
      var last := |events| - 1;
      assert EventIds(events) == EventIds(events[..last]) + {events[last].eventId};
      NothingNew(table, events[..last]);
    }
  }

  lemma {:induction false} NoCandidates(events: seq<NormalizedEvent>)
    ensures Candidates(events, {}) == []
  {
    if events != [] {
      NoCandidates(events[..|events| - 1]);
    }
  }

  /** A batch whose accepted events are all stored changes neither table, whatever its content. */
  lemma ReplayChangesNothing(t: Tables, raws: seq<RawEvent>)
    requires EventIds(Accepted(raws)) <= t.events.Keys
    ensures IngestTables(t, raws) == t
    ensures forall batchId :: IngestResponse(t, batchId, raws).storedCount == 0
  {
    var unique := FirstOfEachId(Accepted(raws));
    FirstOfEachIdDistinct(Accepted(raws));
    NothingNew(t.events, unique);
    assert StoredIds(t.events, unique) == {};
    NoCandidates(unique);
  }

  /** After a batch, all its accepted events are stored, so sending it again changes nothing. */
  lemma IngestTwice(t: Tables, raws: seq<RawEvent>)
    ensures IngestTables(t, raws).events.Keys == t.events.Keys + EventIds(Accepted(raws))
    ensures forall id :: id in t.events ==> IngestTables(t, raws).events[id] == t.events[id]
    ensures IngestTables(IngestTables(t, raws), raws) == IngestTables(t, raws)
  {
    FirstOfEachIdDistinct(Accepted(raws));
    InsertEventsKeys(t.events, FirstOfEachId(Accepted(raws)));
    ReplayChangesNothing(IngestTables(t, raws), raws);
  }

  /** Any sequence of batches. */
  function IngestAll(t: Tables, batches: seq<seq<RawEvent>>): Tables {
    if batches == [] then t
    else
      var last := |batches| - 1;
      IngestTables(IngestAll(t, batches[..last]), batches[last])
  }

  /** Every event that any of the batches delivers in acceptable form. */
  function Delivered(batches: seq<seq<RawEvent>>): set<NormalizedEvent> {
    set i, e | 0 <= i < |batches| && e in Accepted(batches[i]) :: e
  }

  ghost predicate IdFixesContent(events: set<NormalizedEvent>) {
    forall a, b :: a in events && b in events && a.eventId == b.eventId ==> a == b
  }

  /** Two purchases of one order agree on amount and currency. */
  ghost predicate AgreeOnOrder(a: Purchase, b: Purchase) {
    a.orderId == b.orderId ==> a.amountMinor == b.amountMinor && a.currency == b.currency
  }

  ghost predicate OrderFixesAmount(events: set<NormalizedEvent>) {
    forall a, b :: a in events && b in events && a.purchase.Some? && b.purchase.Some? ==>
      AgreeOnOrder(a.purchase.value, b.purchase.value)
  }

  /** From empty tables, every stored event was delivered, every delivered id is stored, and the tables are sound. */
  lemma {:induction false} IngestAllStores(batches: seq<seq<RawEvent>>)
    ensures var t := IngestAll(EMPTY_TABLES, batches);
            && TablesOk(t)
            && (forall e :: e in Delivered(batches) ==> e.eventId in t.events)
            && (forall id :: id in t.events ==> t.events[id] in Delivered(batches))
  {
    if batches != [] {
      hide TablesOk, IngestTables, Delivered;
      var last := |batches| - 1;
      IngestAllStores(batches[..last]);
      var before := IngestAll(EMPTY_TABLES, batches[..last]);
      IngestKeepsTables(before, batches[last]);
      IngestStores(before, batches[last]);
      DeliveredMore(batches[..last], batches[last]);
      assert batches == batches[..last] + [batches[last]];
      var t := IngestTables(before, batches[last]);
      forall e | e in Delivered(batches) ensures e.eventId in t.events {
        assert e in Delivered(batches[..last]) || e in Accepted(batches[last]);
      }
    } else {
      assert Delivered(batches) == {};
    }
  }

  lemma DeliveredMore(batches: seq<seq<RawEvent>>, raws: seq<RawEvent>)
    ensures forall e :: e in Delivered(batches + [raws]) <==> e in Delivered(batches) || e in Accepted(raws)
  {
    var all := batches + [raws];
    forall e | e in Delivered(all) ensures e in Delivered(batches) || e in Accepted(raws) {
      var i :| 0 <= i < |all| && e in Accepted(all[i]);
      assert i < |batches| ==> all[i] == batches[i];
    }
    forall e | e in Delivered(batches) ensures e in Delivered(all) {
      var i :| 0 <= i < |batches| && e in Accepted(batches[i]);
      assert all[i] == batches[i];
    }
    forall e | e in Accepted(raws) ensures e in Delivered(all) {
      assert all[|batches|] == raws;
    }
  }

  /** One batch stores every accepted id, keeps every old row, and adds only accepted events. */
  lemma IngestStores(t: Tables, raws: seq<RawEvent>)
    ensures var after := IngestTables(t, raws).events;
            && (forall e :: e in Accepted(raws) ==> e.eventId in after)
            && (forall id :: id in t.events ==> id in after && after[id] == t.events[id])
            && (forall id :: id in after && id !in t.events ==> after[id] in Accepted(raws) && after[id].eventId == id)
  {
    hide Accepted, FirstOfEachId, InsertEvents;
    var unique := FirstOfEachId(Accepted(raws));
    FirstOfEachIdDistinct(Accepted(raws));
    InsertEventsKeys(t.events, unique);
    forall e | e in Accepted(raws) ensures e.eventId in InsertEvents(t.events, unique) {
      assert e.eventId in EventIds(Accepted(raws));
    }
  }

  /**
   * Effectively-once delivery: however the same events are cut into batches, ordered and
   * repeated, the final event table is exactly the delivered events, each under its id.
   */
  lemma EffectivelyOnce(batches: seq<seq<RawEvent>>)
    requires IdFixesContent(Delivered(batches))
    ensures var table := IngestAll(EMPTY_TABLES, batches).events;
            && table.Values == Delivered(batches)
            && (forall e :: e in Delivered(batches) ==> e.eventId in table && table[e.eventId] == e)
  {
    IngestAllStores(batches);
    var table := IngestAll(EMPTY_TABLES, batches).events;
    forall e | e in Delivered(batches) ensures e.eventId in table && table[e.eventId] == e {
      assert table[e.eventId] in Delivered(batches);
    }
  }

  lemma ScheduleIndependentEvents(a: seq<seq<RawEvent>>, b: seq<seq<RawEvent>>)
    requires Delivered(a) == Delivered(b) && IdFixesContent(Delivered(a))
    ensures IngestAll(EMPTY_TABLES, a).events == IngestAll(EMPTY_TABLES, b).events
  {
    hide *;
    EffectivelyOnce(a);
    EffectivelyOnce(b);
    IngestAllStores(a);
    IngestAllStores(b);
    KeyedById(IngestAll(EMPTY_TABLES, a));
    KeyedById(IngestAll(EMPTY_TABLES, b));
    HoldAlike(IngestAll(EMPTY_TABLES, a).events, IngestAll(EMPTY_TABLES, b).events, Delivered(a));
  }

  lemma KeyedById(t: Tables)
    requires TablesOk(t)
    ensures forall id :: id in t.events ==> t.events[id].eventId == id
  {
  }

  /** Tables that hold exactly some events, each under its id, are the same. */
  lemma HoldAlike(a: map<Bytes, NormalizedEvent>, b: map<Bytes, NormalizedEvent>, events: set<NormalizedEvent>)
    requires forall id :: id in a ==> a[id] in events && a[id].eventId == id
    requires forall id :: id in b ==> b[id] in events && b[id].eventId == id
    requires forall e :: e in events ==> e.eventId in a && a[e.eventId] == e
    requires forall e :: e in events ==> e.eventId in b && b[e.eventId] == e
    ensures a == b
  {
    forall id ensures id in a <==> id in b {
    }
  }

  /** The amounts of one currency by order. */
  function Amounts(t: Tables, currency: Bytes): map<Bytes, int> {
    map o | o in t.purchases && t.purchases[o].purchase.currency == currency :: t.purchases[o].purchase.amountMinor
  }

  ghost function SumValues(m: map<Bytes, int>): int {
    if m == map[] then 0
    else
      var o :| o in m;
      m[o] + SumValues(m - {o})
  }

  ghost function Revenue(t: Tables, currency: Bytes): int {
    SumValues(Amounts(t, currency))
  }

  /**
   * Total revenue per currency does not depend on chunking, order or repetition, even
   * though the event whose row won an order may differ between schedules.
   */
  lemma ScheduleIndependentRevenue(a: seq<seq<RawEvent>>, b: seq<seq<RawEvent>>, currency: Bytes)
    requires Delivered(a) == Delivered(b)
    requires IdFixesContent(Delivered(a)) && OrderFixesAmount(Delivered(a))
    ensures Revenue(IngestAll(EMPTY_TABLES, a), currency) == Revenue(IngestAll(EMPTY_TABLES, b), currency)
  {
    hide IngestAll, Delivered, TablesOk, OrderFixesAmount, IdFixesContent, SumValues;
    var (ta, tb) := (IngestAll(EMPTY_TABLES, a), IngestAll(EMPTY_TABLES, b));
    ScheduleIndependentEvents(a, b);
    IngestAllStores(a);
    IngestAllStores(b);
    SameAmounts(ta, tb, Delivered(a), currency);
  }

  /** Sound tables over the same events have the same orders with the same amounts. */
  lemma SameAmounts(ta: Tables, tb: Tables, delivered: set<NormalizedEvent>, currency: Bytes)
    requires TablesOk(ta) && TablesOk(tb) && ta.events == tb.events
    requires forall id :: id in ta.events ==> ta.events[id] in delivered
    requires OrderFixesAmount(delivered)
    ensures Amounts(ta, currency) == Amounts(tb, currency)
  {
    hide TablesOk, OrderFixesAmount, PurchasedOrders;
    OneRowPerOrder(ta);
    OneRowPerOrder(tb);
    forall o | o in ta.purchases
      ensures ta.purchases[o].purchase.amountMinor == tb.purchases[o].purchase.amountMinor
      ensures ta.purchases[o].purchase.currency == tb.purchases[o].purchase.currency
    {
      SameAmount(ta, tb, delivered, o);
    }
  }

  lemma SameAmount(ta: Tables, tb: Tables, delivered: set<NormalizedEvent>, o: Bytes)
    requires TablesOk(ta) && TablesOk(tb) && ta.events == tb.events
    requires forall id :: id in ta.events ==> ta.events[id] in delivered
    requires OrderFixesAmount(delivered)
    requires o in ta.purchases && o in tb.purchases
    ensures ta.purchases[o].purchase.amountMinor == tb.purchases[o].purchase.amountMinor
    ensures ta.purchases[o].purchase.currency == tb.purchases[o].purchase.currency
  {
    var (ea, eb) := (ta.events[ta.purchases[o].eventId], tb.events[tb.purchases[o].eventId]);
    assert AgreeOnOrder(ea.purchase.value, eb.purchase.value);
  }
}
