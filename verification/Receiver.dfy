/** The guard, the repository and the ingestion service as objects over the two tables. */
module Receiver {
  import opened Admission
  import opened Basics
  import opened Ingestion

  datatype StorageError = Unavailable | ValueRejected | PrimaryKeyViolation

  datatype StoreBatchResult = StoreBatchResult(
    storedEventIds: set<Bytes>, purchaseStoredEventIds: set<Bytes>, purchaseCandidateCount: nat)

  class IngestionRepository {
    const columns: Columns
    var gameEvents: map<Bytes, NormalizedEvent>
    var purchases: map<Bytes, PurchaseRow>

    function Contents(): Tables
      reads this
    {
      Tables(gameEvents, purchases)
    }

    ghost predicate Valid()
      reads this
    {
      TablesOk(Contents())
    }

    constructor (columns: Columns)
      ensures Valid() && Contents() == EMPTY_TABLES && this.columns == columns
    {
      this.columns := columns;
      gameEvents := map[];
      purchases := map[];
    }

    lemma ContentsIs()
      ensures Contents() == Tables(gameEvents, purchases)
    {
    }

    /**
     * The first statement: a value that does not fit its column fails it as a whole; otherwise
     * it inserts row by row and returns the ids it inserted.
     */
    method InsertGameEvents(events: seq<NormalizedEvent>) returns (r: Result<set<Bytes>, StorageError>)
      modifies `gameEvents
      ensures r == if EventsFit(columns, events) then Ok(StoredIds(old(gameEvents), events)) else Err(ValueRejected)
      ensures gameEvents ==
                if EventsFit(columns, events) then InsertEvents(old(gameEvents), events) else old(gameEvents)
    {
      hide *;
      if !EventsFit(columns, events) {
        return Err(ValueRejected);
      }
      ghost var table := gameEvents;
      var inserted: set<Bytes> := {};
      var i := 0;
      assert events[..0] == [];
      InsertNone(table);
      while i < |events|
        invariant 0 <= i <= |events|
        invariant gameEvents == InsertEvents(table, events[..i])
        invariant inserted == StoredIds(table, events[..i])
      {
        var e := events[i];
        InsertOne(table, events[..i], e);
        assert events[..i + 1] == events[..i] + [e];
        if e.eventId !in gameEvents {
          gameEvents := gameEvents[e.eventId := e];
          inserted := inserted + {e.eventId};
        }
        i := i + 1;
      }
      assert events[..i] == events;
      return Ok(inserted);
    }

    /**
     * The second statement: it fails on a value that does not fit, skips an occupied order,
     * and fails on an occupied primary key, which cannot occur for candidates whose row keys
     * are free one by one.
     */
    method InsertPurchaseRows(candidates: seq<NormalizedEvent>) returns (r: Result<set<Bytes>, StorageError>)
      requires forall c :: c in candidates ==> c.purchase.Some?
      requires forall i :: 0 <= i < |candidates| ==>
                 PrimaryKeyFree(InsertPurchases(purchases, candidates[..i]), candidates[i].eventId)
      modifies `purchases
      ensures r == if PurchasesFit(columns, candidates) then Ok(PurchaseStoredIds(old(purchases), candidates))
                   else Err(ValueRejected)
      ensures purchases ==
                if PurchasesFit(columns, candidates) then InsertPurchases(old(purchases), candidates)
                else old(purchases)
    {
      hide *;
      if !PurchasesFit(columns, candidates) {
        return Err(ValueRejected);
      }
      ghost var table := purchases;
      var returned: set<Bytes> := {};
      var i := 0;
      assert candidates[..0] == [];
      PurchasesNone(table);
      while i < |candidates|
        invariant 0 <= i <= |candidates|
        invariant purchases == InsertPurchases(table, candidates[..i])
        invariant returned == PurchaseStoredIds(table, candidates[..i])
      {
        var c := candidates[i];
        InsertPurchasesMore(table, candidates[..i], c);
        PurchaseIdsMore(table, candidates[..i], c);
        assert candidates[..i + 1] == candidates[..i] + [c];
        var order := c.purchase.value.orderId;
        if order !in purchases {
          KeyFreeMeans(purchases, c.eventId);
          if exists o :: o in purchases && purchases[o].eventId == c.eventId {
            return Err(PrimaryKeyViolation);
          }
          purchases := purchases[order := RowOf(c)];
          returned := returned + {c.eventId};
        }
        i := i + 1;
      }
      assert candidates[..i] == candidates;
      return Ok(returned);
    }

    /**
     * storeBatch: both statements of one transaction. An outage, or a value of either
     * statement that does not fit its column, leaves both tables as they were.
     */
    method StoreBatchRows(events: seq<NormalizedEvent>, available: bool)
      returns (r: Result<StoreBatchResult, StorageError>)
      requires Valid() && DistinctIds(events)
      modifies this
      ensures Valid()
      ensures r.Ok? <==> available && Storable(columns, old(Contents()), events)
      ensures r.Ok? ==>
                var stored := StoredIds(old(gameEvents), events);
                var candidates := Candidates(events, stored);
                && Contents() == StoreBatch(old(Contents()), events)
                && r.value ==
                     StoreBatchResult(stored, PurchaseStoredIds(old(purchases), candidates), |candidates|)
      ensures r.Err? ==>
                Contents() == old(Contents()) && r.error == if available then ValueRejected else Unavailable
    {
      hide *;
      if !available {
        return Err(Unavailable);
      }
      ghost var t := Contents();
      var before := gameEvents;
      ContentsIs();
      ValidIs();
      StorableMeans(columns, t, events);
      StoreKeepsTables(t, events);
      StoreBatchIs(t, events);
      var stored := InsertGameEvents(events);
      if stored.Err? {
        ContentsIs();
        ValidIs();
        return Err(stored.error);
      }
      var candidates := SelectCandidates(events, stored.value);
      forall i | 0 <= i < |candidates|
        ensures PrimaryKeyFree(InsertPurchases(purchases, candidates[..i]), candidates[i].eventId)
      {
        PurchaseKeyFree(t, events, i);
      }
      PurchasesNone(purchases);
      var purchaseStored: set<Bytes> := {};
      if |candidates| > 0 {
        var returned := InsertPurchaseRows(candidates);
        if returned.Err? {
          gameEvents := before;
          ContentsIs();
          ValidIs();
          return Err(returned.error);
        }
        purchaseStored := returned.value;
      }
      ContentsIs();
      ValidIs();
      return Ok(StoreBatchResult(stored.value, purchaseStored, |candidates|));
    }

    lemma ValidIs()
      ensures Valid() <==> TablesOk(Contents())
    {
      hide TablesOk;
    }
  }

  lemma StorableMeans(columns: Columns, t: Tables, events: seq<NormalizedEvent>)
    ensures var candidates := Candidates(events, StoredIds(t.events, events));
            && (Storable(columns, t, events) <==> EventsFit(columns, events) && PurchasesFit(columns, candidates))
            && (candidates == [] ==> PurchasesFit(columns, candidates))
  {
    hide EventsFit, Candidates, StoredIds;
  }

  lemma StoreBatchIs(t: Tables, events: seq<NormalizedEvent>)
    ensures StoreBatch(t, events) ==
              Tables(InsertEvents(t.events, events),
                     InsertPurchases(t.purchases, Candidates(events, StoredIds(t.events, events))))
  {
    hide InsertEvents, InsertPurchases, Candidates, StoredIds;
  }

  lemma InsertNone(table: map<Bytes, NormalizedEvent>)
    ensures InsertEvents(table, []) == table && StoredIds(table, []) == {}
  {
    assert EventIds([]) == {};
  }

  /** One more row of the first statement. */
  lemma InsertOne(table: map<Bytes, NormalizedEvent>, events: seq<NormalizedEvent>, e: NormalizedEvent)
    ensures var before := InsertEvents(table, events);
            && InsertEvents(table, events + [e]) == (if e.eventId in before then before else before[e.eventId := e])
            && StoredIds(table, events + [e]) ==
                 StoredIds(table, events) + (if e.eventId in before then {} else {e.eventId})
  {
    InsertEventsKeys(table, events);
    assert (events + [e])[..|events|] == events;
    assert EventIds(events + [e]) == EventIds(events) + {e.eventId};
  }

  lemma PurchasesNone(table: map<Bytes, PurchaseRow>)
    ensures InsertPurchases(table, []) == table && PurchaseStoredIds(table, []) == {}
  {
  }

  /** One more row of the second statement returns its id when its order is free. */
  lemma PurchaseIdsMore(table: map<Bytes, PurchaseRow>, candidates: seq<NormalizedEvent>, c: NormalizedEvent)
    requires c.purchase.Some? && forall x :: x in candidates ==> x.purchase.Some?
    ensures PurchaseStoredIds(table, candidates + [c]) ==
              PurchaseStoredIds(table, candidates)
              + (if c.purchase.value.orderId in InsertPurchases(table, candidates) then {} else {c.eventId})
  {
    assert (candidates + [c])[..|candidates|] == candidates;
  }

  lemma KeyFreeMeans(purchases: map<Bytes, PurchaseRow>, eventId: Bytes)
    requires PrimaryKeyFree(purchases, eventId)
    ensures !exists o :: o in purchases && purchases[o].eventId == eventId
  {
  }

  /** The newly stored purchase events, in batch order. */
  method SelectCandidates(events: seq<NormalizedEvent>, stored: set<Bytes>) returns (candidates: seq<NormalizedEvent>)
    ensures candidates == Candidates(events, stored)
  {
    candidates := [];
    var i := 0;
    assert events[..0] == [];
    while i < |events|
      invariant 0 <= i <= |events|
      invariant candidates == Candidates(events[..i], stored)
    {
      assert events[..i + 1][..i] == events[..i];
      if events[i].purchase.Some? && events[i].eventId in stored {
        candidates := candidates + [events[i]];
      }
      i := i + 1;
    }
    assert events[..i] == events;
  }

  class IngestionService {
    const repository: IngestionRepository

    constructor (repository: IngestionRepository)
      ensures this.repository == repository
    {
      this.repository := repository;
    }

    /**
     * ingest: splits the batch by verdict, keeps the first event of every id, stores what
     * is left and reports the counts. Any storage failure, an outage or a value that does not
     * fit, answers 503 with both tables untouched.
     */
    method Ingest(batchId: Bytes, raws: seq<RawEvent>, available: bool) returns (r: Result<BatchResponse, StorageError>)
      requires repository.Valid()
      modifies repository
      ensures repository.Valid()
      ensures r.Ok? ==> r.value == IngestResponse(old(repository.Contents()), batchId, raws)
      ensures r.Ok? ==> repository.Contents() == IngestTables(old(repository.Contents()), raws)
      ensures r.Err? ==> r == Err(Unavailable) && repository.Contents() == old(repository.Contents())
      ensures r.Err? <==>
                && Accepted(raws) != []
                && !(available && Storable(repository.columns, old(repository.Contents()),
                                           FirstOfEachId(Accepted(raws))))
    {
      hide *;
      ghost var t := repository.Contents();
      repository.ContentsIs();
      var accepted, rejected := Partition(raws);
      var unique := Deduplicate(accepted);
      FirstOfEachIdDistinct(accepted);
      StoredBound(t, accepted);
      IngestIs(t, batchId, raws);
      EmptyBatchHasNothing(accepted);
      var storedCount, orderDuplicateCount := 0, 0;
      if |unique| > 0 {
        var result := repository.StoreBatchRows(unique, available);
        if result.Err? {
          return Err(Unavailable);
        }
        storedCount := |result.value.storedEventIds|;
        orderDuplicateCount := result.value.purchaseCandidateCount - |result.value.purchaseStoredEventIds|;
      } else {
        NothingStored(t);
      }
      repository.ContentsIs();
      return Ok(BatchResponse(batchId, |raws|, |accepted|, storedCount, |accepted| - storedCount,
                              orderDuplicateCount, |rejected|, rejected));
    }
  }

  /** What ingest stores and answers, in terms of its stages. */
  lemma IngestIs(t: Tables, batchId: Bytes, raws: seq<RawEvent>)
    ensures var unique := FirstOfEachId(Accepted(raws));
            var stored := StoredIds(t.events, unique);
            var candidates := Candidates(unique, stored);
            && IngestTables(t, raws) == StoreBatch(t, unique)
            && |PurchaseStoredIds(t.purchases, candidates)| <= |candidates|
            && |stored| <= |Accepted(raws)|
            && IngestResponse(t, batchId, raws) ==
                 BatchResponse(batchId, |raws|, |Accepted(raws)|, |stored|, |Accepted(raws)| - |stored|,
                               |candidates| - |PurchaseStoredIds(t.purchases, candidates)|,
                               |Rejections(raws)|, Rejections(raws))
  {
    hide Accepted, Rejections, FirstOfEachId, StoredIds, Candidates, PurchaseStoredIds, StoreBatch;
    var unique := FirstOfEachId(Accepted(raws));
    PurchaseStoredBound(t.purchases, Candidates(unique, StoredIds(t.events, unique)));
    StoredBound(t, Accepted(raws));
  }

  /** An empty selection means that nothing was accepted. */
  lemma EmptyBatchHasNothing(accepted: seq<NormalizedEvent>)
    ensures FirstOfEachId(accepted) == [] <==> accepted == []
  {
    if accepted != [] {
      FirstOfEachIdDistinct(accepted);
      assert accepted[0].eventId in EventIds(accepted);
    }
  }

  lemma NothingStored(t: Tables)
    ensures StoreBatch(t, []) == t && StoredIds(t.events, []) == {} && Candidates([], {}) == []
    ensures PurchaseStoredIds(t.purchases, []) == {}
  {
    assert EventIds([]) == {};
  }

  /** The verdict loop of ingest. */
  method Partition(raws: seq<RawEvent>) returns (accepted: seq<NormalizedEvent>, rejected: seq<Rejected>)
    ensures accepted == Accepted(raws) && rejected == Rejections(raws)
  {
    accepted, rejected := [], [];
    var index := 0;
    assert raws[..0] == [];
    while index < |raws|
      invariant 0 <= index <= |raws|
      invariant accepted == Accepted(raws[..index]) && rejected == Rejections(raws[..index])
    {
      assert raws[..index + 1][..index] == raws[..index];
      match ValidateEvent(raws[index]) {
        case Accept(event) =>
          accepted := accepted + [event];
        case Reject(eventId, code, message) =>
          rejected := rejected + [Rejected(index, eventId, code, message)];
      }
      index := index + 1;
    }
    assert raws[..index] == raws;
  }

  lemma NoEvents()
    ensures FirstOfEachId([]) == [] && EventIds([]) == {}
  {
  }

  /** The in-batch deduplication loop of ingest. */
  method Deduplicate(accepted: seq<NormalizedEvent>) returns (unique: seq<NormalizedEvent>)
    ensures unique == FirstOfEachId(accepted)
  {
    hide *;
    var seen: set<Bytes> := {};
    unique := [];
    var i := 0;
    assert accepted[..0] == [];
    NoEvents();
    while i < |accepted|
      invariant 0 <= i <= |accepted|
      invariant unique == FirstOfEachId(accepted[..i])
      invariant seen == EventIds(accepted[..i])
    {
      var event := accepted[i];
      assert accepted[..i + 1] == accepted[..i] + [event];
      FirstOfEachIdMore(accepted[..i], event);
      if event.eventId !in seen {
        unique := unique + [event];
      }
      seen := seen + {event.eventId};
      i := i + 1;
    }
    assert accepted[..i] == accepted;
  }

  /** What the endpoint answers: 403 INSTANCE_MISMATCH, 503 STORAGE_UNAVAILABLE, or 200 with the counts. */
  datatype EndpointAnswer = InstanceMismatch | StorageUnavailable | Counted(response: BatchResponse)

  /** The comparison loop of canActivate: the first foreign instance_id refuses the whole batch. */
  method CompareInstances(mapped: Option<Bytes>, raws: seq<RawEvent>) returns (passes: bool)
    ensures passes <==> PassesGuard(mapped, raws)
  {
    if mapped.None? || mapped.value == [] {
      return true;
    }
    var mappedInstanceId := ToLower(mapped.value);
    var i := 0;
    while i < |raws|
      invariant 0 <= i <= |raws|
      invariant PassesGuard(mapped, raws[..i])
    {
      assert forall j :: 0 <= j < i ==> SameInstance(mapped, raws[..i][j]);
      if raws[i].RawObject? && raws[i].instanceId.Some? && ToLower(raws[i].instanceId.value) != mappedInstanceId {
        return false;
      }
      i := i + 1;
    }
    assert raws[..i] == raws;
    return true;
  }

  /**
   * One request of the endpoint, behind the size limit: the guard, then the service. It is
   * counted exactly when the guard passes and the tables can hold what was accepted.
   */
  method Receive(service: IngestionService, mapped: Option<Bytes>, batchId: Bytes, raws: seq<RawEvent>,
                 available: bool)
    returns (r: EndpointAnswer)
    requires service.repository.Valid()
    modifies service.repository
    ensures service.repository.Valid()
    ensures var before := old(service.repository.Contents());
            var takes := Storable(service.repository.columns, before, FirstOfEachId(Accepted(raws)));
            && (r == InstanceMismatch <==> !PassesGuard(mapped, raws))
            && (r.Counted? <==> PassesGuard(mapped, raws) && (Accepted(raws) == [] || (available && takes)))
            && (r.Counted? ==> r.response == IngestResponse(before, batchId, raws))
            && service.repository.Contents() == if r.Counted? then IngestTables(before, raws) else before
  {
    hide *;
    var passes := CompareInstances(mapped, raws);
    if !passes {
      return InstanceMismatch;
    }
    var result := service.Ingest(batchId, raws, available);
    match result
    case Ok(response) => return Counted(response);
    case Err(_) => return StorageUnavailable;
  }
}
