/**
 * The batch insert against one event at a time: storing a batch in two statements leaves
 * the tables that taking its events singly, first write wins, would leave.
 */
module FirstWriteWins {
  import opened Basics
  import opened Ingestion

  /** One event alone: a known id changes nothing; a new one is stored, and takes its order if that is free. */
  function TakeOne(t: Tables, e: NormalizedEvent): Tables {
    if e.eventId in t.events then t
    else
      Tables(t.events[e.eventId := e],
             if e.purchase.Some? && e.purchase.value.orderId !in t.purchases
             then t.purchases[e.purchase.value.orderId := RowOf(e)] else t.purchases)
  }

  function TakeAll(t: Tables, events: seq<NormalizedEvent>): Tables {
    if events == [] then t else TakeOne(TakeAll(t, events[..|events| - 1]), events[|events| - 1])
  }

  lemma TakeMore(t: Tables, events: seq<NormalizedEvent>, e: NormalizedEvent)
    ensures TakeAll(t, events + [e]) == TakeOne(TakeAll(t, events), e)
  {
    assert (events + [e])[..|events|] == events;
  }

  lemma {:induction false} TakeJoined(t: Tables, a: seq<NormalizedEvent>, b: seq<NormalizedEvent>)
    ensures TakeAll(t, a + b) == TakeAll(TakeAll(t, a), b)
  {
    if b == [] {
      assert a + b == a;
    } else {
      var last := |b| - 1;
      TakeJoined(t, a, b[..last]);
      assert a + b == (a + b[..last]) + [b[last]];
      TakeMore(t, a + b[..last], b[last]);
    }
  }

  lemma {:induction false} TakeKeys(t: Tables, events: seq<NormalizedEvent>)
    ensures TakeAll(t, events).events.Keys == t.events.Keys + EventIds(events)
  {
    if events != [] {
      var last := |events| - 1;
      TakeKeys(t, events[..last]);
      assert events == events[..last] + [events[last]];
    }
  }

  // ---------- A batch without repeated ids ----------

  lemma InsertMore(t: Tables, events: seq<NormalizedEvent>, e: NormalizedEvent, stored: set<Bytes>)
    ensures InsertEvents(t.events, events + [e]) ==
            var before := InsertEvents(t.events, events);
            if e.eventId in before then before else before[e.eventId := e]
    ensures Candidates(events + [e], stored) ==
            if e.purchase.Some? && e.eventId in stored then Candidates(events, stored) + [e]
            else Candidates(events, stored)
  {
    assert (events + [e])[..|events|] == events;
  }

  /** An id that no event of the batch has plays no part in the selection. */
  lemma {:induction false} CandidatesIgnore(events: seq<NormalizedEvent>, stored: set<Bytes>, other: set<Bytes>)
    requires forall e :: e in events ==> (e.eventId in stored <==> e.eventId in other)
    ensures Candidates(events, stored) == Candidates(events, other)
  {
    if events != [] {
      CandidatesIgnore(events[..|events| - 1], stored, other);
    }
  }

  lemma DistinctInit(events: seq<NormalizedEvent>)
    requires events != [] && DistinctIds(events)
    ensures DistinctIds(events[..|events| - 1])
    ensures events[|events| - 1].eventId !in EventIds(events[..|events| - 1])
  {
  }

  /** The two statements, on events with distinct ids, are the events taken singly. */
  lemma {:induction false} StatementsAreSingly(t: Tables, events: seq<NormalizedEvent>)
    requires DistinctIds(events)
    ensures StoreBatch(t, events) == TakeAll(t, events)
  {
    hide InsertEvents, InsertPurchases, Candidates;
    if events == [] {
      StoreNothing(t);
    } else {
      var (rest, e) := (events[..|events| - 1], events[|events| - 1]);
      assert events == rest + [e];
      DistinctInit(events);
      StatementsAreSingly(t, rest);
      TakeKeys(t, rest);
      var stored := StoredIds(t.events, events);
      assert EventIds(events) == EventIds(rest) + {e.eventId};
      InsertMore(t, rest, e, stored);
      CandidatesIgnore(rest, stored, StoredIds(t.events, rest));
      if e.purchase.Some? {
        InsertPurchasesMore(t.purchases, Candidates(rest, stored), e);
      }
    }
  }

  lemma StoreNothing(t: Tables)
    ensures StoreBatch(t, []) == t
  {
  }

  // ---------- Whole batches, any chunking ----------

  /** Dropping later occurrences of an id changes nothing. */
  lemma {:induction false} RepeatsAreNothing(t: Tables, events: seq<NormalizedEvent>)
    ensures TakeAll(t, FirstOfEachId(events)) == TakeAll(t, events)
  {
    hide FirstOfEachId;
    if events == [] {
      assert FirstOfEachId(events) == [];
    } else {
      var (rest, e) := (events[..|events| - 1], events[|events| - 1]);
      assert events == rest + [e];
      RepeatsAreNothing(t, rest);
      FirstOfEachIdMore(rest, e);
      TakeMore(t, rest, e);
      TakeMore(t, FirstOfEachId(rest), e);
      TakeKeys(t, rest);
    }
  }

  /** A batch stores what its accepted events, taken singly, would store. */
  lemma BatchIsSingly(t: Tables, raws: seq<RawEvent>)
    ensures IngestTables(t, raws) == TakeAll(t, Accepted(raws))
  {
    hide StoreBatch, TakeAll, Accepted, FirstOfEachId;
    FirstOfEachIdDistinct(Accepted(raws));
    StatementsAreSingly(t, FirstOfEachId(Accepted(raws)));
    RepeatsAreNothing(t, Accepted(raws));
  }

  /** The accepted events of a series of batches, in the order of delivery. */
  function History(batches: seq<seq<RawEvent>>): seq<NormalizedEvent> {
    if batches == [] then [] else History(batches[..|batches| - 1]) + Accepted(batches[|batches| - 1])
  }

  /**
   * However a series of events is cut into batches, both tables end as if every accepted
   * event had been taken singly in the order of delivery.
   */
  lemma {:induction false} BatchesAreSingly(t: Tables, batches: seq<seq<RawEvent>>)
    ensures IngestAll(t, batches) == TakeAll(t, History(batches))
  {
    hide IngestTables, Accepted;
    if batches != [] {
      var last := |batches| - 1;
      BatchesAreSingly(t, batches[..last]);
      BatchIsSingly(TakeAll(t, History(batches[..last])), batches[last]);
      TakeJoined(t, History(batches[..last]), Accepted(batches[last]));
    }
  }

  /** Only the order of delivery matters for the tables, never where one batch ends and the next begins. */
  lemma ChunkingIrrelevant(t: Tables, a: seq<seq<RawEvent>>, b: seq<seq<RawEvent>>)
    requires History(a) == History(b)
    ensures IngestAll(t, a) == IngestAll(t, b)
  {
    BatchesAreSingly(t, a);
    BatchesAreSingly(t, b);
  }

  // ---------- Who wins ----------

  /** Event k is the first of its id in the series, and its id was not stored before. */
  predicate IsNew(t: Tables, events: seq<NormalizedEvent>, k: nat)
    requires k < |events|
  {
    events[k].eventId !in t.events && forall j :: 0 <= j < k ==> events[j].eventId != events[k].eventId
  }

  /** Event k is the first new purchase of its order, and the order was free before. */
  predicate WinsOrder(t: Tables, events: seq<NormalizedEvent>, k: nat)
    requires k < |events|
  {
    && IsNew(t, events, k) && events[k].purchase.Some?
    && events[k].purchase.value.orderId !in t.purchases
    && forall j :: 0 <= j < k && IsNew(t, events, j) && events[j].purchase.Some? ==>
         events[j].purchase.value.orderId != events[k].purchase.value.orderId
  }

  lemma IsNewPrefix(t: Tables, events: seq<NormalizedEvent>, k: nat)
    requires k < |events| - 1
    ensures IsNew(t, events[..|events| - 1], k) <==> IsNew(t, events, k)
  {
  }

  /** A row that is there stays as it is. */
  lemma {:induction false} OldRowsStay(t: Tables, events: seq<NormalizedEvent>)
    ensures forall id :: id in t.events ==>
              id in TakeAll(t, events).events && TakeAll(t, events).events[id] == t.events[id]
    ensures forall o :: o in t.purchases ==>
              o in TakeAll(t, events).purchases && TakeAll(t, events).purchases[o] == t.purchases[o]
  {
    if events != [] {
      hide TakeAll;
      var (rest, e) := (events[..|events| - 1], events[|events| - 1]);
      assert events == rest + [e];
      OldRowsStay(t, rest);
      TakeMore(t, rest, e);
    }
  }

  /** First write wins on event_id: the row of a new id is the first event that has it. */
  lemma {:induction false} FirstEventWins(t: Tables, events: seq<NormalizedEvent>, k: nat)
    requires k < |events| && IsNew(t, events, k)
    ensures events[k].eventId in TakeAll(t, events).events
    ensures TakeAll(t, events).events[events[k].eventId] == events[k]
  {
    hide TakeAll;
    var (rest, e) := (events[..|events| - 1], events[|events| - 1]);
    assert events == rest + [e];
    TakeMore(t, rest, e);
    if k < |rest| {
      IsNewPrefix(t, events, k);
      FirstEventWins(t, rest, k);
    } else {
      TakeKeys(t, rest);
      assert events[k].eventId !in EventIds(rest);
    }
  }

  /** An order that got a row had one before, or a new purchase event took it. */
  lemma {:induction false} OrderTakenBy(t: Tables, events: seq<NormalizedEvent>, o: Bytes)
    requires o in TakeAll(t, events).purchases && o !in t.purchases
    ensures exists j :: 0 <= j < |events| && IsNew(t, events, j) && Orders(events[j], o)
  {
    hide TakeAll, IsNew;
    if events == [] {
      TakeNothing(t);
    } else {
      var (rest, last) := (events[..|events| - 1], |events| - 1);
      assert events == rest + [events[last]];
      TakeMore(t, rest, events[last]);
      if o in TakeAll(t, rest).purchases {
        OrderTakenBy(t, rest, o);
        var j :| 0 <= j < |rest| && IsNew(t, rest, j) && Orders(rest[j], o);
        IsNewPrefix(t, events, j);
        assert IsNew(t, events, j) && Orders(events[j], o);
      } else {
        TakeKeys(t, rest);
        LastIsNew(t, events);
        assert IsNew(t, events, last) && Orders(events[last], o);
      }
    }
  }

  predicate Orders(e: NormalizedEvent, o: Bytes) {
    e.purchase.Some? && e.purchase.value.orderId == o
  }

  lemma TakeNothing(t: Tables)
    ensures TakeAll(t, []) == t
  {
  }

  lemma LastIsNew(t: Tables, events: seq<NormalizedEvent>)
    requires events != []
    requires events[|events| - 1].eventId !in t.events.Keys + EventIds(events[..|events| - 1])
    ensures IsNew(t, events, |events| - 1)
  {
    forall j | 0 <= j < |events| - 1 ensures events[j].eventId != events[|events| - 1].eventId {
      assert events[..|events| - 1][j] == events[j];
    }
  }

  /** First write wins on order_id: the row of a free order is the first new purchase event that has it. */
  lemma {:induction false} FirstPurchaseWins(t: Tables, events: seq<NormalizedEvent>, k: nat)
    requires k < |events| && WinsOrder(t, events, k)
    ensures var o := events[k].purchase.value.orderId;
            o in TakeAll(t, events).purchases && TakeAll(t, events).purchases[o] == RowOf(events[k])
  {
    hide TakeAll, IsNew;
    var (rest, e) := (events[..|events| - 1], events[|events| - 1]);
    assert events == rest + [e];
    TakeMore(t, rest, e);
    if k < |rest| {
      WinsPrefix(t, events, k);
      FirstPurchaseWins(t, rest, k);
    } else {
      NewIsAbsent(t, events);
      var o := events[k].purchase.value.orderId;
      if o in TakeAll(t, rest).purchases {
        OrderTakenBy(t, rest, o);
        var j :| 0 <= j < |rest| && IsNew(t, rest, j) && Orders(rest[j], o);
        IsNewPrefix(t, events, j);
        assert false;
      }
    }
  }

  lemma WinsPrefix(t: Tables, events: seq<NormalizedEvent>, k: nat)
    requires k < |events| - 1 && WinsOrder(t, events, k)
    ensures WinsOrder(t, events[..|events| - 1], k)
  {
    hide IsNew;
    var rest := events[..|events| - 1];
    forall j | 0 <= j <= k ensures IsNew(t, rest, j) <==> IsNew(t, events, j) {
      IsNewPrefix(t, events, j);
    }
  }

  lemma NewIsAbsent(t: Tables, events: seq<NormalizedEvent>)
    requires events != [] && IsNew(t, events, |events| - 1)
    ensures events[|events| - 1].eventId !in TakeAll(t, events[..|events| - 1]).events
  {
    hide TakeAll;
    TakeKeys(t, events[..|events| - 1]);
  }
}
