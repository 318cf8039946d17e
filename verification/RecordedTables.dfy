/**
 * Runs against the modelled server, seen from the tables: what was recorded decides every
 * row, and with it the revenue, however the run went.
 */
module RecordedTables {
  import opened Basics
  import opened Codec
  import opened Ingestion
  import opened Reconciliation
  import opened Recovery
  import opened System

  /** The row of a stored event is exactly the server's verdict on it. */
  lemma RowIsVerdict(parse: Parser, run: seq<World>, steps: seq<Step>, i: nat, e: Event)
    requires ParserFaithful(parse) && IsRun(parse, run, steps) && i < |run|
    requires IdsFixEvents(run[i].recorded) && e in run[i].recorded && Stored(run[i].tables, e)
    ensures ToLower(e.eventId) in run[i].tables.events
    ensures ValidateEvent(parse(e)) == Accept(run[i].tables.events[ToLower(e.eventId)])
  {
    hide View, IsRun, ValidateEvent, TablesOk;
    NothingInvented(parse, run, steps, i);
    var w := run[i];
    var other :| other in w.recorded && ToLower(other.eventId) == ToLower(e.eventId) &&
                 ValidateEvent(parse(other)) == Accept(w.tables.events[ToLower(e.eventId)]);
    assert other == e;
  }

  // ---------- What is recorded decides the tables ----------

  /** A state of an honest run in which nothing is pending. */
  ghost predicate Drained(server: Server, run: seq<World>, steps: seq<Step>, i: nat) {
    && IsHonestRun(server, run, steps) && i < |run|
    && IdsFixEvents(run[i].recorded)
    && View(run[i].disk).Ok? && View(run[i].disk).value.pending == []
  }

  lemma DrainedParts(server: Server, run: seq<World>, steps: seq<Step>, i: nat)
    requires Drained(server, run, steps, i)
    ensures IsHonestRun(server, run, steps) && IsRun(server.parse, run, steps)
    ensures i < |run| && IdsFixEvents(run[i].recorded)
    ensures View(run[i].disk).Ok? && View(run[i].disk).value.pending == []
  {
    hide IsRun, IdsFixEvents, View, Honest, Enabled;
  }

  /** The tables hold the verdicts on the acceptable ones among some events, and no other rows. */
  ghost predicate HoldsVerdicts(server: Server, recorded: seq<Event>, tables: Tables) {
    && (forall e :: e in recorded && Acceptable(server, e) ==>
          && ToLower(e.eventId) in tables.events
          && ValidateEvent(server.parse(e)) == Accept(tables.events[ToLower(e.eventId)]))
    && (forall id :: id in tables.events ==>
          exists e :: e in recorded && Acceptable(server, e) && ToLower(e.eventId) == id)
  }

  /** Once nothing is pending, the row of every acceptable recorded event is its verdict, and there is no other row. */
  lemma RowsOfDrained(server: Server, run: seq<World>, steps: seq<Step>, i: nat)
    requires ParserFaithful(server.parse) && Drained(server, run, steps, i)
    ensures TablesOk(run[i].tables)
    ensures HoldsVerdicts(server, run[i].recorded, run[i].tables)
  {
    hide *;
    DrainedParts(server, run, steps, i);
    NothingInvented(server.parse, run, steps, i);
    var w := run[i];
    forall e | e in w.recorded && Acceptable(server, e)
      ensures ToLower(e.eventId) in w.tables.events
      ensures ValidateEvent(server.parse(e)) == Accept(w.tables.events[ToLower(e.eventId)])
    {
      Reconciled(server, run, steps, i, e);
      RowIsVerdict(server.parse, run, steps, i, e);
    }
    forall id | id in w.tables.events
      ensures exists e :: e in w.recorded && Acceptable(server, e) && ToLower(e.eventId) == id
    {
      var e :| e in w.recorded && ToLower(e.eventId) == id &&
               ValidateEvent(server.parse(e)) == Accept(w.tables.events[id]);
      StoredMeans(w.tables, e);
      Reconciled(server, run, steps, i, e);
    }
    VerdictsHeld(server, w.recorded, w.tables);
  }

  lemma VerdictsHeld(server: Server, recorded: seq<Event>, tables: Tables)
    requires forall e :: e in recorded && Acceptable(server, e) ==>
               && ToLower(e.eventId) in tables.events
               && ValidateEvent(server.parse(e)) == Accept(tables.events[ToLower(e.eventId)])
    requires forall id :: id in tables.events ==>
               exists e :: e in recorded && Acceptable(server, e) && ToLower(e.eventId) == id
    ensures HoldsVerdicts(server, recorded, tables)
  {
    hide Acceptable, ValidateEvent;
  }

  /** The rows the acceptable ones among some events stand for. */
  ghost function VerdictsOn(server: Server, recorded: seq<Event>): set<NormalizedEvent> {
    set e | e in recorded && Acceptable(server, e) && ValidateEvent(server.parse(e)).Accept? ::
      ValidateEvent(server.parse(e)).event
  }

  /**
   * However two runs went, if they recorded the same events and nothing is pending, they end
   * with the same event table; when the order also fixes the amount, with the same revenue.
   */
  lemma RecordedDecidesTables(server: Server, a: seq<World>, stepsA: seq<Step>, i: nat,
      b: seq<World>, stepsB: seq<Step>, j: nat, currency: Bytes)
    requires ParserFaithful(server.parse) && Drained(server, a, stepsA, i) && Drained(server, b, stepsB, j)
    requires Elements(a[i].recorded) == Elements(b[j].recorded)
    ensures a[i].tables.events == b[j].tables.events
    ensures OrderFixesAmount(VerdictsOn(server, a[i].recorded)) ==>
              Revenue(a[i].tables, currency) == Revenue(b[j].tables, currency)
  {
    hide *;
    DrainedParts(server, a, stepsA, i);
    DrainedParts(server, b, stepsB, j);
    RowsOfDrained(server, a, stepsA, i);
    RowsOfDrained(server, b, stepsB, j);
    SameMembers(a[i].recorded, b[j].recorded);
    SameRows(server, a[i].recorded, a[i].tables, b[j].recorded, b[j].tables);
    RowsAreVerdicts(server, a[i].recorded, a[i].tables);
    if OrderFixesAmount(VerdictsOn(server, a[i].recorded)) {
      SameAmounts(a[i].tables, b[j].tables, VerdictsOn(server, a[i].recorded), currency);
      SameRevenue(a[i].tables, b[j].tables, currency);
    }
  }

  lemma SameMembers(a: seq<Event>, b: seq<Event>)
    requires Elements(a) == Elements(b)
    ensures forall e :: e in a <==> e in b
  {
    forall e ensures e in a <==> e in b {
      assert e in a <==> e in Elements(a);
      assert e in b <==> e in Elements(b);
    }
  }

  lemma SameRows(server: Server, a: seq<Event>, ta: Tables, b: seq<Event>, tb: Tables)
    requires HoldsVerdicts(server, a, ta) && HoldsVerdicts(server, b, tb)
    requires forall e :: e in a <==> e in b
    ensures ta.events == tb.events
  {
    hide Acceptable, ValidateEvent;
    forall id ensures id in ta.events <==> id in tb.events {
    }
    forall id | id in ta.events ensures ta.events[id] == tb.events[id] {
      var e :| e in a && Acceptable(server, e) && ToLower(e.eventId) == id;
      assert Accept(ta.events[id]) == Accept(tb.events[id]);
    }
  }

  lemma RowsAreVerdicts(server: Server, recorded: seq<Event>, tables: Tables)
    requires HoldsVerdicts(server, recorded, tables)
    ensures forall id :: id in tables.events ==> tables.events[id] in VerdictsOn(server, recorded)
  {
    hide Acceptable, ValidateEvent;
    forall id | id in tables.events ensures tables.events[id] in VerdictsOn(server, recorded) {
      var e :| e in recorded && Acceptable(server, e) && ToLower(e.eventId) == id;
      assert ValidateEvent(server.parse(e)) == Accept(tables.events[id]);
    }
  }

  lemma SameRevenue(ta: Tables, tb: Tables, currency: Bytes)
    requires Amounts(ta, currency) == Amounts(tb, currency)
    ensures Revenue(ta, currency) == Revenue(tb, currency)
  {
    hide Amounts, SumValues;
  }
}
