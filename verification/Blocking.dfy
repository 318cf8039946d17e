/**
 * Events that block the queue: the server's checks let them through, or its guard or tables
 * refuse every batch they travel in. When the queue can be drained, and when it never can.
 */
module Blocking {
  import opened Admission
  import opened Basics
  import opened Batching
  import opened Codec
  import opened DaemonModel
  import opened Ingestion
  import opened Progress
  import opened Reconciliation
  import opened Recovery
  import opened System

  // ---------- Continuations ----------

  lemma StepRecords(parse: Parser, w: World, step: Step)
    requires Enabled(w, step)
    ensures w.recorded <= Next(parse, w, step).recorded
  {
    hide View, Truthful, ReactionIn, AnswerOps, IngestTables, IngestResponse;
  }

  lemma {:induction false} PathKeeps(server: Server, w: World, steps: seq<Step>, end: World)
    requires Healthy(server, w) && Path(server, w, steps, end)
    ensures Healthy(server, end) && w.recorded <= end.recorded
    decreases |steps|
  {
    hide Healthy, Enabled, Honest, Next;
    if steps != [] {
      StepHealthy(server, w, steps[0]);
      StepRecords(server.parse, w, steps[0]);
      PathKeeps(server, Next(server.parse, w, steps[0]), steps[1..], end);
    }
  }

  /** In a reachable state nothing from a blocked event on has left the queue. */
  lemma BlockedWaits(server: Server, w: World, k: nat)
    requires Healthy(server, w) && IdsFixEvents(w.recorded)
    requires k < |w.recorded| && Blocked(server, w.recorded[k])
    ensures |w.recorded| - k <= |Waiting(w)| <= |w.recorded|
    ensures Waiting(w) == w.recorded[|w.recorded| - |Waiting(w)|..]
  {
    hide *;
    HealthyParts(server, w);
    DiskSideParts(w);
    WaitingIs(w);
    var (q, e) := (View(w.disk).value, w.recorded[k]);
    SettledHead(w.recorded, q, w.tables);
    if k < |w.recorded| - |q.pending| {
      AccountedMeans(w.tables, q.failed, e);
      ReconciledState(server, w, e);
      OneOfThree(server, e);
    }
  }

  lemma SettledHead(recorded: seq<Event>, q: Queue, tables: Tables)
    requires Ledger(recorded, q, tables)
    ensures |q.pending| <= |recorded| && q.pending == recorded[|recorded| - |q.pending|..]
    ensures forall i :: 0 <= i < |recorded| - |q.pending| ==> Accounted(tables, q.failed, recorded[i])
  {
    hide Accounted;
  }

  lemma AccountedMeans(tables: Tables, failed: seq<Bytes>, e: Event)
    ensures Accounted(tables, failed, e) <==> Stored(tables, e) || e.eventId in failed
  {
    hide Stored;
  }

  /**
   * However an honest run goes on, with restarts, retries and other batches, a blocked event
   * and everything recorded behind it never leave the queue: no reply, no 413, no 400.
   */
  lemma BlockedNeverLeaves(server: Server, run: seq<World>, steps: seq<Step>, i: nat, k: nat,
      more: seq<Step>, end: World)
    requires ParserFaithful(server.parse) && IsHonestRun(server, run, steps) && i < |run|
    requires k < |run[i].recorded| && Blocked(server, run[i].recorded[k])
    requires Path(server, run[i], more, end) && IdsFixEvents(end.recorded)
    ensures run[i].recorded <= end.recorded
    ensures |end.recorded| - k <= |Waiting(end)| <= |end.recorded|
    ensures Waiting(end) == end.recorded[|end.recorded| - |Waiting(end)|..]
  {
    hide *;
    HonestRunHealthy(server, run, steps, i);
    PathKeeps(server, run[i], more, end);
    BlockedWaits(server, end, k);
  }

  // ---------- When the queue can be drained ----------

  /**
   * In every state of every honest run: without blocked events in the queue it can be
   * drained, and when ids name one event each, only then.
   */
  lemma DrainableExactly(server: Server, run: seq<World>, steps: seq<Step>, i: nat)
    requires ParserFaithful(server.parse) && IsHonestRun(server, run, steps) && i < |run|
    ensures NoneBlocked(server, Waiting(run[i])) ==> exists more, end :: Drains(server, run[i], more, end)
    ensures IdsFixEvents(run[i].recorded) ==>
              ((exists more, end :: Drains(server, run[i], more, end)) <==> NoneBlocked(server, Waiting(run[i])))
  {
    hide *;
    if NoneBlocked(server, Waiting(run[i])) {
      var more, end := Drainable(server, run, steps, i);
      assert Drains(server, run[i], more, end);
    }
    if IdsFixEvents(run[i].recorded) && exists more, end :: Drains(server, run[i], more, end) {
      var more, end :| Drains(server, run[i], more, end);
      DrainsMeans(server, run[i], more, end);
      HonestRunHealthy(server, run, steps, i);
      forall n | 0 <= n < |Waiting(run[i])| ensures !Blocked(server, Waiting(run[i])[n]) {
        if Blocked(server, Waiting(run[i])[n]) {
          var k := WaitingRecorded(server, run[i], n);
          BlockedNeverLeaves(server, run, steps, i, k, more, end);
        }
      }
      NoneBlockedMeans(server, Waiting(run[i]));
    }
  }

  lemma WaitingRecorded(server: Server, w: World, n: nat) returns (k: nat)
    requires Healthy(server, w) && n < |Waiting(w)|
    ensures k < |w.recorded| && w.recorded[k] == Waiting(w)[n]
  {
    hide *;
    HealthyParts(server, w);
    DiskSideParts(w);
    WaitingIs(w);
    SettledHead(w.recorded, View(w.disk).value, w.tables);
    k := |w.recorded| - |Waiting(w)| + n;
  }

  lemma NoneBlockedMeans(server: Server, events: seq<Event>)
    ensures NoneBlocked(server, events) <==> forall n :: 0 <= n < |events| ==> !Blocked(server, events[n])
  {
    hide Blocked;
  }

  // ---------- Queues that never drain ----------

  /** An honest run that has recorded one event, from where no continuation drains the queue. */
  ghost predicate StuckRun(server: Server, e: Event, run: seq<World>, steps: seq<Step>) {
    && IsHonestRun(server, run, steps) && |run| == 3 && run[2].recorded == [e]
    && forall more, end :: !Drains(server, run[2], more, end)
  }

  /** Recording one blocked event is enough. */
  lemma StuckForever(server: Server, e: Event) returns (run: seq<World>, steps: seq<Step>)
    requires ParserFaithful(server.parse) && Blocked(server, e)
    ensures StuckRun(server, e, run, steps)
  {
    hide *;
    StartIs();
    StartView();
    OpenHonest(server, START);
    NextOpen(server.parse, START);
    var ready := Next(server.parse, START, Open);
    RecordNext(server.parse, ready, [e]);
    RecordHonest(server, ready, [e]);
    run, steps := [START, ready, Next(server.parse, ready, Record([e]))], [Open, Record([e])];
    assert run[2].recorded == [e];
    RunOfTwo(server, run, steps);
    OneEvent(e);
    forall more, end ensures !Drains(server, run[2], more, end) {
      DrainsMeans(server, run[2], more, end);
      if Drains(server, run[2], more, end) {
        BlockedNeverLeaves(server, run, steps, 2, 0, more, end);
      }
    }
    StuckMeans(server, e, run, steps);
  }

  lemma StuckMeans(server: Server, e: Event, run: seq<World>, steps: seq<Step>)
    requires IsHonestRun(server, run, steps) && |run| == 3 && run[2].recorded == [e]
    requires forall more, end :: !Drains(server, run[2], more, end)
    ensures StuckRun(server, e, run, steps)
  {
    hide IsHonestRun, Drains;
  }

  lemma StartIs()
    ensures START.process.None? && START.recorded == [] && START.disk == Disk.EMPTY_DISK
  {
  }

  lemma OneEvent(e: Event)
    ensures IdsFixEvents([e])
  {
  }

  lemma RecordHonest(server: Server, w: World, events: seq<Event>)
    requires Enabled(w, Record(events))
    ensures Honest(server, w, Record(events))
  {
  }

  lemma RunOfTwo(server: Server, run: seq<World>, steps: seq<Step>)
    requires |run| == 3 && |steps| == 2 && run[0] == START
    requires Enabled(run[0], steps[0]) && Honest(server, run[0], steps[0])
    requires run[1] == Next(server.parse, run[0], steps[0])
    requires Enabled(run[1], steps[1]) && Honest(server, run[1], steps[1])
    requires run[2] == Next(server.parse, run[1], steps[1])
    ensures IsHonestRun(server, run, steps)
  {
    hide Enabled, Honest, Next;
  }

  // ---------- Inputs that block ----------

  const INSTANCE := Ascii("00000000-0000-4000-8000-00000000000a")

  /** A purchase without an error in its envelope or payload. */
  function Sale(id: Bytes, quantity: int): RawEvent {
    var purchase := Purchase(Ascii("order-1"), Ascii("product-1"), Ascii("sword"), quantity, 100, Ascii("KRW"));
    var fields := NormalizedEvent(id, INSTANCE, SHOP_PURCHASE, 1, 1, Ascii("s"), Ascii("c"), Ascii("{}"),
                                  Ascii("2026-01-01T00:00:00.000Z"), None);
    RawObject(Some(INSTANCE), true, Some(id), true, fields, [], purchase, [])
  }

  function Seller(quantity: int): Parser {
    (e: Event) => Sale(e.eventId, quantity)
  }

  /** Columns that take every text, document and instant. */
  const LENIENT := Columns(row => true, row => true)

  lemma SaleVerdict(id: Bytes, quantity: int)
    ensures ValidateEvent(Sale(id, quantity)).Accept?
    ensures var n := ValidateEvent(Sale(id, quantity)).event;
            n.userId == 1 && n.characterId == 1 && n.purchase.Some? && n.purchase.value.quantity == quantity
            && n.purchase.value.amountMinor == 100
  {
    hide Ascii, ToLower;
  }

  /** A quantity the payload check accepts blocks the queue exactly when it exceeds the INTEGER column. */
  lemma QuantityBlocks(e: Event, quantity: int)
    requires quantity >= 1 && !TooLarge([e])
    ensures Blocked(Server(Seller(quantity), None, LENIENT), e) <==> quantity > MAX_INTEGER
  {
    hide ValidateEvent, Sale, TooLarge;
    SaleVerdict(e.eventId, quantity);
  }

  /** An event of a sender blocks the queue exactly when its key belongs to another instance. */
  lemma InstanceBlocks(e: Event, mapped: Bytes)
    requires !TooLarge([e])
    ensures Blocked(Server(Seller(1), Some(mapped), LENIENT), e) <==>
              mapped != [] && ToLower(mapped) != ToLower(INSTANCE)
  {
    hide ValidateEvent, TooLarge, ToLower, Ascii;
    SaleVerdict(e.eventId, 1);
    SaleInstance(e.eventId, 1);
  }

  lemma SaleInstance(id: Bytes, quantity: int)
    ensures Sale(id, quantity).RawObject? && Sale(id, quantity).instanceId == Some(INSTANCE)
  {
    hide Ascii;
  }

  lemma {:induction false} EscapeBound(s: Bytes)
    ensures |Escape(s)| <= 6 * |s|
  {
    if s != [] {
      EscapeBound(s[1..]);
    }
  }

  lemma ShortFits(e: Event)
    requires |e.eventId| <= 36 && |e.body| <= 1000
    ensures !TooLarge([e])
  {
    hide Escape;
    EscapeBound(e.eventId);
    EscapeBound(e.body);
    assert [e][..0] == [];
    assert BatchBodyByteLength([e]) == BatchBodyByteLength([]) + |Encode(e)|;
  }

  const SOLD := Event(Ascii("00000000-0000-4000-8000-000000000001"), [])

  /**
   * Two concrete queues that never drain: one sale of 2147483648 pieces, which the checks
   * accept and the tables cannot hold, and one sale recorded under another instance than the
   * key's.
   */
  lemma NotAlwaysDrainable()
    ensures exists run, steps :: StuckRun(Server(Seller(0x8000_0000), None, LENIENT), SOLD, run, steps)
    ensures exists run, steps :: StuckRun(Server(Seller(1), Some([0x62]), LENIENT), SOLD, run, steps)
  {
    hide *;
    ShortSold();
    ShortFits(SOLD);
    QuantityBlocks(SOLD, 0x8000_0000);
    InstanceBlocks(SOLD, [0x62]);
    SellerFaithful(0x8000_0000);
    SellerFaithful(1);
    var run, steps := StuckForever(Server(Seller(0x8000_0000), None, LENIENT), SOLD);
    run, steps := StuckForever(Server(Seller(1), Some([0x62]), LENIENT), SOLD);
  }

  lemma ShortSold()
    ensures |SOLD.eventId| <= 36 && |SOLD.body| <= 1000
    ensures |ToLower([0x62])| != |ToLower(INSTANCE)| && 0x8000_0000 > MAX_INTEGER
  {
  }

  lemma SellerFaithful(quantity: int)
    ensures ParserFaithful(Seller(quantity))
  {
  }
}
