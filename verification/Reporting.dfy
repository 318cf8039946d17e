/**
 * From the receiver's tables to its reports: the queries read the rows of the two tables in
 * whatever order, so what was recorded decides what they show, however the run went.
 */
module Reporting {
  import opened Admission
  import opened Basics
  import opened Codec
  import opened Engagement
  import opened Ingestion
  import opened Metrics
  import opened Reconciliation
  import opened RecordedTables
  import Recovery
  import opened Relational
  import opened Retention
  import opened Revenue
  import opened System

  // ---------- Rows ----------

  /** The keys of a table, in the order in which a query happens to meet them. */
  ghost predicate Lists(keys: seq<Bytes>, table: set<Bytes>) {
    Distinct(keys) && Elements(keys) == table
  }

  /** The instant an occurred_at text stands for, in milliseconds since 1970-01-01 UTC. */
  type InstantOf = Bytes -> int

  function EventRowOf(e: NormalizedEvent, instant: InstantOf): EventRow {
    EventRow(e.eventType, e.userId, instant(e.occurredAt))
  }

  /** The rows of game_events, as far as the queries read them. */
  function EventRows(events: map<Bytes, NormalizedEvent>, keys: seq<Bytes>, instant: InstantOf): (rows: seq<EventRow>)
    requires forall id :: id in keys ==> id in events
    ensures |rows| == |keys|
    ensures forall i :: 0 <= i < |keys| ==> rows[i] == EventRowOf(events[keys[i]], instant)
  {
    seq(|keys|, i requires 0 <= i < |keys| => EventRowOf(events[keys[i]], instant))
  }

  /** Orders with a row each; amount_minor >= 0 is a constraint of the table. */
  predicate Sellable(purchases: map<Bytes, PurchaseRow>, orders: seq<Bytes>) {
    forall o :: o in orders ==> o in purchases && purchases[o].purchase.amountMinor >= 0
  }

  function SaleRowOf(row: PurchaseRow, instant: InstantOf): SaleRow
    requires row.purchase.amountMinor >= 0
  {
    SaleRow(row.userId, instant(row.occurredAt), row.purchase.amountMinor, row.purchase.currency)
  }

  /** The rows of purchases, as far as the queries read them. */
  function SaleRows(purchases: map<Bytes, PurchaseRow>, keys: seq<Bytes>, instant: InstantOf): (rows: seq<SaleRow>)
    requires Sellable(purchases, keys)
    ensures |rows| == |keys|
    ensures forall i :: 0 <= i < |keys| ==> rows[i] == SaleRowOf(purchases[keys[i]], instant)
  {
    seq(|keys|, i requires 0 <= i < |keys| => SaleRowOf(purchases[keys[i]], instant))
  }

  // ---------- Reports do not depend on the order of rows ----------

  ghost predicate SameEventRows(a: seq<EventRow>, b: seq<EventRow>) {
    forall r :: r in a <==> r in b
  }

  lemma LoginsSame(a: seq<EventRow>, b: seq<EventRow>)
    requires SameEventRows(a, b)
    ensures forall act :: act in Logins(a) <==> act in Logins(b)
  {
    forall act | act in Logins(a) ensures act in Logins(b) {
      LoginIn(a, b, act);
    }
    forall act | act in Logins(b) ensures act in Logins(a) {
      LoginIn(b, a, act);
    }
  }

  lemma LoginIn(a: seq<EventRow>, b: seq<EventRow>, act: Activity)
    requires SameEventRows(a, b) && act in Logins(a)
    ensures act in Logins(b)
  {
    hide Filter;
    FilterMembers(a, OfType(LOGIN));
    FilterMembers(b, OfType(LOGIN));
    var (kept, other) := (Filter(a, OfType(LOGIN)), Filter(b, OfType(LOGIN)));
    var i :| 0 <= i < |kept| && ActivityOf()(kept[i]) == act;
    assert kept[i] in a && kept[i] in other;
    var j :| 0 <= j < |other| && other[j] == kept[i];
    assert Logins(b)[j] == act;
  }

  lemma UsersSame(a: seq<Activity>, b: seq<Activity>, day: int)
    requires forall act :: act in a <==> act in b
    ensures Users(a, day) == Users(b, day) && Cohort(a, day) == Cohort(b, day)
  {
    hide Day;
  }

  lemma UsersWithinSame(a: seq<Activity>, b: seq<Activity>, start: int, end: int)
    requires forall act :: act in a <==> act in b
    ensures UsersWithin(a, start, end) == UsersWithin(b, start, end)
  {
    hide Day;
  }

  lemma ReturnedSame(a: seq<Activity>, b: seq<Activity>, day: int, n: int)
    requires forall act :: act in a <==> act in b
    ensures Returned(a, day, n) == Returned(b, day, n)
  {
    hide Cohort, Users;
    UsersSame(a, b, day);
    UsersSame(a, b, day + n);
  }

  /** DAU, unique users and retention are decided by which rows there are. */
  lemma LoginReportsSame(a: seq<EventRow>, b: seq<EventRow>, start: int, end: int)
    requires SameEventRows(a, b) && start <= end
    ensures DauByDay(a, start, end) == DauByDay(b, start, end)
    ensures UniqueLoginUsers(a, start, end) == UniqueLoginUsers(b, start, end)
    ensures RetentionByCohort(a, start, end) == RetentionByCohort(b, start, end)
  {
    hide *;
    LoginsSame(a, b);
    DaysAre(start, end);
    UniqueLoginUsersIs(a, start, end);
    UniqueLoginUsersIs(b, start, end);
    UsersWithinSame(Logins(a), Logins(b), start, end);
    DauByDayIs(a, start, end, 0);
    DauByDayIs(b, start, end, 0);
    RetentionByCohortIs(a, start, end, 0);
    RetentionByCohortIs(b, start, end, 0);
    forall i | 0 <= i < |Days(start, end)|
      ensures DauByDay(a, start, end)[i] == DauByDay(b, start, end)[i]
      ensures RetentionByCohort(a, start, end)[i] == RetentionByCohort(b, start, end)[i]
    {
      DauByDayIs(a, start, end, i);
      DauByDayIs(b, start, end, i);
      UsersSame(Logins(a), Logins(b), start + i);
      RetentionByCohortIs(a, start, end, i);
      RetentionByCohortIs(b, start, end, i);
      ReturnedSame(Logins(a), Logins(b), start + i, 1);
      ReturnedSame(Logins(a), Logins(b), start + i, 7);
      ReturnedSame(Logins(a), Logins(b), start + i, 30);
    }
  }

  lemma {:induction false} GridCells(days: seq<int>, types: seq<Bytes>)
    ensures forall k :: 0 <= k < |Grid(days, types)| ==>
              Grid(days, types)[k].0 in days && Grid(days, types)[k].1 in types
  {
    if days != [] {
      GridCells(days[1..], types);
    }
  }

  lemma UsersOfTypeSame(a: seq<EventRow>, b: seq<EventRow>, eventType: Bytes, day: int)
    requires SameEventRows(a, b)
    ensures UsersOfType(a, eventType, day) == UsersOfType(b, eventType, day)
  {
    hide Day;
  }

  /** So is engagement. */
  lemma EngagementSame(a: seq<EventRow>, b: seq<EventRow>, types: seq<Bytes>, start: int, end: int,
      collation: (Bytes, Bytes) -> bool)
    requires SameEventRows(a, b) && start <= end && types != [] && TotalOrder(collation)
    ensures EngagementByDayType(a, types, start, end, collation) ==
            EngagementByDayType(b, types, start, end, collation)
  {
    hide *;
    var sorted := SortTypes(types, collation);
    var grid := Grid(Days(start, end), sorted);
    SortTypesIs(types, collation);
    DaysAre(start, end);
    GridCells(Days(start, end), sorted);
    LoginsSame(a, b);
    GridSize(Days(start, end), sorted);
    SameSize(types, sorted);
    EngagementByDayTypeIs(a, types, start, end, collation, 0, 0);
    EngagementByDayTypeIs(b, types, start, end, collation, 0, 0);
    forall k | 0 <= k < |grid|
      ensures EngagementByDayType(a, types, start, end, collation)[k] ==
              EngagementByDayType(b, types, start, end, collation)[k]
    {
      var cell := grid[k];
      TypeMember(sorted, types, cell.1);
      EngagementRow(a, types, start, end, collation, k, cell);
      EngagementRow(b, types, start, end, collation, k, cell);
      UsersOfTypeSame(a, b, cell.1, cell.0);
      UsersSame(Logins(a), Logins(b), cell.0);
    }
  }

  lemma SameSize(a: seq<Bytes>, b: seq<Bytes>)
    requires multiset(a) == multiset(b)
    ensures |a| == |b|
  {
    assert |multiset(a)| == |a| && |multiset(b)| == |b|;
  }

  lemma TypeMember(a: seq<Bytes>, b: seq<Bytes>, t: Bytes)
    requires multiset(a) == multiset(b) && t in a
    ensures t in b
  {
    assert t in multiset(a);
  }

  // ---------- Sums do not depend on the order of rows ----------

  lemma {:induction false} AmountsMiddle(a: seq<SaleRow>, s: SaleRow, b: seq<SaleRow>, keep: SaleRow -> bool)
    ensures SumAmounts(Filter(a + [s] + b, keep)) ==
            SumAmounts(Filter(a + b, keep)) + (if keep(s) then s.amountMinor else 0)
  {
    hide Filter, SumAmounts;
    if a == [] {
      assert a + [s] + b == [s] + b && a + b == b;
      AmountsCons(s, b, keep);
    } else {
      AmountsMiddle(a[1..], s, b, keep);
      AmountsCons(a[0], a[1..] + [s] + b, keep);
      AmountsCons(a[0], a[1..] + b, keep);
      assert a + [s] + b == [a[0]] + (a[1..] + [s] + b);
      assert a + b == [a[0]] + (a[1..] + b);
    }
  }

  function Without(keys: seq<Bytes>, j: nat): seq<Bytes>
    requires j < |keys|
  {
    keys[..j] + keys[j + 1..]
  }

  /** The sum over a listing, one order taken out. */
  lemma AmountsWithout(purchases: map<Bytes, PurchaseRow>, keys: seq<Bytes>, j: nat, instant: InstantOf,
      keep: SaleRow -> bool)
    requires j < |keys| && Sellable(purchases, keys)
    ensures Sellable(purchases, Without(keys, j)) && keys[j] in purchases
    ensures var sale := SaleRowOf(purchases[keys[j]], instant);
            SumAmounts(Filter(SaleRows(purchases, keys, instant), keep)) ==
            SumAmounts(Filter(SaleRows(purchases, Without(keys, j), instant), keep))
            + (if keep(sale) then sale.amountMinor else 0)
  {
    hide *;
    var (left, right) := (keys[..j], keys[j + 1..]);
    assert keys == (left + [keys[j]]) + right;
    WithoutIs(keys, j);
    SaleRowsJoin(purchases, left + [keys[j]], right, instant);
    SaleRowsJoin(purchases, left, [keys[j]], instant);
    SaleRowsJoin(purchases, left, right, instant);
    SaleRowsOne(purchases, keys[j], instant);
    AmountsMiddle(SaleRows(purchases, left, instant), SaleRowOf(purchases[keys[j]], instant),
                  SaleRows(purchases, right, instant), keep);
  }

  lemma WithoutIs(keys: seq<Bytes>, j: nat)
    requires j < |keys|
    ensures Without(keys, j) == keys[..j] + keys[j + 1..]
  {
  }

  lemma SaleRowsOne(purchases: map<Bytes, PurchaseRow>, o: Bytes, instant: InstantOf)
    requires Sellable(purchases, [o])
    ensures o in purchases && purchases[o].purchase.amountMinor >= 0
    ensures SaleRows(purchases, [o], instant) == [SaleRowOf(purchases[o], instant)]
  {
    assert o in [o];
  }

  lemma SaleRowsJoin(purchases: map<Bytes, PurchaseRow>, a: seq<Bytes>, b: seq<Bytes>, instant: InstantOf)
    requires Sellable(purchases, a + b) || (Sellable(purchases, a) && Sellable(purchases, b))
    ensures Sellable(purchases, a) && Sellable(purchases, b) && Sellable(purchases, a + b)
    ensures SaleRows(purchases, a + b, instant) == SaleRows(purchases, a, instant) + SaleRows(purchases, b, instant)
  {
    forall o | o in a || o in b ensures o in a + b {
    }
    hide SaleRowOf;
    var (ra, rb) := (SaleRows(purchases, a, instant), SaleRows(purchases, b, instant));
    var joined := SaleRows(purchases, a + b, instant);
    forall k | 0 <= k < |joined| ensures joined[k] == (ra + rb)[k] {
      assert (a + b)[k] == if k < |a| then a[k] else b[k - |a|];
    }
  }

  /** Two listings of the same orders sum to the same. */
  lemma {:induction false} ListingsSumAlike(purchases: map<Bytes, PurchaseRow>, a: seq<Bytes>, b: seq<Bytes>,
      instant: InstantOf, keep: SaleRow -> bool)
    requires Distinct(a) && Distinct(b) && Elements(a) == Elements(b)
    requires Sellable(purchases, a) && Sellable(purchases, b)
    ensures SumAmounts(Filter(SaleRows(purchases, a, instant), keep)) ==
            SumAmounts(Filter(SaleRows(purchases, b, instant), keep))
    decreases |a|
  {
    hide Filter, SumAmounts, SaleRowOf, Distinct, Elements, Sellable, Without;
    SameListed(a, b);
    if a == [] {
      assert a == b;
    } else {
      assert a[0] in b;
      var j :| 0 <= j < |b| && b[j] == a[0];
      AmountsWithout(purchases, a, 0, instant, keep);
      AmountsWithout(purchases, b, j, instant, keep);
      WithoutOne(a, b, j);
      ListingsSumAlike(purchases, Without(a, 0), Without(b, j), instant, keep);
    }
  }

  lemma SameListed(a: seq<Bytes>, b: seq<Bytes>)
    requires Elements(a) == Elements(b)
    ensures forall o :: o in a <==> o in b
    ensures forall o :: o in a <==> o in Elements(a)
    ensures a == [] <==> b == []
  {
    forall o ensures o in a <==> o in b {
      assert o in Elements(a) <==> o in Elements(b);
    }
    if a != [] {
      assert a[0] in b;
    }
    if b != [] {
      assert b[0] in a;
    }
  }

  lemma WithoutOne(a: seq<Bytes>, b: seq<Bytes>, j: nat)
    requires Distinct(a) && Distinct(b) && Elements(a) == Elements(b)
    requires a != [] && j < |b| && b[j] == a[0]
    ensures Distinct(Without(a, 0)) && Distinct(Without(b, j)) && Elements(Without(a, 0)) == Elements(Without(b, j))
    ensures |Without(a, 0)| < |a|
  {
    hide Elements, Without;
    WithoutMembers(a, 0);
    WithoutMembers(b, j);
    SameListed(a, b);
    ListedSame(Without(a, 0), Without(b, j));
  }

  lemma WithoutMembers(keys: seq<Bytes>, j: nat)
    requires j < |keys| && Distinct(keys)
    ensures Distinct(Without(keys, j)) && |Without(keys, j)| == |keys| - 1
    ensures forall o :: o in Without(keys, j) <==> o in keys && o != keys[j]
  {
    var rest := Without(keys, j);
    forall x, y | 0 <= x < y < |rest| ensures rest[x] != rest[y] {
      assert rest[x] == keys[if x < j then x else x + 1] && rest[y] == keys[if y < j then y else y + 1];
    }
    forall o | o in keys && o != keys[j] ensures o in rest {
      var y :| 0 <= y < |keys| && keys[y] == o;
      assert rest[if y < j then y else y - 1] == o;
    }
    forall o | o in rest ensures o in keys && o != keys[j] {
      var y :| 0 <= y < |rest| && rest[y] == o;
      assert keys[if y < j then y else y + 1] == o;
    }
  }

  lemma ListedSame(a: seq<Bytes>, b: seq<Bytes>)
    requires forall o :: o in a <==> o in b
    ensures Elements(a) == Elements(b)
  {
  }

  // ---------- Two receivers with the same rows ----------

  lemma EventRowsSame(events: map<Bytes, NormalizedEvent>, a: seq<Bytes>, b: seq<Bytes>, instant: InstantOf)
    requires Lists(a, events.Keys) && Lists(b, events.Keys)
    ensures (forall id :: id in a ==> id in events) && (forall id :: id in b ==> id in events)
    ensures SameEventRows(EventRows(events, a, instant), EventRows(events, b, instant))
  {
    hide EventRowOf;
    ListedIn(a, events.Keys);
    ListedIn(b, events.Keys);
    var (ra, rb) := (EventRows(events, a, instant), EventRows(events, b, instant));
    forall r | r in ra ensures r in rb {
      EventRowIn(events, a, b, instant, r);
    }
    forall r | r in rb ensures r in ra {
      EventRowIn(events, b, a, instant, r);
    }
  }

  lemma ListedIn(keys: seq<Bytes>, table: set<Bytes>)
    requires Lists(keys, table)
    ensures forall o :: o in keys <==> o in table
  {
    forall o ensures o in keys <==> o in table {
      assert o in keys <==> o in Elements(keys);
    }
  }

  lemma EventRowIn(events: map<Bytes, NormalizedEvent>, a: seq<Bytes>, b: seq<Bytes>, instant: InstantOf, r: EventRow)
    requires (forall id :: id in a ==> id in events) && (forall id :: id in b <==> id in events)
    requires r in EventRows(events, a, instant)
    ensures r in EventRows(events, b, instant)
  {
    hide EventRowOf;
    var i :| 0 <= i < |a| && EventRows(events, a, instant)[i] == r;
    assert a[i] in events;
    var j :| 0 <= j < |b| && b[j] == a[i];
    assert EventRows(events, b, instant)[j] == r;
  }

  /** Two sale rows that differ at most in their event. */
  predicate SoldAlike(a: PurchaseRow, b: PurchaseRow) {
    && a.userId == b.userId && a.occurredAt == b.occurredAt
    && a.purchase.amountMinor == b.purchase.amountMinor && a.purchase.currency == b.purchase.currency
  }

  /** The order fixes who bought when for how much. */
  ghost predicate OrderFixesSale(events: set<NormalizedEvent>) {
    forall a, b :: a in events && b in events && a.purchase.Some? && b.purchase.Some? ==>
      (a.purchase.value.orderId == b.purchase.value.orderId ==> SoldAlike(RowOf(a), RowOf(b)))
  }

  /** Sound tables over the same events sell the same, when the order fixes the sale. */
  lemma SalesAlike(ta: Tables, tb: Tables, verdicts: set<NormalizedEvent>)
    requires TablesOk(ta) && TablesOk(tb) && ta.events == tb.events
    requires forall id :: id in ta.events ==> ta.events[id] in verdicts
    requires OrderFixesSale(verdicts)
    ensures ta.purchases.Keys == tb.purchases.Keys
    ensures forall o :: o in ta.purchases ==> SoldAlike(ta.purchases[o], tb.purchases[o])
  {
    hide PurchasedOrders, SoldAlike, RowOf;
    OneRowPerOrder(ta);
    OneRowPerOrder(tb);
    forall o | o in ta.purchases ensures o in tb.purchases && SoldAlike(ta.purchases[o], tb.purchases[o]) {
      assert o in tb.purchases.Keys;
      var (ea, eb) := (ta.events[ta.purchases[o].eventId], tb.events[tb.purchases[o].eventId]);
      assert ea in verdicts && eb in verdicts;
    }
  }

  lemma SaleRowsAlike(pa: map<Bytes, PurchaseRow>, pb: map<Bytes, PurchaseRow>, orders: seq<Bytes>, instant: InstantOf)
    requires Sellable(pa, orders)
    requires forall o :: o in orders ==> o in pb && SoldAlike(pa[o], pb[o])
    ensures Sellable(pb, orders) && SaleRows(pa, orders, instant) == SaleRows(pb, orders, instant)
  {
    var (ra, rb) := (SaleRows(pa, orders, instant), SaleRows(pb, orders, instant));
    forall k | 0 <= k < |ra| ensures ra[k] == rb[k] {
      assert orders[k] in orders;
    }
  }

  lemma SaleRowIn(purchases: map<Bytes, PurchaseRow>, a: seq<Bytes>, b: seq<Bytes>, instant: InstantOf, r: SaleRow)
    requires Sellable(purchases, a) && Sellable(purchases, b) && forall o :: o in a <==> o in b
    requires r in SaleRows(purchases, a, instant)
    ensures r in SaleRows(purchases, b, instant)
  {
    hide SaleRowOf, Sellable;
    var i :| 0 <= i < |a| && SaleRows(purchases, a, instant)[i] == r;
    assert a[i] in b;
    var j :| 0 <= j < |b| && b[j] == a[i];
    assert SaleRows(purchases, b, instant)[j] == r;
  }

  /** Sale reports of rows that are the same and sum alike. */
  lemma PaymentsSame(a: seq<SaleRow>, b: seq<SaleRow>)
    requires forall r :: r in a <==> r in b
    ensures forall act :: act in Payments(a) <==> act in Payments(b)
  {
    forall act | act in Payments(a) ensures act in Payments(b) {
      PaymentIn(a, b, act);
    }
    forall act | act in Payments(b) ensures act in Payments(a) {
      PaymentIn(b, a, act);
    }
  }

  lemma PaymentIn(a: seq<SaleRow>, b: seq<SaleRow>, act: Activity)
    requires (forall r :: r in a <==> r in b) && act in Payments(a)
    ensures act in Payments(b)
  {
    var i :| 0 <= i < |Payments(a)| && Payments(a)[i] == act;
    assert a[i] in b;
    var j :| 0 <= j < |b| && b[j] == a[i];
    assert Payments(b)[j] == act;
  }

  /** The same sales, and the same sum of any selection of them. */
  ghost predicate SameSales(a: seq<SaleRow>, b: seq<SaleRow>) {
    (forall r :: r in a <==> r in b) && forall keep: SaleRow -> bool :: SumsAlike(a, b, keep)
  }

  ghost predicate SumsAlike(a: seq<SaleRow>, b: seq<SaleRow>, keep: SaleRow -> bool) {
    SumAmounts(Filter(a, keep)) == SumAmounts(Filter(b, keep))
  }

  lemma SameSalesMeans(a: seq<SaleRow>, b: seq<SaleRow>, keep: SaleRow -> bool)
    requires SameSales(a, b)
    ensures forall r :: r in a <==> r in b
    ensures SumAmounts(Filter(a, keep)) == SumAmounts(Filter(b, keep))
  {
    hide Filter, SumAmounts;
    assert SumsAlike(a, b, keep);
  }

  /** Daily and total revenue and conversion of one currency. */
  ghost predicate SameSaleReports(ra: seq<EventRow>, rb: seq<EventRow>, sa: seq<SaleRow>, sb: seq<SaleRow>,
      start: int, end: int, currency: Bytes)
  {
    && RevenueByDay(ra, sa, start, end, currency) == RevenueByDay(rb, sb, start, end, currency)
    && RevenueTotal(sa, start, end, currency) == RevenueTotal(sb, start, end, currency)
    && ConversionByDay(ra, sa, start, end) == ConversionByDay(rb, sb, start, end)
    && ConversionTotals(ra, sa, start, end) == ConversionTotals(rb, sb, start, end)
  }

  lemma SaleReportsSame(ra: seq<EventRow>, rb: seq<EventRow>, sa: seq<SaleRow>, sb: seq<SaleRow>,
      start: int, end: int, currency: Bytes)
    requires SameEventRows(ra, rb) && start <= end && SameSales(sa, sb)
    ensures SameSaleReports(ra, rb, sa, sb, start, end, currency)
  {
    hide *;
    SameSalesMeans(sa, sb, Sold(currency, start, end));
    LoginsSame(ra, rb);
    PaymentsSame(sa, sb);
    DaysAre(start, end);
    TotalIs(sa, start, end, currency);
    TotalIs(sb, start, end, currency);
    ConversionTotalsIs(ra, sa, start, end);
    ConversionTotalsIs(rb, sb, start, end);
    UsersWithinSame(Logins(ra), Logins(rb), start, end);
    UsersWithinSame(Payments(sa), Payments(sb), start, end);
    RevenueByDayIs(ra, sa, start, end, currency, 0);
    RevenueByDayIs(rb, sb, start, end, currency, 0);
    ConversionByDayIs(ra, sa, start, end, 0);
    ConversionByDayIs(rb, sb, start, end, 0);
    forall i | 0 <= i < |Days(start, end)|
      ensures RevenueByDay(ra, sa, start, end, currency)[i] == RevenueByDay(rb, sb, start, end, currency)[i]
      ensures ConversionByDay(ra, sa, start, end)[i] == ConversionByDay(rb, sb, start, end)[i]
    {
      SameSalesMeans(sa, sb, SoldOn(currency, start + i));
      SaleDaySame(ra, rb, sa, sb, start, end, currency, i);
    }
    SameReportsMeans(ra, rb, sa, sb, start, end, currency);
  }

  lemma SaleDaySame(ra: seq<EventRow>, rb: seq<EventRow>, sa: seq<SaleRow>, sb: seq<SaleRow>,
      start: int, end: int, currency: Bytes, i: nat)
    requires i < |Days(start, end)|
    requires forall act :: act in Logins(ra) <==> act in Logins(rb)
    requires forall act :: act in Payments(sa) <==> act in Payments(sb)
    requires SumAmounts(Filter(sa, SoldOn(currency, start + i))) == SumAmounts(Filter(sb, SoldOn(currency, start + i)))
    ensures |RevenueByDay(ra, sa, start, end, currency)| == |RevenueByDay(rb, sb, start, end, currency)| ==
              |Days(start, end)|
    ensures |ConversionByDay(ra, sa, start, end)| == |ConversionByDay(rb, sb, start, end)| == |Days(start, end)|
    ensures RevenueByDay(ra, sa, start, end, currency)[i] == RevenueByDay(rb, sb, start, end, currency)[i]
    ensures ConversionByDay(ra, sa, start, end)[i] == ConversionByDay(rb, sb, start, end)[i]
  {
    hide *;
    UsersSame(Logins(ra), Logins(rb), start + i);
    UsersSame(Payments(sa), Payments(sb), start + i);
    RevenueByDayIs(ra, sa, start, end, currency, i);
    RevenueByDayIs(rb, sb, start, end, currency, i);
    ConversionByDayIs(ra, sa, start, end, i);
    ConversionByDayIs(rb, sb, start, end, i);
  }

  lemma SameReportsMeans(ra: seq<EventRow>, rb: seq<EventRow>, sa: seq<SaleRow>, sb: seq<SaleRow>,
      start: int, end: int, currency: Bytes)
    ensures SameSaleReports(ra, rb, sa, sb, start, end, currency) <==>
              && RevenueByDay(ra, sa, start, end, currency) == RevenueByDay(rb, sb, start, end, currency)
              && RevenueTotal(sa, start, end, currency) == RevenueTotal(sb, start, end, currency)
              && ConversionByDay(ra, sa, start, end) == ConversionByDay(rb, sb, start, end)
              && ConversionTotals(ra, sa, start, end) == ConversionTotals(rb, sb, start, end)
  {
    hide RevenueByDay, RevenueTotal, ConversionByDay, ConversionTotals;
  }

  lemma TotalIs(sales: seq<SaleRow>, start: int, end: int, currency: Bytes)
    ensures RevenueTotal(sales, start, end, currency) == SumAmounts(Filter(sales, Sold(currency, start, end)))
  {
    hide Filter, SumAmounts, Sold;
  }

  /** The sale rows of two receivers that sell alike. */
  lemma SaleRowsSame(pa: map<Bytes, PurchaseRow>, pb: map<Bytes, PurchaseRow>, a: seq<Bytes>, b: seq<Bytes>,
      instant: InstantOf)
    requires Lists(a, pa.Keys) && Lists(b, pb.Keys) && pa.Keys == pb.Keys && Sellable(pa, a)
    requires forall o :: o in pa ==> SoldAlike(pa[o], pb[o])
    ensures Sellable(pb, b)
    ensures SameSales(SaleRows(pa, a, instant), SaleRows(pb, b, instant))
  {
    hide Filter, SumAmounts, SaleRowOf, Distinct, Elements, SoldAlike;
    ListedIn(a, pa.Keys);
    ListedIn(b, pb.Keys);
    SellableAll(pa, a, b);
    SaleRowsAlike(pa, pb, b, instant);
    var (sa, sb) := (SaleRows(pa, a, instant), SaleRows(pa, b, instant));
    forall r | r in sa ensures r in sb {
      SaleRowIn(pa, a, b, instant, r);
    }
    forall r | r in sb ensures r in sa {
      SaleRowIn(pa, b, a, instant, r);
    }
    forall keep: SaleRow -> bool ensures SumsAlike(sa, sb, keep) {
      ListingsSumAlike(pa, a, b, instant, keep);
    }
  }

  lemma SellableAll(purchases: map<Bytes, PurchaseRow>, a: seq<Bytes>, b: seq<Bytes>)
    requires Sellable(purchases, a) && forall o :: o in b ==> o in a
    ensures Sellable(purchases, b)
  {
  }

  // ---------- Two runs ----------

  ghost predicate SameEventReports(ra: seq<EventRow>, rb: seq<EventRow>, start: int, end: int, types: seq<Bytes>,
      collation: (Bytes, Bytes) -> bool)
  {
    && DauByDay(ra, start, end) == DauByDay(rb, start, end)
    && UniqueLoginUsers(ra, start, end) == UniqueLoginUsers(rb, start, end)
    && RetentionByCohort(ra, start, end) == RetentionByCohort(rb, start, end)
    && EngagementByDayType(ra, types, start, end, collation) == EngagementByDayType(rb, types, start, end, collation)
  }

  lemma SameEventReportsMeans(ra: seq<EventRow>, rb: seq<EventRow>, start: int, end: int, types: seq<Bytes>,
      collation: (Bytes, Bytes) -> bool)
    ensures SameEventReports(ra, rb, start, end, types, collation) <==>
              && DauByDay(ra, start, end) == DauByDay(rb, start, end)
              && UniqueLoginUsers(ra, start, end) == UniqueLoginUsers(rb, start, end)
              && RetentionByCohort(ra, start, end) == RetentionByCohort(rb, start, end)
              && EngagementByDayType(ra, types, start, end, collation) ==
                   EngagementByDayType(rb, types, start, end, collation)
  {
    hide DauByDay, UniqueLoginUsers, RetentionByCohort, EngagementByDayType;
  }

  /** A world in which some honest run has nothing pending. */
  ghost predicate EndsIn(server: Server, w: World) {
    exists run, steps, i: nat :: Drained(server, run, steps, i) && run[i] == w
  }

  lemma EndsMeans(server: Server, w: World) returns (run: seq<World>, steps: seq<Step>, i: nat)
    requires EndsIn(server, w)
    ensures Drained(server, run, steps, i) && i < |run| && run[i] == w
  {
    hide IsHonestRun, IdsFixEvents, Recovery.View;
    run, steps, i :| Drained(server, run, steps, i) && run[i] == w;
  }

  lemma VerdictsSellable(server: Server, recorded: seq<Event>, tables: Tables, orders: seq<Bytes>)
    requires TablesOk(tables) && HoldsVerdicts(server, recorded, tables)
    requires Lists(orders, tables.purchases.Keys)
    ensures Sellable(tables.purchases, orders)
  {
    hide ValidateEvent, TooLarge, SameInstance, FitsEvent;
    ListedIn(orders, tables.purchases.Keys);
    forall o | o in orders ensures tables.purchases[o].purchase.amountMinor >= 0 {
      var id := tables.purchases[o].eventId;
      var e :| e in recorded && Acceptable(server, e) && ToLower(e.eventId) == id;
      assert ValidateEvent(server.parse(e)) == Accept(tables.events[id]);
    }
  }

  /** The event rows two such worlds are read as. */
  lemma EndsAlike(server: Server, a: World, b: World)
    requires ParserFaithful(server.parse) && EndsIn(server, a) && EndsIn(server, b)
    requires Elements(a.recorded) == Elements(b.recorded)
    ensures a.tables.events == b.tables.events && TablesOk(a.tables) && TablesOk(b.tables)
    ensures HoldsVerdicts(server, a.recorded, a.tables) && HoldsVerdicts(server, b.recorded, b.tables)
    ensures forall id :: id in a.tables.events ==> a.tables.events[id] in VerdictsOn(server, a.recorded)
  {
    hide *;
    var runA, stepsA, i := EndsMeans(server, a);
    var runB, stepsB, j := EndsMeans(server, b);
    RecordedDecidesTables(server, runA, stepsA, i, runB, stepsB, j, []);
    RowsOfDrained(server, runA, stepsA, i);
    RowsOfDrained(server, runB, stepsB, j);
    RowsAreVerdicts(server, a.recorded, a.tables);
  }

  /**
   * Two honest runs, however different, that recorded the same events and have nothing
   * pending show the same DAU, unique users, retention and engagement, in whatever order
   * their rows are read.
   */
  lemma RecordedDecidesReports(server: Server, a: World, b: World, keysA: seq<Bytes>, keysB: seq<Bytes>,
      instant: InstantOf, start: int, end: int, types: seq<Bytes>, collation: (Bytes, Bytes) -> bool)
    requires ParserFaithful(server.parse) && EndsIn(server, a) && EndsIn(server, b)
    requires Elements(a.recorded) == Elements(b.recorded)
    requires Lists(keysA, a.tables.events.Keys) && Lists(keysB, b.tables.events.Keys)
    requires start <= end && types != [] && TotalOrder(collation)
    ensures (forall id :: id in keysA ==> id in a.tables.events) && forall id :: id in keysB ==> id in b.tables.events
    ensures var (ra, rb) := (EventRows(a.tables.events, keysA, instant), EventRows(b.tables.events, keysB, instant));
            SameEventReports(ra, rb, start, end, types, collation)
  {
    hide *;
    EndsAlike(server, a, b);
    EventRowsSame(a.tables.events, keysA, keysB, instant);
    var (ra, rb) := (EventRows(a.tables.events, keysA, instant), EventRows(b.tables.events, keysB, instant));
    LoginReportsSame(ra, rb, start, end);
    EngagementSame(ra, rb, types, start, end, collation);
    SameEventReportsMeans(ra, rb, start, end, types, collation);
  }

  /**
   * When an order also fixes who bought when for how much, they show the same revenue of
   * every day and of the period, and the same conversion.
   */
  lemma RecordedDecidesSales(server: Server, a: World, b: World, keysA: seq<Bytes>, keysB: seq<Bytes>,
      ordersA: seq<Bytes>, ordersB: seq<Bytes>, instant: InstantOf, start: int, end: int, currency: Bytes)
    requires ParserFaithful(server.parse) && EndsIn(server, a) && EndsIn(server, b)
    requires Elements(a.recorded) == Elements(b.recorded) && OrderFixesSale(VerdictsOn(server, a.recorded))
    requires Lists(keysA, a.tables.events.Keys) && Lists(keysB, b.tables.events.Keys)
    requires Lists(ordersA, a.tables.purchases.Keys) && Lists(ordersB, b.tables.purchases.Keys)
    requires start <= end
    ensures (forall id :: id in keysA ==> id in a.tables.events) && forall id :: id in keysB ==> id in b.tables.events
    ensures Sellable(a.tables.purchases, ordersA) && Sellable(b.tables.purchases, ordersB)
    ensures var (ra, rb) := (EventRows(a.tables.events, keysA, instant), EventRows(b.tables.events, keysB, instant));
            var (sa, sb) := (SaleRows(a.tables.purchases, ordersA, instant),
                             SaleRows(b.tables.purchases, ordersB, instant));
            SameSaleReports(ra, rb, sa, sb, start, end, currency)
  {
    hide *;
    EndsAlike(server, a, b);
    EventRowsSame(a.tables.events, keysA, keysB, instant);
    VerdictsSellable(server, a.recorded, a.tables, ordersA);
    SalesAlike(a.tables, b.tables, VerdictsOn(server, a.recorded));
    SaleRowsSame(a.tables.purchases, b.tables.purchases, ordersA, ordersB, instant);
    SaleReportsSame(EventRows(a.tables.events, keysA, instant), EventRows(b.tables.events, keysB, instant),
                    SaleRows(a.tables.purchases, ordersA, instant), SaleRows(b.tables.purchases, ordersB, instant),
                    start, end, currency);
  }
}
