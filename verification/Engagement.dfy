/** The engagement grid, day by event type, and the pages all metrics are served in. */
module Engagement {
  import opened Basics
  import opened Relational
  import opened Metrics

  datatype TypedDay = TypedDay(day: int, eventType: Bytes, user: int)

  function TypedWithin(types: seq<Bytes>, start: int, end: int): EventRow -> bool {
    (e: EventRow) => e.eventType in types && InRange(e.occurredAt, start, end)
  }

  function TypedDayOf(): EventRow -> TypedDay { (e: EventRow) => TypedDay(Day(e.occurredAt), e.eventType, e.userId) }

  /** SELECT DISTINCT day, event_type, user_id. */
  function Engaged(events: seq<EventRow>, types: seq<Bytes>, start: int, end: int): seq<TypedDay> {
    Unique(Map(Filter(events, TypedWithin(types, start, end)), TypedDayOf()))
  }

  function SameDayAndUser(): (TypedDay, UserDay) -> bool {
    (e: TypedDay, a: UserDay) => a.day == e.day && a.user == e.user
  }

  type Cell = (int, Bytes)

  function CellOf(): ((TypedDay, Option<UserDay>)) -> Cell {
    (r: (TypedDay, Option<UserDay>)) => (r.0.day, r.0.eventType)
  }

  function RowCount<T>(): seq<T> -> nat { (rows: seq<T>) => |rows| }

  function UserDayDay(): UserDay -> int { (r: UserDay) => r.day }

  /** days CROSS JOIN types. */
  function Grid(days: seq<int>, types: seq<Bytes>): seq<Cell> {
    if days == [] then [] else Map(types, t => (days[0], t)) + Grid(days[1..], types)
  }

  /** engaged JOIN daily_active on day and user. */
  function EngagedActive(events: seq<EventRow>, types: seq<Bytes>, start: int, end: int)
    : seq<(TypedDay, Option<UserDay>)>
  {
    InnerJoin(Engaged(events, types, start, end), ActiveDays(Logins(events), start, end), SameDayAndUser())
  }

  /** counts. */
  function EngagedGroups(events: seq<EventRow>, types: seq<Bytes>, start: int, end: int): seq<(Cell, nat)> {
    GroupBy(EngagedActive(events, types, start, end), CellOf(), RowCount())
  }

  /** daily_dau. */
  function DauGroups(events: seq<EventRow>, start: int, end: int): seq<(int, nat)> {
    GroupBy(ActiveDays(Logins(events), start, end), UserDayDay(), RowCount())
  }

  function DayOfCell(): Cell -> int { (cell: Cell) => cell.0 }

  /** Inserts a type into a list in collation order, before the first type it does not follow. */
  function InsertType(types: seq<Bytes>, t: Bytes, collation: (Bytes, Bytes) -> bool): (sorted: seq<Bytes>)
    ensures |sorted| == |types| + 1
  {
    if types == [] then [t]
    else if collation(t, types[0]) then [t] + types
    else [types[0]] + InsertType(types[1..], t, collation)
  }

  /** ORDER BY event_type under the database's collation, which may be any total order. */
  function SortTypes(types: seq<Bytes>, collation: (Bytes, Bytes) -> bool): (sorted: seq<Bytes>)
    ensures |sorted| == |types|
  {
    if types == [] then [] else InsertType(SortTypes(types[1..], collation), types[0], collation)
  }

  ghost predicate Ascending(types: seq<Bytes>, collation: (Bytes, Bytes) -> bool) {
    forall i, j :: 0 <= i < j < |types| ==> collation(types[i], types[j])
  }

  ghost predicate TotalOrder(collation: (Bytes, Bytes) -> bool) {
    && (forall a, b :: collation(a, b) || collation(b, a))
    && (forall a, b, c :: collation(a, b) && collation(b, c) ==> collation(a, c))
  }

  lemma AscendingCons(x: Bytes, rest: seq<Bytes>, collation: (Bytes, Bytes) -> bool)
    ensures Ascending([x] + rest, collation) <==>
              Ascending(rest, collation) && forall y :: y in rest ==> collation(x, y)
  {
    var all := [x] + rest;
    assert forall i :: 0 <= i < |rest| ==> rest[i] == all[i + 1];
    if Ascending(all, collation) {
      forall y | y in rest ensures collation(x, y) {
        var j :| 0 <= j < |rest| && rest[j] == y;
        assert all[0] == x && all[j + 1] == y;
      }
    }
  }

  lemma InsertCons(x: Bytes, rest: seq<Bytes>, t: Bytes, collation: (Bytes, Bytes) -> bool)
    ensures InsertType([x] + rest, t, collation) ==
            if collation(t, x) then [t] + ([x] + rest) else [x] + InsertType(rest, t, collation)
    ensures InsertType([], t, collation) == [t]
  {
    assert ([x] + rest)[1..] == rest;
  }

  lemma Collates(collation: (Bytes, Bytes) -> bool, a: Bytes, b: Bytes)
    requires TotalOrder(collation)
    ensures collation(a, b) || collation(b, a)
    ensures collation(a, b) ==> forall c :: collation(b, c) ==> collation(a, c)
  {
  }

  lemma {:induction false} InsertTypeIs(types: seq<Bytes>, t: Bytes, collation: (Bytes, Bytes) -> bool)
    requires TotalOrder(collation) && Ascending(types, collation)
    ensures Ascending(InsertType(types, t, collation), collation)
    ensures multiset(InsertType(types, t, collation)) == multiset(types) + multiset{t}
    ensures forall y :: y in InsertType(types, t, collation) <==> y in types || y == t
  {
    hide *;
    if types == [] {
      InsertCons(t, [], t, collation);
      NoTypes(collation);
      AscendingCons(t, [], collation);
      assert [t] + [] == [t];
    } else {
      var (x, rest) := (types[0], types[1..]);
      assert types == [x] + rest;
      AscendingCons(x, rest, collation);
      InsertCons(x, rest, t, collation);
      Collates(collation, t, x);
      if collation(t, x) {
        AscendingCons(t, types, collation);
      } else {
        InsertTypeIs(rest, t, collation);
        AscendingCons(x, InsertType(rest, t, collation), collation);
      }
    }
  }

  /** The types of the result are the requested ones, each as often as requested, in collation order. */
  lemma {:induction false} SortTypesIs(types: seq<Bytes>, collation: (Bytes, Bytes) -> bool)
    requires TotalOrder(collation)
    ensures Ascending(SortTypes(types, collation), collation)
    ensures multiset(SortTypes(types, collation)) == multiset(types)
  {
    hide TotalOrder, InsertType, Ascending;
    if types == [] {
      NoTypes(collation);
    } else {
      SortTypesIs(types[1..], collation);
      InsertTypeIs(SortTypes(types[1..], collation), types[0], collation);
      assert types == [types[0]] + types[1..];
    }
  }

  lemma NoTypes(collation: (Bytes, Bytes) -> bool)
    ensures Ascending([], collation)
  {
  }

  /** days CROSS JOIN types LEFT JOIN counts LEFT JOIN daily_dau, by day and type: engaged users and DAU of a cell. */
  function EngagementByDayType(
      events: seq<EventRow>, types: seq<Bytes>, start: int, end: int, collation: (Bytes, Bytes) -> bool)
    : seq<(Cell, (nat, nat))>
  {
    ZeroFillBoth(Grid(Days(start, end), SortTypes(types, collation)), EngagedGroups(events, types, start, end), 0,
                 DayOfCell(), DauGroups(events, start, end), 0)
  }

  /** The users who did something of a type on a day. */
  ghost function UsersOfType(events: seq<EventRow>, eventType: Bytes, day: int): set<int> {
    set e | e in events && e.eventType == eventType && Day(e.occurredAt) == day :: e.userId
  }

  /** The position of the cell of day i and type j in a grid written day by day. */
  function CellIndex(days: nat, types: nat, i: nat, j: nat): (k: nat)
    requires i < days && j < types
    ensures k < days * types
  {
    CellIndexFits(days, types, i, j);
    i * types + j
  }

  lemma CellIndexFits(days: nat, types: nat, i: nat, j: nat)
    requires i < days && j < types
    ensures 0 <= i * types + j < days * types
  {
    assert (i + 1) * types <= days * types;
  }

  lemma {:induction false} GridSize(days: seq<int>, types: seq<Bytes>)
    ensures |Grid(days, types)| == |days| * |types|
  {
    if days != [] {
      GridSize(days[1..], types);
      assert |days| * |types| == (|days| - 1) * |types| + |types|;
    }
  }

  lemma {:induction false} GridIs(days: seq<int>, types: seq<Bytes>, i: nat, j: nat)
    requires i < |days| && j < |types|
    ensures |Grid(days, types)| == |days| * |types|
    ensures Grid(days, types)[CellIndex(|days|, |types|, i, j)] == (days[i], types[j])
  {
    GridSize(days, types);
    if i == 0 {
      FirstRow(days, types, j);
    } else {
      GridIs(days[1..], types, i - 1, j);
      LaterRow(days, types, CellIndex(|days| - 1, |types|, i - 1, j));
      NextDay(|days|, |types|, i, j);
    }
  }

  lemma FirstRow(days: seq<int>, types: seq<Bytes>, j: nat)
    requires days != [] && j < |types|
    ensures |Grid(days, types)| == |days| * |types|
    ensures Grid(days, types)[CellIndex(|days|, |types|, 0, j)] == (days[0], types[j])
  {
    GridSize(days, types);
    assert CellIndex(|days|, |types|, 0, j) == j;
  }

  lemma LaterRow(days: seq<int>, types: seq<Bytes>, k: nat)
    requires days != [] && k < |Grid(days[1..], types)|
    ensures |types| + k < |Grid(days, types)| && Grid(days, types)[|types| + k] == Grid(days[1..], types)[k]
  {
  }

  lemma NextDay(days: nat, types: nat, i: nat, j: nat)
    requires 0 < i < days && j < types
    ensures CellIndex(days, types, i, j) == types + CellIndex(days - 1, types, i - 1, j)
  {
    assert i * types == (i - 1) * types + types;
  }

  lemma EngagedIs(events: seq<EventRow>, types: seq<Bytes>, start: int, end: int)
    ensures Distinct(Engaged(events, types, start, end))
    ensures forall r :: r in Engaged(events, types, start, end) <==>
              r.eventType in types && start <= r.day <= end && r.user in UsersOfType(events, r.eventType, r.day)
  {
    hide Filter, Map, Unique, Day, InRange, Distinct;
    var kept := Filter(events, TypedWithin(types, start, end));
    FilterMembers(events, TypedWithin(types, start, end));
    MapMembers(kept, TypedDayOf());
    UniqueIs(Map(kept, TypedDayOf()));
    forall e: EventRow ensures InRange(e.occurredAt, start, end) <==> start <= Day(e.occurredAt) <= end {
      InRangeIsDays(e.occurredAt, start, end);
    }
    forall r: TypedDay
      | r.eventType in types && start <= r.day <= end && r.user in UsersOfType(events, r.eventType, r.day)
      ensures r in Engaged(events, types, start, end)
    {
      var e :| e in events && e.eventType == r.eventType && Day(e.occurredAt) == r.day && e.userId == r.user;
      assert e in kept && TypedDayOf()(e) == r;
    }
  }

  function InCell(cell: Cell): ((TypedDay, Option<UserDay>)) -> bool {
    (r: (TypedDay, Option<UserDay>)) => r.0.day == cell.0 && r.0.eventType == cell.1
  }

  function TypedIn(cell: Cell, active: seq<UserDay>): TypedDay -> bool {
    (e: TypedDay) => e.day == cell.0 && e.eventType == cell.1 && UserDay(e.day, e.user) in active
  }

  function TypedUser(): TypedDay -> int { (e: TypedDay) => e.user }

  lemma JoinActive(engaged: seq<TypedDay>, active: seq<UserDay>)
    requires Distinct(active)
    ensures var joined := LeftJoin(engaged, active, SameDayAndUser());
            |joined| == |engaged| && forall i :: 0 <= i < |engaged| ==>
              joined[i].0 == engaged[i] && (joined[i].1.Some? <==> UserDay(engaged[i].day, engaged[i].user) in active)
  {
    hide LeftJoin, Distinct;
    forall e: TypedDay, a: UserDay | SameDayAndUser()(e, a) ensures a == UserDay(e.day, e.user) {
      assert a == UserDay(a.day, a.user);
    }
    LeftJoinKeepsRows(engaged, active, SameDayAndUser());
    forall i | 0 <= i < |engaged|
      ensures LeftJoin(engaged, active, SameDayAndUser())[i].1.Some? <==>
                UserDay(engaged[i].day, engaged[i].user) in active
    {
      assert JoinedWith(LeftJoin(engaged, active, SameDayAndUser())[i], engaged[i], active, SameDayAndUser());
      assert SameDayAndUser()(engaged[i], UserDay(engaged[i].day, engaged[i].user));
    }
  }

  /** The rows of a cell of the inner join are its users who were active that day. */
  lemma CellCount(engaged: seq<TypedDay>, active: seq<UserDay>, cell: Cell, expected: set<int>)
    requires Distinct(engaged) && Distinct(active)
    requires forall user :: user in expected <==>
               TypedDay(cell.0, cell.1, user) in engaged && UserDay(cell.0, user) in active
    ensures |Filter(InnerJoin(engaged, active, SameDayAndUser()), InCell(cell))| == |expected|
  {
    hide Filter, LeftJoin, Distinct;
    var joined := LeftJoin(engaged, active, SameDayAndUser());
    JoinActive(engaged, active);
    var both := (r: (TypedDay, Option<UserDay>)) => r.1.Some? && InCell(cell)(r);
    FilterTwice(joined, NonNull<TypedDay, UserDay>(), InCell(cell), both);
    FilterAlong(joined, both, engaged, TypedIn(cell, active));
    CellUsers(engaged, active, cell, expected);
  }

  lemma CellUsers(engaged: seq<TypedDay>, active: seq<UserDay>, cell: Cell, expected: set<int>)
    requires Distinct(engaged)
    requires forall user :: user in expected <==>
               TypedDay(cell.0, cell.1, user) in engaged && UserDay(cell.0, user) in active
    ensures |Filter(engaged, TypedIn(cell, active))| == |expected|
  {
    hide Filter, Distinct;
    var kept := Filter(engaged, TypedIn(cell, active));
    var all := (e: TypedDay) => true;
    FilterMembers(engaged, TypedIn(cell, active));
    FilterDistinct(engaged, TypedIn(cell, active));
    KeptUsersDiffer(kept, cell);
    CountKeys(kept, TypedUser(), all);
    FilterAll(kept, all);
    var counted := KeysOf(kept, TypedUser(), all);
    forall u | u in expected ensures u in counted {
      assert TypedDay(cell.0, cell.1, u) in kept;
    }
    forall u | u in counted ensures u in expected {
      var e :| e in kept && e.user == u;
      assert e == TypedDay(cell.0, cell.1, u);
    }
    assert counted == expected;
  }

  lemma KeptUsersDiffer(kept: seq<TypedDay>, cell: Cell)
    requires Distinct(kept) && forall e :: e in kept ==> e.day == cell.0 && e.eventType == cell.1
    ensures KeysDiffer(kept, TypedUser())
  {
    forall i, j | 0 <= i < j < |kept| ensures TypedUser()(kept[i]) != TypedUser()(kept[j]) {
      assert kept[i] in kept && kept[j] in kept;
    }
  }

  /**
   * One row per day and requested type, by day and then by type: those who did the type and
   * logged in that day, beside that day's DAU, which they never exceed.
   */
  lemma EngagementByDayTypeIs(
      events: seq<EventRow>, types: seq<Bytes>, start: int, end: int, collation: (Bytes, Bytes) -> bool, i: nat, j: nat)
    requires TotalOrder(collation) && i < |Days(start, end)| && j < |types|
    ensures var sorted := SortTypes(types, collation);
            Ascending(sorted, collation) && multiset(sorted) == multiset(types)
    ensures var rows := EngagementByDayType(events, types, start, end, collation);
            var t := SortTypes(types, collation)[j];
            var (doers, logins) := (UsersOfType(events, t, start + i), Users(Logins(events), start + i));
            && |rows| == |Days(start, end)| * |types|
            && rows[CellIndex(|Days(start, end)|, |types|, i, j)] == ((start + i, t), (|doers * logins|, |logins|))
            && |doers * logins| <= |logins|
  {
    hide *;
    var sorted := SortTypes(types, collation);
    SortTypesIs(types, collation);
    TypeListed(sorted, types, j);
    DaysAre(start, end);
    GridIs(Days(start, end), sorted, i, j);
    EngagementRow(events, types, start, end, collation, CellIndex(|Days(start, end)|, |types|, i, j),
                  (start + i, sorted[j]));
    var (doers, logins) := (UsersOfType(events, sorted[j], start + i), Users(Logins(events), start + i));
    SubsetCardinality(doers * logins, logins);
  }

  lemma TypeListed(a: seq<Bytes>, b: seq<Bytes>, j: nat)
    requires multiset(a) == multiset(b) && j < |a|
    ensures a[j] in b
  {
    assert a[j] in multiset(a);
  }

  lemma EngagementRow(events: seq<EventRow>, types: seq<Bytes>, start: int, end: int,
      collation: (Bytes, Bytes) -> bool, k: nat, cell: Cell)
    requires var grid := Grid(Days(start, end), SortTypes(types, collation));
             k < |grid| && grid[k] == cell && start <= cell.0 <= end && cell.1 in types
    ensures |EngagementByDayType(events, types, start, end, collation)| ==
            |Grid(Days(start, end), SortTypes(types, collation))|
    ensures var (doers, logins) := (UsersOfType(events, cell.1, cell.0), Users(Logins(events), cell.0));
            EngagementByDayType(events, types, start, end, collation)[k] == (cell, (|doers * logins|, |logins|))
  {
    hide Filter, Days, Grid, GroupBy, ZeroFill, ZeroFillBoth, Logins, ActiveDays, EngagedActive, SortTypes, Distinct,
         Users, UsersOfType;
    var grid := Grid(Days(start, end), SortTypes(types, collation));
    var (joined, active) := (EngagedActive(events, types, start, end), ActiveDays(Logins(events), start, end));
    GroupsOnce(joined, CellOf(), RowCount());
    GroupsOnce(active, UserDayDay(), RowCount());
    ZeroFillBothIs(grid, EngagedGroups(events, types, start, end), 0, DayOfCell(), DauGroups(events, start, end), 0, k);
    ZeroFillGroup(grid, joined, CellOf(), RowCount(), 0, k, InCell(cell));
    ZeroFillGroup(Map(grid, DayOfCell()), active, UserDayDay(), RowCount(), 0, k, OnDayIf(cell.0, Always()));
    CellCounts(events, types, start, end, cell);
  }

  lemma CellCounts(events: seq<EventRow>, types: seq<Bytes>, start: int, end: int, cell: Cell)
    requires start <= cell.0 <= end && cell.1 in types
    ensures var (doers, logins) := (UsersOfType(events, cell.1, cell.0), Users(Logins(events), cell.0));
            && |Filter(EngagedActive(events, types, start, end), InCell(cell))| == |doers * logins|
            && |Filter(ActiveDays(Logins(events), start, end), OnDayIf(cell.0, Always()))| == |logins|
  {
    hide Filter, Logins, ActiveDays, Engaged, Users, UsersOfType, Distinct, InnerJoin;
    var (doers, logins) := (UsersOfType(events, cell.1, cell.0), Users(Logins(events), cell.0));
    var (engaged, active) := (Engaged(events, types, start, end), ActiveDays(Logins(events), start, end));
    EngagedIs(events, types, start, end);
    ActiveDaysAre(Logins(events), start, end);
    CellCount(engaged, active, cell, doers * logins);
    CountsUsers(active, cell.0, Always(), logins);
  }

  // ---------- Pages ----------

  /** rows.slice(from, to) for natural bounds: cut at the end of the rows. */
  function SliceRows<T>(rows: seq<T>, from: nat, to: nat): seq<T>
    requires from <= to
  {
    if from >= |rows| then [] else if to >= |rows| then rows[from..] else rows[from..to]
  }

  /** Page numbers start at 1; a page past the end is empty. */
  function Paginate<T>(rows: seq<T>, page: nat, pageSize: nat): seq<T>
    requires page >= 1 && pageSize >= 1
  {
    PageBounds(page, pageSize);
    SliceRows(rows, (page - 1) * pageSize, page * pageSize)
  }

  lemma PageBounds(page: nat, pageSize: nat)
    requires page >= 1
    ensures 0 <= (page - 1) * pageSize <= page * pageSize == (page - 1) * pageSize + pageSize
  {
  }

  function Pages<T>(rows: seq<T>, pageSize: nat, count: nat): seq<T>
    requires pageSize >= 1
  {
    if count == 0 then [] else Pages(rows, pageSize, count - 1) + Paginate(rows, count, pageSize)
  }

  /** The first pages put together are the first rows, so enough pages give every row once, in order. */
  lemma {:induction false} PagesAreRows<T>(rows: seq<T>, pageSize: nat, count: nat)
    requires pageSize >= 1
    ensures Pages(rows, pageSize, count) == if count * pageSize <= |rows| then rows[..count * pageSize] else rows
  {
    if count > 0 {
      PagesAreRows(rows, pageSize, count - 1);
      PageBounds(count, pageSize);
    }
  }
}
