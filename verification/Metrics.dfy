/** The metric queries over the event and purchase tables, against their set definitions. */
module Metrics {
  import opened Basics
  import opened Relational

  const DAY_MS: int := 86_400_000
  const LOGIN: Bytes := Ascii("session_login")

  /** The columns of game_events and of purchases that the queries read. */
  datatype EventRow = EventRow(eventType: Bytes, userId: int, occurredAt: int)

  datatype SaleRow = SaleRow(userId: int, occurredAt: int, amountMinor: nat, currency: Bytes)

  /** Something a user did at an instant, in milliseconds since 1970-01-01 UTC. */
  datatype Activity = Activity(user: int, at: int)

  datatype UserDay = UserDay(day: int, user: int)

  // ---------- Days ----------

  /** (occurred_at AT TIME ZONE 'UTC')::date, as a day number. */
  function Day(at: int): int { at / DAY_MS }

  /** At or after start's midnight and before the midnight that ends end. */
  predicate InRange(at: int, start: int, end: int) {
    start * DAY_MS <= at < (end + 1) * DAY_MS
  }

  lemma InRangeIsDays(at: int, start: int, end: int)
    ensures InRange(at, start, end) <==> start <= Day(at) <= end
  {
    assert at == Day(at) * DAY_MS + at % DAY_MS;
  }

  /** generate_series(start, end, one day). */
  function Days(start: int, end: int): seq<int>
    decreases end - start
  {
    if start > end then [] else [start] + Days(start + 1, end)
  }

  lemma {:induction false} DaysAre(start: int, end: int)
    ensures |Days(start, end)| == if start <= end then end - start + 1 else 0
    ensures forall i :: 0 <= i < |Days(start, end)| ==> Days(start, end)[i] == start + i
    decreases end - start
  {
    if start <= end {
      DaysAre(start + 1, end);
    }
  }

  // ---------- Set definitions ----------

  /** The users active on a day. */
  ghost function Users(acts: seq<Activity>, day: int): set<int> {
    set a | a in acts && Day(a.at) == day :: a.user
  }

  /** The users active on some day of a period. */
  ghost function UsersWithin(acts: seq<Activity>, start: int, end: int): set<int> {
    set a | a in acts && start <= Day(a.at) <= end :: a.user
  }

  /** The users whose earliest activity falls on a day. */
  ghost function Cohort(acts: seq<Activity>, day: int): set<int> {
    set a | a in acts && Day(a.at) == day && NoneBefore(acts, a.user, day) :: a.user
  }

  ghost predicate NoneBefore(acts: seq<Activity>, user: int, day: int) {
    forall b :: b in acts && b.user == user ==> day <= Day(b.at)
  }

  // ---------- Common table expressions ----------

  function OfType(eventType: Bytes): EventRow -> bool { (e: EventRow) => e.eventType == eventType }

  function ActivityOf(): EventRow -> Activity { (e: EventRow) => Activity(e.userId, e.occurredAt) }

  function Logins(events: seq<EventRow>): seq<Activity> {
    Map(Filter(events, OfType(LOGIN)), ActivityOf())
  }

  function Payments(sales: seq<SaleRow>): seq<Activity> {
    Map(sales, (s: SaleRow) => Activity(s.userId, s.occurredAt))
  }

  function Within(start: int, end: int): Activity -> bool { (a: Activity) => InRange(a.at, start, end) }

  function DayOf(): Activity -> UserDay { (a: Activity) => UserDay(Day(a.at), a.user) }

  /** SELECT DISTINCT day, user_id ... WHERE occurred_at in the period. */
  function ActiveDays(acts: seq<Activity>, start: int, end: int): seq<UserDay> {
    Unique(Map(Filter(acts, Within(start, end)), DayOf()))
  }

  /** SELECT DISTINCT user_id, day, without a period. */
  function AllDays(acts: seq<Activity>): seq<UserDay> {
    Unique(Map(acts, DayOf()))
  }

  lemma ActiveDaysAre(acts: seq<Activity>, start: int, end: int)
    ensures Distinct(ActiveDays(acts, start, end))
    ensures forall r :: r in ActiveDays(acts, start, end) <==> start <= r.day <= end && r.user in Users(acts, r.day)
  {
    hide Filter, Map, Unique, Day, InRange;
    var kept := Filter(acts, Within(start, end));
    FilterMembers(acts, Within(start, end));
    MapMembers(kept, DayOf());
    UniqueIs(Map(kept, DayOf()));
    forall a ensures Within(start, end)(a) <==> start <= Day(a.at) <= end {
      InRangeIsDays(a.at, start, end);
    }
    forall r: UserDay | start <= r.day <= end && r.user in Users(acts, r.day)
      ensures r in ActiveDays(acts, start, end)
    {
      var a :| a in acts && Day(a.at) == r.day && a.user == r.user;
      assert a in kept && DayOf()(a) == r;
    }
  }

  lemma AllDaysAre(acts: seq<Activity>)
    ensures Distinct(AllDays(acts))
    ensures forall r :: r in AllDays(acts) <==> r.user in Users(acts, r.day)
  {
    hide Map, Unique, Day;
    MapMembers(acts, DayOf());
    UniqueIs(Map(acts, DayOf()));
    forall r: UserDay | r.user in Users(acts, r.day) ensures r in AllDays(acts) {
      var a :| a in acts && Day(a.at) == r.day && a.user == r.user;
      assert DayOf()(a) == r;
    }
  }

  function UserOf(): UserDay -> int { (r: UserDay) => r.user }

  function OnDayIf(day: int, keep: UserDay -> bool): UserDay -> bool { (r: UserDay) => r.day == day && keep(r) }

  /** Counting the rows of one day counts users. */
  lemma UsersOnDay(rows: seq<UserDay>, day: int, keep: UserDay -> bool)
    requires Distinct(rows)
    ensures |Filter(rows, OnDayIf(day, keep))| == |set r | r in rows && r.day == day && keep(r) :: r.user|
  {
    hide Filter;
    var kept := Filter(rows, OnDayIf(day, keep));
    var all := (r: UserDay) => true;
    FilterMembers(rows, OnDayIf(day, keep));
    FilterDistinct(rows, OnDayIf(day, keep));
    forall i, j | 0 <= i < j < |kept| ensures UserOf()(kept[i]) != UserOf()(kept[j]) {
      assert kept[i] in kept && kept[j] in kept;
    }
    CountKeys(kept, UserOf(), all);
    FilterAll(kept, all);
    assert KeysOf(kept, UserOf(), all) == set r | r in rows && r.day == day && keep(r) :: r.user;
  }

  // ---------- Daily active users ----------

  function SameDay(): (int, UserDay) -> bool { (day: int, l: UserDay) => l.day == day }

  function RowsOfDay(day: int): ((int, Option<UserDay>)) -> bool { (r: (int, Option<UserDay>)) => r.0 == day }

  /** days LEFT JOIN daily_logins, GROUP BY d.day, COUNT(l.user_id), ORDER BY d.day. */
  function DauByDay(events: seq<EventRow>, start: int, end: int): seq<(int, nat)> {
    var days := Days(start, end);
    var joined := LeftJoin(days, ActiveDays(Logins(events), start, end), SameDay());
    Map(days, day => (day, CountNonNull(Filter(joined, RowsOfDay(day)))))
  }

  /** COUNT(DISTINCT user_id) over the period's logins. */
  function UniqueLoginUsers(events: seq<EventRow>, start: int, end: int): nat {
    |Unique(Map(Filter(Logins(events), Within(start, end)), UserAt()))|
  }

  function UserAt(): Activity -> int { (a: Activity) => a.user }

  lemma CountMatches<A, B>(x: A, found: seq<B>)
    ensures CountNonNull(Matches(x, found)) == |found|
  {
    var some := (r: (A, Option<B>)) => r.1.Some?;
    if found == [] {
      assert Matches(x, found) == [(x, None)];
      FilterNone(Matches(x, found), some);
    } else {
      FilterAll(Matches(x, found), some);
    }
  }

  /** Every calendar day of the period has its row, with the number of users who logged in that day. */
  lemma DauByDayIs(events: seq<EventRow>, start: int, end: int, i: nat)
    requires i < |Days(start, end)|
    ensures |DauByDay(events, start, end)| == |Days(start, end)|
    ensures DauByDay(events, start, end)[i] == (start + i, |Users(Logins(events), start + i)|)
  {
    hide LeftJoin, Filter, Matches, CountNonNull, Days, Unique, Users, Logins, Distinct;
    var (days, logins) := (Days(start, end), ActiveDays(Logins(events), start, end));
    DaysAre(start, end);
    var day := start + i;
    DistinctDays(start, end);
    LeftJoinGroup(days, logins, SameDay(), i, RowsOfDay(day), OnDayIf(day, Always()));
    CountMatches(day, Filter(logins, OnDayIf(day, Always())));
    ActiveDaysAre(Logins(events), start, end);
    CountsUsers(logins, day, Always(), Users(Logins(events), day));
  }

  lemma DistinctDays(start: int, end: int)
    ensures Distinct(Days(start, end))
  {
    DaysAre(start, end);
  }

  function Always(): UserDay -> bool { (r: UserDay) => true }

  function Among(rows: seq<UserDay>): UserDay -> bool { (r: UserDay) => r in rows }

  /** The kept rows of a day, when they are one for each expected user. */
  lemma CountsUsers(rows: seq<UserDay>, day: int, keep: UserDay -> bool, expected: set<int>)
    requires Distinct(rows)
    requires forall r: UserDay :: r.day == day ==> (r in rows && keep(r) <==> r.user in expected)
    ensures |Filter(rows, OnDayIf(day, keep))| == |expected|
  {
    hide Filter, Distinct;
    UsersOnDay(rows, day, keep);
    var counted := set r | r in rows && r.day == day && keep(r) :: r.user;
    forall u | u in expected ensures u in counted {
      var r := UserDay(day, u);
      assert r.day == day && r.user == u;
    }
    assert counted == expected;
  }

  /** COUNT(DISTINCT user_id) counts the users of the kept rows. */
  lemma DistinctUsers(acts: seq<Activity>, keep: Activity -> bool, expected: set<int>)
    requires forall a :: a in acts && keep(a) ==> a.user in expected
    requires forall u :: u in expected ==> exists a :: a in acts && keep(a) && a.user == u
    ensures |Unique(Map(Filter(acts, keep), UserAt()))| == |expected|
  {
    hide Filter, Map, Unique, Distinct;
    var kept := Filter(acts, keep);
    var users := Unique(Map(kept, UserAt()));
    FilterMembers(acts, keep);
    MapMembers(kept, UserAt());
    UniqueIs(Map(kept, UserAt()));
    DistinctCardinality(users);
    forall u | u in expected ensures u in users {
      var a :| a in acts && keep(a) && a.user == u;
      assert a in kept && UserAt()(a) == u;
    }
    forall u | u in users ensures u in expected {
      var a :| a in kept && UserAt()(a) == u;
    }
    assert Elements(users) == expected;
  }

  lemma UniqueLoginUsersIs(events: seq<EventRow>, start: int, end: int)
    ensures UniqueLoginUsers(events, start, end) == |UsersWithin(Logins(events), start, end)|
  {
    hide Filter, Map, Unique, Day, InRange, Logins;
    forall a ensures Within(start, end)(a) <==> start <= Day(a.at) <= end {
      InRangeIsDays(a.at, start, end);
    }
    DistinctUsers(Logins(events), Within(start, end), UsersWithin(Logins(events), start, end));
  }

  /** The sum over the days of a period of the users of each day. */
  ghost function DailySum(acts: seq<Activity>, start: int, end: int): nat
    decreases end - start
  {
    if start > end then 0 else |Users(acts, start)| + DailySum(acts, start + 1, end)
  }

  /** Each day's DAU is at most the period's unique users, which are at most the sum of the DAUs. */
  lemma {:induction false} DauBounds(acts: seq<Activity>, start: int, end: int)
    ensures forall day :: start <= day <= end ==> |Users(acts, day)| <= |UsersWithin(acts, start, end)|
    ensures |UsersWithin(acts, start, end)| <= DailySum(acts, start, end)
    decreases end - start
  {
    hide Day;
    forall day | start <= day <= end ensures |Users(acts, day)| <= |UsersWithin(acts, start, end)| {
      SubsetCardinality(Users(acts, day), UsersWithin(acts, start, end));
    }
    if start <= end {
      DauBounds(acts, start + 1, end);
      var (first, later) := (Users(acts, start), UsersWithin(acts, start + 1, end));
      assert UsersWithin(acts, start, end) == first + later;
      assert |first + later| == |first| + |later| - |first * later|;
    } else {
      assert UsersWithin(acts, start, end) == {};
    }
  }

  lemma {:induction false} SumOfDays(acts: seq<Activity>, start: int, end: int, column: seq<nat>)
    requires |column| == |Days(start, end)|
    requires forall i :: 0 <= i < |column| ==> column[i] == |Users(acts, start + i)|
    ensures Sum(column) == DailySum(acts, start, end)
    decreases end - start
  {
    hide Users;
    if start <= end {
      forall i | 0 <= i < |column[1..]| ensures column[1..][i] == |Users(acts, start + 1 + i)| {
        assert column[1..][i] == column[i + 1];
      }
      SumOfDays(acts, start + 1, end, column[1..]);
    }
  }

  function ValueColumn(rows: seq<(int, nat)>): seq<nat> { Map(rows, (r: (int, nat)) => r.1) }

  /** No day's DAU exceeds the period's unique users, which never exceed the sum of the DAUs. */
  lemma DauQueryBounds(events: seq<EventRow>, start: int, end: int)
    ensures var (column, unique) := (ValueColumn(DauByDay(events, start, end)), UniqueLoginUsers(events, start, end));
            && (forall i :: 0 <= i < |column| ==> column[i] <= unique)
            && unique <= Sum(column)
  {
    hide DauByDay, UniqueLoginUsers, Users, UsersWithin, Days, Logins;
    var column := ValueColumn(DauByDay(events, start, end));
    DaysAre(start, end);
    DauBounds(Logins(events), start, end);
    UniqueLoginUsersIs(events, start, end);
    DauRowCount(events, start, end);
    forall i | 0 <= i < |column| ensures column[i] == |Users(Logins(events), start + i)| {
      DauByDayIs(events, start, end, i);
    }
    SumOfDays(Logins(events), start, end, column);
  }

  lemma DauRowCount(events: seq<EventRow>, start: int, end: int)
    ensures |DauByDay(events, start, end)| == |Days(start, end)|
  {
  }

  // ---------- Purchase conversion ----------

  function SameUserDay(): (UserDay, UserDay) -> bool { (a: UserDay, p: UserDay) => p.day == a.day && p.user == a.user }

  function DayOfActive(): ((UserDay, Option<UserDay>)) -> int { (r: (UserDay, Option<UserDay>)) => r.0.day }

  /** COUNT(p.user_id) AS paying_users, COUNT(*) AS active_users. */
  function ConversionCounts(): seq<(UserDay, Option<UserDay>)> -> (nat, nat) {
    (rows: seq<(UserDay, Option<UserDay>)>) => (CountNonNull(rows), |rows|)
  }

  function ActiveWithPaying(logins: seq<Activity>, payments: seq<Activity>, start: int, end: int)
    : seq<(UserDay, Option<UserDay>)>
  {
    LeftJoin(ActiveDays(logins, start, end), ActiveDays(payments, start, end), SameUserDay())
  }

  function ConversionByDay(events: seq<EventRow>, sales: seq<SaleRow>, start: int, end: int): seq<(int, (nat, nat))> {
    var joined := ActiveWithPaying(Logins(events), Payments(sales), start, end);
    ZeroFill(Days(start, end), GroupBy(joined, DayOfActive(), ConversionCounts()), (0, 0))
  }

  function OfDayIf(day: int, keep: UserDay -> bool): ((UserDay, Option<UserDay>)) -> bool {
    (r: (UserDay, Option<UserDay>)) => r.0.day == day && keep(r.0)
  }

  lemma JoinOnUserDay(a: seq<UserDay>, b: seq<UserDay>)
    requires Distinct(b)
    ensures var joined := LeftJoin(a, b, SameUserDay());
            |joined| == |a| && forall i :: 0 <= i < |a| ==> joined[i].0 == a[i] && (joined[i].1.Some? <==> a[i] in b)
  {
    hide LeftJoin, Distinct;
    forall x: UserDay, y: UserDay | SameUserDay()(x, y) ensures x == y {
      assert x == UserDay(x.day, x.user) && y == UserDay(y.day, y.user);
    }
    LeftJoinKeepsRows(a, b, SameUserDay());
    forall i | 0 <= i < |a| ensures LeftJoin(a, b, SameUserDay())[i].1.Some? <==> a[i] in b {
      assert JoinedWith(LeftJoin(a, b, SameUserDay())[i], a[i], b, SameUserDay());
      assert SameUserDay()(a[i], a[i]);
    }
  }

  /** A day's joined rows count its active users, and its non-NULL ones those who also paid. */
  lemma ConversionOfDay(active: seq<UserDay>, paying: seq<UserDay>, day: int)
    requires Distinct(paying)
    ensures var rows := Filter(LeftJoin(active, paying, SameUserDay()), OfDayIf(day, Always()));
            && |rows| == |Filter(active, OnDayIf(day, Always()))|
            && CountNonNull(rows) == |Filter(active, OnDayIf(day, Among(paying)))|
  {
    hide Filter, LeftJoin, Distinct;
    var joined := LeftJoin(active, paying, SameUserDay());
    JoinOnUserDay(active, paying);
    FilterAlong(joined, OfDayIf(day, Always()), active, OnDayIf(day, Always()));
    var both := (r: (UserDay, Option<UserDay>)) => OfDayIf(day, Always())(r) && r.1.Some?;
    FilterTwice(joined, OfDayIf(day, Always()), NonNull<UserDay, UserDay>(), both);
    FilterAlong(joined, both, active, OnDayIf(day, Among(paying)));
  }

  /** The numerator is the day's active users who also paid that day, so it never exceeds the denominator. */
  lemma ConversionByDayIs(events: seq<EventRow>, sales: seq<SaleRow>, start: int, end: int, i: nat)
    requires i < |Days(start, end)|
    ensures |ConversionByDay(events, sales, start, end)| == |Days(start, end)|
    ensures var (logins, paying) := (Users(Logins(events), start + i), Users(Payments(sales), start + i));
            && ConversionByDay(events, sales, start, end)[i] == (start + i, (|logins * paying|, |logins|))
            && |logins * paying| <= |logins|
  {
    hide Logins, Payments, ActiveDays, Days, ConversionByDay, Users, Filter, LeftJoin, Distinct, CountNonNull;
    var (logins, payments) := (Logins(events), Payments(sales));
    var (active, paying) := (ActiveDays(logins, start, end), ActiveDays(payments, start, end));
    var day := start + i;
    DaysAre(start, end);
    ActiveDaysAre(logins, start, end);
    ActiveDaysAre(payments, start, end);
    ConversionOfDay(active, paying, day);
    var (users, payers) := (Users(logins, day), Users(payments, day));
    ActiveCounts(active, paying, day, users, payers);
    SubsetCardinality(users * payers, users);
    ConversionRow(events, sales, start, end, i);
  }

  lemma ActiveCounts(active: seq<UserDay>, paying: seq<UserDay>, day: int, users: set<int>, payers: set<int>)
    requires Distinct(active)
    requires forall r :: r in active && r.day == day <==> r.day == day && r.user in users
    requires forall r :: r in paying && r.day == day <==> r.day == day && r.user in payers
    ensures |Filter(active, OnDayIf(day, Always()))| == |users|
    ensures |Filter(active, OnDayIf(day, Among(paying)))| == |users * payers|
  {
    hide Filter, Distinct;
    CountsUsers(active, day, Always(), users);
    CountsUsers(active, day, Among(paying), users * payers);
  }

  lemma ConversionRow(events: seq<EventRow>, sales: seq<SaleRow>, start: int, end: int, i: nat)
    requires i < |Days(start, end)| && Days(start, end)[i] == start + i
    ensures |ConversionByDay(events, sales, start, end)| == |Days(start, end)|
    ensures var joined := ActiveWithPaying(Logins(events), Payments(sales), start, end);
            var rows := Filter(joined, OfDayIf(start + i, Always()));
            ConversionByDay(events, sales, start, end)[i] == (start + i, (CountNonNull(rows), |rows|))
  {
    hide Filter, Days, GroupBy, ZeroFill, ActiveWithPaying, Logins, Payments, CountNonNull;
    var joined := ActiveWithPaying(Logins(events), Payments(sales), start, end);
    NothingCounted();
    ZeroFillGroup(Days(start, end), joined, DayOfActive(), ConversionCounts(), (0, 0), i, OfDayIf(start + i, Always()));
  }

  lemma NothingCounted()
    ensures ConversionCounts()([]) == (0, 0)
  {
  }

  function WithinAndActive(start: int, end: int, logins: seq<Activity>): Activity -> bool {
    (p: Activity) => InRange(p.at, start, end) && Filter(logins, SameUserWithin(p.user, start, end)) != []
  }

  function SameUserWithin(user: int, start: int, end: int): Activity -> bool {
    (g: Activity) => g.user == user && InRange(g.at, start, end)
  }

  /** The period totals: distinct payers for whom a login EXISTS in the period, and distinct login users. */
  function ConversionTotals(events: seq<EventRow>, sales: seq<SaleRow>, start: int, end: int): (nat, nat) {
    (|Unique(Map(Filter(Payments(sales), WithinAndActive(start, end, Logins(events))), UserAt()))|,
     UniqueLoginUsers(events, start, end))
  }

  lemma ConversionTotalsIs(events: seq<EventRow>, sales: seq<SaleRow>, start: int, end: int)
    ensures var (users, payers) := (UsersWithin(Logins(events), start, end), UsersWithin(Payments(sales), start, end));
            ConversionTotals(events, sales, start, end) == (|users * payers|, |users|) && |users * payers| <= |users|
  {
    hide Filter, Map, Unique, Day, InRange, Logins, Payments, UniqueLoginUsers;
    var (logins, payments) := (Logins(events), Payments(sales));
    var (users, payers) := (UsersWithin(logins, start, end), UsersWithin(payments, start, end));
    UniqueLoginUsersIs(events, start, end);
    forall a: Activity ensures InRange(a.at, start, end) <==> start <= Day(a.at) <= end {
      InRangeIsDays(a.at, start, end);
    }
    forall u ensures Filter(logins, SameUserWithin(u, start, end)) != [] <==> u in users {
      UserHasRow(logins, u, start, end);
    }
    DistinctUsers(payments, WithinAndActive(start, end, logins), users * payers);
    SubsetCardinality(users * payers, users);
  }

  /** EXISTS (a login of the user in the period). */
  lemma UserHasRow(logins: seq<Activity>, user: int, start: int, end: int)
    ensures Filter(logins, SameUserWithin(user, start, end)) != [] <==> user in UsersWithin(logins, start, end)
  {
    hide Filter, Day, InRange;
    var found := Filter(logins, SameUserWithin(user, start, end));
    FilterMembers(logins, SameUserWithin(user, start, end));
    forall a: Activity ensures InRange(a.at, start, end) <==> start <= Day(a.at) <= end {
      InRangeIsDays(a.at, start, end);
    }
    if found != [] {
      assert found[0] in found;
    }
    if user in UsersWithin(logins, start, end) {
      var a :| a in logins && start <= Day(a.at) <= end && a.user == user;
      assert a in found;
    }
  }
}
