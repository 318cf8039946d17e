/** Cohorts by first login day, and who of them came back exactly 1, 7 and 30 days later. */
module Retention {
  import opened Basics
  import opened Relational
  import opened Metrics

  // ---------- First logins ----------

  /** MIN(occurred_at) of a group; a group is never empty. */
  function Earliest(acts: seq<Activity>): int {
    if acts == [] then 0
    else if |acts| == 1 then acts[0].at
    else
      var rest := Earliest(acts[1..]);
      if acts[0].at < rest then acts[0].at else rest
  }

  lemma {:induction false} EarliestIs(acts: seq<Activity>)
    requires acts != []
    ensures exists a :: a in acts && a.at == Earliest(acts)
    ensures forall a :: a in acts ==> Earliest(acts) <= a.at
  {
    assert acts == [acts[0]] + acts[1..];
    assert acts[0] in acts;
    if |acts| > 1 {
      EarliestIs(acts[1..]);
      var a :| a in acts[1..] && a.at == Earliest(acts[1..]);
      assert a in acts;
    }
  }

  function EarliestOf(): seq<Activity> -> int { (acts: seq<Activity>) => Earliest(acts) }

  /** SELECT user_id, MIN(occurred_at) ... GROUP BY user_id, over the whole history. */
  function FirstLogins(logins: seq<Activity>): seq<(int, int)> {
    GroupBy(logins, UserAt(), EarliestOf())
  }

  function FirstWithin(start: int, end: int): ((int, int)) -> bool { (f: (int, int)) => InRange(f.1, start, end) }

  function CohortOf(): ((int, int)) -> UserDay { (f: (int, int)) => UserDay(Day(f.1), f.0) }

  /** The users whose first login falls in the period, with the day of it. */
  function CohortRows(logins: seq<Activity>, start: int, end: int): seq<UserDay> {
    Map(Filter(FirstLogins(logins), FirstWithin(start, end)), CohortOf())
  }

  lemma DayMonotone(a: int, b: int)
    requires a <= b
    ensures Day(a) <= Day(b)
  {
    assert a == Day(a) * DAY_MS + a % DAY_MS && b == Day(b) * DAY_MS + b % DAY_MS;
  }

  function OfUser(user: int): Activity -> bool { (a: Activity) => a.user == user }

  /** The day of a user's first login is the user's cohort. */
  lemma FirstDayIsCohort(logins: seq<Activity>, user: int, day: int)
    requires Filter(logins, OfUser(user)) != []
    ensures Day(Earliest(Filter(logins, OfUser(user)))) == day <==> user in Cohort(logins, day)
  {
    hide Filter, Earliest, Day;
    var own := Filter(logins, OfUser(user));
    FilterMembers(logins, OfUser(user));
    EarliestIs(own);
    var first :| first in own && first.at == Earliest(own);
    forall b | b in logins && b.user == user ensures Day(first.at) <= Day(b.at) {
      assert b in own;
      DayMonotone(first.at, b.at);
    }
    assert user in Cohort(logins, Day(first.at));
  }

  /** One row per user in the period's cohorts, carrying the cohort's day. */
  lemma CohortRowsAre(logins: seq<Activity>, start: int, end: int)
    ensures Distinct(CohortRows(logins, start, end))
    ensures forall r :: r in CohortRows(logins, start, end) <==>
              start <= r.day <= end && r.user in Cohort(logins, r.day)
  {
    hide Filter, GroupBy, Map, Distinct, Earliest, Day, InRange, Cohort;
    var firsts := FirstLogins(logins);
    var kept := Filter(firsts, FirstWithin(start, end));
    GroupsAre(logins, UserAt(), EarliestOf(), OfUser);
    FilterMembers(firsts, FirstWithin(start, end));
    CohortRowsDistinct(firsts, FirstWithin(start, end));
    MapMembers(kept, CohortOf());
    forall user, day | Filter(logins, OfUser(user)) != []
      ensures Day(Earliest(Filter(logins, OfUser(user)))) == day <==> user in Cohort(logins, day)
    {
      FirstDayIsCohort(logins, user, day);
    }
    forall f: (int, int) ensures InRange(f.1, start, end) <==> start <= Day(f.1) <= end {
      InRangeIsDays(f.1, start, end);
    }
    forall r: UserDay | start <= r.day <= end && r.user in Cohort(logins, r.day)
      ensures r in CohortRows(logins, start, end)
    {
      CohortUserHasRows(logins, r.user, r.day);
      var f := (r.user, Earliest(Filter(logins, OfUser(r.user))));
      assert f in firsts && CohortOf()(f) == r;
    }
  }

  lemma CohortUserHasRows(logins: seq<Activity>, user: int, day: int)
    requires user in Cohort(logins, day)
    ensures Filter(logins, OfUser(user)) != []
  {
    hide Filter;
    FilterMembers(logins, OfUser(user));
    var a :| a in logins && a.user == user;
    assert a in Filter(logins, OfUser(user));
  }

  lemma CohortRowsDistinct(firsts: seq<(int, int)>, keep: ((int, int)) -> bool)
    requires KeysDiffer(firsts, KeyOf<int, int>())
    ensures Distinct(Map(Filter(firsts, keep), CohortOf()))
  {
    hide Filter, Day;
    var kept := Filter(firsts, keep);
    FilterMembers(firsts, keep);
    FilterDistinct(firsts, keep);
    forall i, j | 0 <= i < j < |kept| ensures kept[i].0 != kept[j].0 {
      assert kept[i] in kept && kept[j] in kept;
      var m :| 0 <= m < |firsts| && firsts[m] == kept[i];
      var n :| 0 <= n < |firsts| && firsts[n] == kept[j];
      assert m < n ==> KeyOf<int, int>()(firsts[m]) != KeyOf<int, int>()(firsts[n]);
      assert n < m ==> KeyOf<int, int>()(firsts[n]) != KeyOf<int, int>()(firsts[m]);
    }
  }

  /** Every user who ever logged in belongs to exactly one cohort. */
  lemma CohortsPartition(logins: seq<Activity>, user: int)
    requires exists a :: a in logins && a.user == user
    ensures exists day :: user in Cohort(logins, day)
    ensures forall d, e :: user in Cohort(logins, d) && user in Cohort(logins, e) ==> d == e
  {
    hide Filter, Earliest, Day;
    FilterMembers(logins, OfUser(user));
    var a :| a in logins && a.user == user;
    assert a in Filter(logins, OfUser(user));
    FirstDayIsCohort(logins, user, Day(Earliest(Filter(logins, OfUser(user)))));
  }

  /**
   * A login that arrives late leaves every other user's cohort alone, and moves its own
   * user, if anywhere, to the cohort of its own earlier day.
   */
  lemma LateLoginMovesOnlyItsUser(logins: seq<Activity>, late: Activity, more: seq<Activity>)
    requires forall a :: a in more <==> a in logins || a == late
    ensures forall user, day :: user != late.user ==> (user in Cohort(more, day) <==> user in Cohort(logins, day))
    ensures forall day :: late.user in Cohort(logins, day) ==>
              late.user in Cohort(more, if Day(late.at) < day then Day(late.at) else day)
  {
    hide Day;
    forall user, day | user != late.user ensures user in Cohort(more, day) <==> user in Cohort(logins, day) {
      if user in Cohort(logins, day) {
        var a :| a in logins && Day(a.at) == day && a.user == user && NoneBefore(logins, user, day);
        assert a in more && NoneBefore(more, user, day);
      }
      if user in Cohort(more, day) {
        var a :| a in more && Day(a.at) == day && a.user == user && NoneBefore(more, user, day);
        assert a in logins && NoneBefore(logins, user, day);
      }
    }
    forall day | late.user in Cohort(logins, day)
      ensures late.user in Cohort(more, if Day(late.at) < day then Day(late.at) else day)
    {
      var a :| a in logins && Day(a.at) == day && a.user == late.user && NoneBefore(logins, late.user, day);
      assert a in more && late in more;
      assert NoneBefore(more, late.user, if Day(late.at) < day then Day(late.at) else day);
    }
  }

  // ---------- The three joins ----------

  datatype Retained = Retained(newUsers: nat, d1: nat, d7: nat, d30: nat)

  type With1 = (UserDay, Option<UserDay>)
  type With7 = (With1, Option<UserDay>)
  type With30 = (With7, Option<UserDay>)

  /** l.user_id = c.user_id AND l.day = c.cohort_date + n. */
  function DaysAfter<R>(n: int, cohort: R -> UserDay): (R, UserDay) -> bool {
    (r: R, l: UserDay) => l.user == cohort(r).user && l.day == cohort(r).day + n
  }

  function Self(): UserDay -> UserDay { (c: UserDay) => c }

  function CohortOf1(): With1 -> UserDay { (r: With1) => r.0 }

  function CohortOf7(): With7 -> UserDay { (r: With7) => r.0.0 }

  function JoinedCohort(cohort: seq<UserDay>, days: seq<UserDay>): seq<With30> {
    LeftJoin(LeftJoin(LeftJoin(cohort, days, DaysAfter(1, Self())), days, DaysAfter(7, CohortOf1())),
             days, DaysAfter(30, CohortOf7()))
  }

  /** A login of the same user exactly n days after. */
  function Back(days: seq<UserDay>, n: int): UserDay -> bool { (c: UserDay) => UserDay(c.day + n, c.user) in days }

  lemma JoinAfter<R(!new)>(rows: seq<R>, days: seq<UserDay>, n: int, cohort: R -> UserDay)
    requires Distinct(days)
    ensures var joined := LeftJoin(rows, days, DaysAfter(n, cohort));
            && |joined| == |rows|
            && forall i :: 0 <= i < |rows| ==>
                 joined[i].0 == rows[i] && (joined[i].1.Some? <==> Back(days, n)(cohort(rows[i])))
  {
    hide LeftJoin, Distinct;
    var on := DaysAfter(n, cohort);
    forall r: R, l: UserDay | on(r, l) ensures l == UserDay(cohort(r).day + n, cohort(r).user) {
      assert l == UserDay(l.day, l.user);
    }
    LeftJoinKeepsRows(rows, days, on);
    forall i | 0 <= i < |rows| ensures LeftJoin(rows, days, on)[i].1.Some? <==> Back(days, n)(cohort(rows[i])) {
      assert JoinedWith(LeftJoin(rows, days, on)[i], rows[i], days, on);
      assert on(rows[i], UserDay(cohort(rows[i]).day + n, cohort(rows[i]).user));
    }
  }

  /** The three LEFT JOINs never multiply a cohort row, and each finds exactly its own day. */
  lemma JoinsKeepCohort(cohort: seq<UserDay>, days: seq<UserDay>)
    requires Distinct(days)
    ensures var joined := JoinedCohort(cohort, days);
            && |joined| == |cohort|
            && forall i :: 0 <= i < |cohort| ==>
                 && CohortDate()(joined[i]) == cohort[i].day
                 && (Came1()(joined[i]) <==> Back(days, 1)(cohort[i]))
                 && (Came7()(joined[i]) <==> Back(days, 7)(cohort[i]))
                 && (Came30()(joined[i]) <==> Back(days, 30)(cohort[i]))
  {
    hide LeftJoin, Distinct, Back;
    JoinAfter(cohort, days, 1, Self());
    var with1 := LeftJoin(cohort, days, DaysAfter(1, Self()));
    JoinAfter(with1, days, 7, CohortOf1());
    var with7 := LeftJoin(with1, days, DaysAfter(7, CohortOf1()));
    JoinAfter(with7, days, 30, CohortOf7());
  }

  function CohortDate(): With30 -> int { (r: With30) => r.0.0.0.day }

  function Came1(): With30 -> bool { (r: With30) => r.0.0.1.Some? }

  function Came7(): With30 -> bool { (r: With30) => r.0.1.Some? }

  function Came30(): With30 -> bool { (r: With30) => r.1.Some? }

  /** COUNT(*), COUNT(l1.user_id), COUNT(l7.user_id), COUNT(l30.user_id). */
  function RetainedOf(): seq<With30> -> Retained {
    (rows: seq<With30>) =>
      Retained(|rows|, |Filter(rows, Came1())|, |Filter(rows, Came7())|, |Filter(rows, Came30())|)
  }

  function RetentionByCohort(events: seq<EventRow>, start: int, end: int): seq<(int, Retained)> {
    var logins := Logins(events);
    var joined := JoinedCohort(CohortRows(logins, start, end), AllDays(logins));
    ZeroFill(Days(start, end), GroupBy(joined, CohortDate(), RetainedOf()), Retained(0, 0, 0, 0))
  }

  function OfCohort(day: int): With30 -> bool { (r: With30) => r.0.0.0.day == day }

  /** Rows of a day that came back, counted on the joined rows and on the cohort alike. */
  lemma CountAlong(joined: seq<With30>, came: With30 -> bool, cohort: seq<UserDay>, day: int, back: UserDay -> bool)
    requires |joined| == |cohort|
    requires forall i :: 0 <= i < |cohort| ==>
               CohortDate()(joined[i]) == cohort[i].day && came(joined[i]) == back(cohort[i])
    ensures |Filter(Filter(joined, OfCohort(day)), came)| == |Filter(cohort, OnDayIf(day, back))|
  {
    hide Filter;
    var both := (r: With30) => OfCohort(day)(r) && came(r);
    FilterTwice(joined, OfCohort(day), came, both);
    FilterAlong(joined, both, cohort, OnDayIf(day, back));
  }

  /** The users of a cohort who came back n days later. */
  ghost function Returned(logins: seq<Activity>, day: int, n: int): set<int> {
    Cohort(logins, day) * Users(logins, day + n)
  }

  lemma ReturnedCount(logins: seq<Activity>, cohort: seq<UserDay>, days: seq<UserDay>, day: int, n: int)
    requires Distinct(cohort)
    requires forall r :: r in cohort && r.day == day <==> r.day == day && r.user in Cohort(logins, day)
    requires forall r :: r in days <==> r.user in Users(logins, r.day)
    ensures |Filter(cohort, OnDayIf(day, Back(days, n)))| == |Returned(logins, day, n)| <= |Cohort(logins, day)|
  {
    hide Filter, Cohort, Users, Distinct;
    CountsUsers(cohort, day, Back(days, n), Returned(logins, day, n));
    SubsetCardinality(Returned(logins, day, n), Cohort(logins, day));
  }

  /** A cohort's row: its size, and who of it logged in exactly 1, 7 and 30 days later. */
  lemma RetentionByCohortIs(events: seq<EventRow>, start: int, end: int, i: nat)
    requires i < |Days(start, end)|
    ensures |RetentionByCohort(events, start, end)| == |Days(start, end)|
    ensures var (logins, day) := (Logins(events), start + i);
            && RetentionByCohort(events, start, end)[i] ==
               (day, Retained(|Cohort(logins, day)|, |Returned(logins, day, 1)|, |Returned(logins, day, 7)|,
                              |Returned(logins, day, 30)|))
            && forall n :: |Returned(logins, day, n)| <= |Cohort(logins, day)|
  {
    hide Logins, Days, CohortRows, AllDays, JoinedCohort, Cohort, Users, Returned, Distinct, Filter,
         RetentionByCohort, Back;
    var (logins, day) := (Logins(events), start + i);
    var (cohort, days) := (CohortRows(logins, start, end), AllDays(logins));
    DaysAre(start, end);
    CohortRowsAre(logins, start, end);
    AllDaysAre(logins);
    RetentionRow(events, start, end, i);
    var joined := JoinedCohort(cohort, days);
    JoinsKeepCohort(cohort, days);
    CountAlong(joined, Came1(), cohort, day, Back(days, 1));
    CountAlong(joined, Came7(), cohort, day, Back(days, 7));
    CountAlong(joined, Came30(), cohort, day, Back(days, 30));
    FilterAlong(joined, OfCohort(day), cohort, OnDayIf(day, Always()));
    CountsUsers(cohort, day, Always(), Cohort(logins, day));
    forall n
      ensures |Filter(cohort, OnDayIf(day, Back(days, n)))| == |Returned(logins, day, n)| <= |Cohort(logins, day)|
    {
      ReturnedCount(logins, cohort, days, day, n);
    }
  }

  lemma RetentionRow(events: seq<EventRow>, start: int, end: int, i: nat)
    requires i < |Days(start, end)| && Days(start, end)[i] == start + i
    ensures |RetentionByCohort(events, start, end)| == |Days(start, end)|
    ensures var joined := JoinedCohort(CohortRows(Logins(events), start, end), AllDays(Logins(events)));
            RetentionByCohort(events, start, end)[i] == (start + i, RetainedOf()(Filter(joined, OfCohort(start + i))))
  {
    hide Filter, Days, GroupBy, ZeroFill, JoinedCohort, CohortRows, AllDays, Logins;
    var joined := JoinedCohort(CohortRows(Logins(events), start, end), AllDays(Logins(events)));
    NoneRetained();
    ZeroFillGroup(Days(start, end), joined, CohortDate(), RetainedOf(), Retained(0, 0, 0, 0), i, OfCohort(start + i));
  }

  lemma NoneRetained()
    ensures RetainedOf()([]) == Retained(0, 0, 0, 0)
  {
  }

  // ---------- Rates ----------

  /** The Dn rate as numerator and denominator: absent until day n is over, and for an empty cohort. */
  function Rate(today: int, day: int, n: int, newUsers: nat, returned: nat): Option<(nat, nat)> {
    if today <= day + n || newUsers == 0 then None else Some((returned, newUsers))
  }

  /** A rate that is shown lies between 0 and 1, and nothing that happens from now on can change it. */
  lemma ShownRateIsFinal(logins: seq<Activity>, later: seq<Activity>, now: int, day: int, n: nat)
    requires forall a :: a in later ==> a.at >= now
    requires Rate(Day(now), day, n, |Cohort(logins, day)|, |Returned(logins, day, n)|).Some?
    ensures var (num, den) := Rate(Day(now), day, n, |Cohort(logins, day)|, |Returned(logins, day, n)|).value;
            && num <= den && den > 0
            && Rate(Day(now), day, n, |Cohort(logins + later, day)|, |Returned(logins + later, day, n)|) ==
                Some((num, den))
  {
    hide Cohort, Users, Day;
    forall a | a in later ensures Day(a.at) > day + n {
      DayMonotone(now, a.at);
    }
    LaterKeeps(logins, later, day, n);
    SubsetCardinality(Returned(logins, day, n), Cohort(logins, day));
  }

  /** Activity after day + n changes neither the cohort of a day nor the users of day + n. */
  lemma LaterKeeps(logins: seq<Activity>, later: seq<Activity>, day: int, n: nat)
    requires forall a :: a in later ==> Day(a.at) > day + n
    ensures Cohort(logins + later, day) == Cohort(logins, day)
    ensures Users(logins + later, day + n) == Users(logins, day + n)
  {
    hide Day, NoneBefore;
    var more := logins + later;
    forall user ensures NoneBefore(more, user, day) <==> NoneBefore(logins, user, day) {
      LaterNoneBefore(logins, later, user, day);
    }
    assert forall a :: a in more <==> a in logins || a in later;
  }

  lemma LaterNoneBefore(logins: seq<Activity>, later: seq<Activity>, user: int, day: int)
    requires forall a :: a in later ==> Day(a.at) > day
    ensures NoneBefore(logins + later, user, day) <==> NoneBefore(logins, user, day)
  {
    hide Day;
    assert forall a :: a in logins + later <==> a in logins || a in later;
  }
}
