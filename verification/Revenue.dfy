/** Daily and total revenue of one currency, and the exact ARPU text. */
module Revenue {
  import opened Basics
  import opened Relational
  import opened Metrics

  // ---------- Revenue ----------

  /** SUM(amount_minor), with no row summing to zero. */
  function SumAmounts(sales: seq<SaleRow>): nat {
    if sales == [] then 0 else sales[0].amountMinor + SumAmounts(sales[1..])
  }

  function AmountsOf(): seq<SaleRow> -> nat { (sales: seq<SaleRow>) => SumAmounts(sales) }

  function Sold(currency: Bytes, start: int, end: int): SaleRow -> bool {
    (s: SaleRow) => s.currency == currency && InRange(s.occurredAt, start, end)
  }

  function SoldOn(currency: Bytes, day: int): SaleRow -> bool {
    (s: SaleRow) => s.currency == currency && Day(s.occurredAt) == day
  }

  function SaleDay(): SaleRow -> int { (s: SaleRow) => Day(s.occurredAt) }

  function ActivityDay(): Activity -> int { (a: Activity) => Day(a.at) }

  function DistinctUsersOf(): seq<Activity> -> nat { (acts: seq<Activity>) => |Unique(Map(acts, UserAt()))| }

  /** daily_revenue. */
  function RevenueGroups(sales: seq<SaleRow>, start: int, end: int, currency: Bytes): seq<(int, nat)> {
    GroupBy(Filter(sales, Sold(currency, start, end)), SaleDay(), AmountsOf())
  }

  /** daily_active. */
  function ActiveGroups(events: seq<EventRow>, start: int, end: int): seq<(int, nat)> {
    GroupBy(Filter(Logins(events), Within(start, end)), ActivityDay(), DistinctUsersOf())
  }

  function SameKey(): int -> int { (day: int) => day }

  /** days LEFT JOIN daily_revenue LEFT JOIN daily_active: revenue and active users of every day. */
  function RevenueByDay(events: seq<EventRow>, sales: seq<SaleRow>, start: int, end: int, currency: Bytes)
    : seq<(int, (nat, nat))>
  {
    ZeroFillBoth(Days(start, end), RevenueGroups(sales, start, end, currency), 0,
                 SameKey(), ActiveGroups(events, start, end), 0)
  }

  /** The period's total, without grouping. */
  function RevenueTotal(sales: seq<SaleRow>, start: int, end: int, currency: Bytes): nat {
    SumAmounts(Filter(sales, Sold(currency, start, end)))
  }

  lemma SoldIs(s: SaleRow, currency: Bytes, start: int, end: int)
    ensures Sold(currency, start, end)(s) <==> s.currency == currency && start <= Day(s.occurredAt) <= end
  {
    InRangeIsDays(s.occurredAt, start, end);
  }

  /** A day's row holds what was sold that day in the currency, and the users who logged in that day. */
  lemma RevenueByDayIs(events: seq<EventRow>, sales: seq<SaleRow>, start: int, end: int, currency: Bytes, i: nat)
    requires i < |Days(start, end)|
    ensures |RevenueByDay(events, sales, start, end, currency)| == |Days(start, end)|
    ensures RevenueByDay(events, sales, start, end, currency)[i] ==
            (start + i, (SumAmounts(Filter(sales, SoldOn(currency, start + i))), |Users(Logins(events), start + i)|))
  {
    hide Filter, Days, GroupBy, ZeroFill, ZeroFillBoth, Logins, Users, SumAmounts, Distinct;
    var days := Days(start, end);
    DaysAre(start, end);
    assert Map(days, SameKey()) == days;
    GroupsOnce(Filter(sales, Sold(currency, start, end)), SaleDay(), AmountsOf());
    GroupsOnce(Filter(Logins(events), Within(start, end)), ActivityDay(), DistinctUsersOf());
    ZeroFillBothIs(days, RevenueGroups(sales, start, end, currency), 0,
                   SameKey(), ActiveGroups(events, start, end), 0, i);
    SoldRow(sales, start, end, currency, i);
    ActiveRow(events, start, end, i);
  }

  lemma SoldRow(sales: seq<SaleRow>, start: int, end: int, currency: Bytes, i: nat)
    requires i < |Days(start, end)| && Days(start, end)[i] == start + i
    requires |Days(start, end)| == end - start + 1
    ensures var filled := ZeroFill(Days(start, end), RevenueGroups(sales, start, end, currency), 0);
            |filled| == |Days(start, end)| &&
            filled[i] == (start + i, SumAmounts(Filter(sales, SoldOn(currency, start + i))))
  {
    hide Filter, Days, GroupBy, ZeroFill, Day;
    var day := start + i;
    var sold := Filter(sales, Sold(currency, start, end));
    var onDay := (s: SaleRow) => Day(s.occurredAt) == day;
    NothingSold();
    ZeroFillGroup(Days(start, end), sold, SaleDay(), AmountsOf(), 0, i, onDay);
    forall s ensures Sold(currency, start, end)(s) <==> s.currency == currency && start <= Day(s.occurredAt) <= end {
      SoldIs(s, currency, start, end);
    }
    FilterTwice(sales, Sold(currency, start, end), onDay, SoldOn(currency, day));
  }

  lemma NothingSold()
    ensures AmountsOf()([]) == 0 && DistinctUsersOf()([]) == 0
  {
  }

  lemma ActiveRow(events: seq<EventRow>, start: int, end: int, i: nat)
    requires i < |Days(start, end)| && Days(start, end)[i] == start + i
    requires |Days(start, end)| == end - start + 1
    ensures var filled := ZeroFill(Days(start, end), ActiveGroups(events, start, end), 0);
            |filled| == |Days(start, end)| && filled[i] == (start + i, |Users(Logins(events), start + i)|)
  {
    hide Filter, Days, GroupBy, ZeroFill, Logins, Day, InRange, Unique, Map;
    var (logins, day) := (Logins(events), start + i);
    var kept := Filter(logins, Within(start, end));
    var onDay := (a: Activity) => Day(a.at) == day;
    NothingSold();
    ZeroFillGroup(Days(start, end), kept, ActivityDay(), DistinctUsersOf(), 0, i, onDay);
    forall a ensures Within(start, end)(a) <==> start <= Day(a.at) <= end {
      InRangeIsDays(a.at, start, end);
    }
    FilterTwice(logins, Within(start, end), onDay, onDay);
    DistinctUsers(logins, onDay, Users(logins, day));
  }

  lemma {:induction false} AmountsSplit(sales: seq<SaleRow>, whole: SaleRow -> bool, one: SaleRow -> bool,
      other: SaleRow -> bool)
    requires forall s :: s in sales ==> (whole(s) <==> one(s) || other(s)) && !(one(s) && other(s))
    ensures SumAmounts(Filter(sales, whole)) == SumAmounts(Filter(sales, one)) + SumAmounts(Filter(sales, other))
  {
    hide *;
    if sales == [] {
      FilterNone(sales, whole);
      FilterNone(sales, one);
      FilterNone(sales, other);
      NoAmounts();
    } else {
      var (s, rest) := (sales[0], sales[1..]);
      assert sales == [s] + rest;
      AmountsSplit(rest, whole, one, other);
      AmountsCons(s, rest, whole);
      AmountsCons(s, rest, one);
      AmountsCons(s, rest, other);
    }
  }

  lemma NoAmounts()
    ensures SumAmounts([]) == 0
  {
  }

  lemma AmountsCons(s: SaleRow, rest: seq<SaleRow>, keep: SaleRow -> bool)
    ensures SumAmounts(Filter([s] + rest, keep)) ==
            (if keep(s) then s.amountMinor else 0) + SumAmounts(Filter(rest, keep))
  {
    hide Filter;
    FilterCons(s, rest, keep);
    var kept := Filter(rest, keep);
    assert [] + kept == kept;
    assert ([s] + kept)[1..] == kept;
  }

  lemma {:induction false} DailySumsToTotal(sales: seq<SaleRow>, start: int, end: int, currency: Bytes,
      column: seq<nat>)
    requires |column| == |Days(start, end)|
    requires forall i :: 0 <= i < |column| ==> column[i] == SumAmounts(Filter(sales, SoldOn(currency, start + i)))
    ensures Sum(column) == RevenueTotal(sales, start, end, currency)
    decreases end - start
  {
    hide Filter, Day, InRange, SumAmounts;
    forall s, from
      ensures Sold(currency, from, end)(s) <==> s.currency == currency && from <= Day(s.occurredAt) <= end
    {
      SoldIs(s, currency, from, end);
    }
    if start <= end {
      forall i | 0 <= i < |column[1..]|
        ensures column[1..][i] == SumAmounts(Filter(sales, SoldOn(currency, start + 1 + i)))
      {
        assert column[1..][i] == column[i + 1];
      }
      DailySumsToTotal(sales, start + 1, end, currency, column[1..]);
      AmountsSplit(sales, Sold(currency, start, end), SoldOn(currency, start), Sold(currency, start + 1, end));
    } else {
      FilterNone(sales, Sold(currency, start, end));
      NoAmounts();
    }
  }

  function RevenueColumn(rows: seq<(int, (nat, nat))>): seq<nat> { Map(rows, (r: (int, (nat, nat))) => r.1.0) }

  /** The daily revenues add up to the period's total. */
  lemma RevenueAddsUp(events: seq<EventRow>, sales: seq<SaleRow>, start: int, end: int, currency: Bytes)
    ensures Sum(RevenueColumn(RevenueByDay(events, sales, start, end, currency))) ==
            RevenueTotal(sales, start, end, currency)
  {
    hide RevenueByDay, RevenueTotal, Days, Filter, SumAmounts;
    var column := RevenueColumn(RevenueByDay(events, sales, start, end, currency));
    RevenueRows(events, sales, start, end, currency);
    forall i | 0 <= i < |column| ensures column[i] == SumAmounts(Filter(sales, SoldOn(currency, start + i))) {
      RevenueByDayIs(events, sales, start, end, currency, i);
    }
    DailySumsToTotal(sales, start, end, currency, column);
  }

  lemma RevenueRows(events: seq<EventRow>, sales: seq<SaleRow>, start: int, end: int, currency: Bytes)
    ensures |RevenueByDay(events, sales, start, end, currency)| == |Days(start, end)|
  {
    hide RevenueByDay, Days;
    if |Days(start, end)| > 0 {
      RevenueByDayIs(events, sales, start, end, currency, 0);
    } else {
      NoRevenueRows(events, sales, start, end, currency);
    }
  }

  lemma NoRevenueRows(events: seq<EventRow>, sales: seq<SaleRow>, start: int, end: int, currency: Bytes)
    requires Days(start, end) == []
    ensures RevenueByDay(events, sales, start, end, currency) == []
  {
    hide Days, RevenueGroups, ActiveGroups;
  }

  // ---------- ARPU ----------

  function Digit(n: nat): char
    requires n < 10
  {
    '0' + n as char
  }

  /** The decimal text of a natural number. */
  function Decimal(n: nat): (text: string)
    ensures |text| >= 1
  {
    if n < 10 then [Digit(n)] else Decimal(n / 10) + [Digit(n % 10)]
  }

  function PadStart2(text: string): string {
    if |text| == 0 then "00" else if |text| == 1 then "0" + text else text
  }

  /** Revenue per active user with two decimals, rounded half up on integers; null without users. */
  function FormatArpuMinor(revenueMinor: nat, activeUsers: nat): Option<string> {
    if activeUsers == 0 then None
    else
      var numerator := revenueMinor * 100;
      var quotient := numerator / activeUsers;
      var remainder := numerator % activeUsers;
      var cents := quotient + (if remainder * 2 >= activeUsers then 1 else 0);
      Some(Decimal(cents / 100) + "." + PadStart2(Decimal(cents % 100)))
  }

  predicate IsDigit(c: char) { '0' <= c <= '9' }

  function DigitValue(c: char): nat
    requires IsDigit(c)
  {
    c as int - '0' as int
  }

  /** Reading a decimal numeral back. */
  function ReadDecimal(text: string): nat
    requires forall i :: 0 <= i < |text| ==> IsDigit(text[i])
  {
    if text == "" then 0 else ReadDecimal(text[..|text| - 1]) * 10 + DigitValue(text[|text| - 1])
  }

  /** A printed amount: digits, a point, exactly two digits. */
  predicate IsAmount(text: string) {
    && |text| >= 4 && text[|text| - 3] == '.'
    && (forall i :: 0 <= i < |text| && i != |text| - 3 ==> IsDigit(text[i]))
  }

  function CentsOf(text: string): nat
    requires IsAmount(text)
  {
    ReadDecimal(text[..|text| - 3]) * 100 + ReadDecimal(text[|text| - 2..])
  }

  lemma {:induction false} DecimalReads(n: nat)
    ensures forall i :: 0 <= i < |Decimal(n)| ==> IsDigit(Decimal(n)[i])
    ensures ReadDecimal(Decimal(n)) == n
    decreases n
  {
    if n < 10 {
      assert [Digit(n)][..0] == "";
    } else {
      DecimalReads(n / 10);
      var (head, last) := (Decimal(n / 10), Digit(n % 10));
      assert (head + [last])[..|head|] == head;
    }
  }

  lemma ReadTwo(tens: char, ones: char)
    requires IsDigit(tens) && IsDigit(ones)
    ensures ReadDecimal([tens, ones]) == 10 * DigitValue(tens) + DigitValue(ones)
  {
    assert [tens, ones][..1] == [tens] && [tens][..0] == "";
    assert ReadDecimal([tens]) == DigitValue(tens);
  }

  lemma TwoDigits(n: nat)
    requires n < 100
    ensures var text := PadStart2(Decimal(n));
            |text| == 2 && IsDigit(text[0]) && IsDigit(text[1]) && ReadDecimal(text) == n
  {
    hide ReadDecimal;
    var text := PadStart2(Decimal(n));
    if n < 10 {
      assert text == ['0', Digit(n)];
      ReadTwo('0', Digit(n));
    } else {
      assert Decimal(n) == [Digit(n / 10)] + [Digit(n % 10)] == [Digit(n / 10), Digit(n % 10)];
      ReadTwo(Digit(n / 10), Digit(n % 10));
    }
  }

  /** The printed value, read back as cents, is the nearest cent to revenue per user, half up. */
  lemma ArpuNearestCent(revenueMinor: nat, activeUsers: nat)
    ensures FormatArpuMinor(revenueMinor, activeUsers).None? <==> activeUsers == 0
    ensures activeUsers > 0 ==>
              var text := FormatArpuMinor(revenueMinor, activeUsers).value;
              && IsAmount(text)
              && 2 * (100 * revenueMinor - CentsOf(text) * activeUsers) < activeUsers
              && 2 * (CentsOf(text) * activeUsers - 100 * revenueMinor) <= activeUsers
  {
    hide *;
    if activeUsers > 0 {
      FormatIs(revenueMinor, activeUsers);
      var cents := HalfUp(revenueMinor * 100, activeUsers);
      AmountText(cents);
    } else {
      FormatNone(revenueMinor);
    }
  }

  function RoundedCents(numerator: nat, users: nat): nat
    requires users > 0
  {
    numerator / users + (if numerator % users * 2 >= users then 1 else 0)
  }

  function TextOf(cents: nat): string {
    Decimal(cents / 100) + "." + PadStart2(Decimal(cents % 100))
  }

  lemma FormatNone(revenueMinor: nat)
    ensures FormatArpuMinor(revenueMinor, 0).None?
  {
  }

  lemma FormatIs(revenueMinor: nat, activeUsers: nat)
    requires activeUsers > 0
    ensures FormatArpuMinor(revenueMinor, activeUsers) == Some(TextOf(RoundedCents(revenueMinor * 100, activeUsers)))
  {
    hide Decimal, PadStart2;
  }

  lemma AmountText(cents: nat)
    ensures IsAmount(TextOf(cents)) && CentsOf(TextOf(cents)) == cents
  {
    hide Decimal, PadStart2, ReadDecimal;
    DecimalReads(cents / 100);
    TwoDigits(cents % 100);
    var (whole, fraction) := (Decimal(cents / 100), PadStart2(Decimal(cents % 100)));
    var text := whole + "." + fraction;
    assert text[..|text| - 3] == whole && text[|text| - 2..] == fraction;
  }

  lemma HalfUp(numerator: nat, users: nat) returns (cents: nat)
    requires users > 0
    ensures cents == RoundedCents(numerator, users)
    ensures 2 * (numerator - cents * users) < users && 2 * (cents * users - numerator) <= users
  {
    var (quotient, remainder) := (numerator / users, numerator % users);
    assert numerator == quotient * users + remainder;
    cents := RoundedCents(numerator, users);
    assert (quotient + 1) * users == quotient * users + users;
  }
}
