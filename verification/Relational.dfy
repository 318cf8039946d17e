/** The relational operators the metric queries are written with, on sequences of rows. */
module Relational {
  import opened Basics

  /** WHERE. */
  function Filter<T>(rows: seq<T>, keep: T -> bool): seq<T> {
    if rows == [] then []
    else (if keep(rows[0]) then [rows[0]] else []) + Filter(rows[1..], keep)
  }

  /** SELECT f(row). */
  function Map<T, U>(rows: seq<T>, f: T -> U): (result: seq<U>)
    ensures |result| == |rows|
    ensures forall i :: 0 <= i < |rows| ==> result[i] == f(rows[i])
  {
    seq(|rows|, i requires 0 <= i < |rows| => f(rows[i]))
  }

  /** SELECT DISTINCT. */
  function Unique<T(==)>(rows: seq<T>): seq<T> {
    if rows == [] then []
    else
      var rest := Unique(rows[1..]);
      if rows[0] in rest then rest else [rows[0]] + rest
  }

  /** a LEFT JOIN b ON on: every row of a with each of its matches, or once with NULL. */
  function LeftJoin<A, B>(a: seq<A>, b: seq<B>, on: (A, B) -> bool): seq<(A, Option<B>)> {
    if a == [] then [] else Matches(a[0], Filter(b, y => on(a[0], y))) + LeftJoin(a[1..], b, on)
  }

  function Matches<A, B>(x: A, found: seq<B>): seq<(A, Option<B>)> {
    if found == [] then [(x, None)] else Map(found, y => (x, Some(y)))
  }

  function NonNull<A, B>(): ((A, Option<B>)) -> bool { (r: (A, Option<B>)) => r.1.Some? }

  /** COUNT(column) skips the rows where the column is NULL. */
  function CountNonNull<A, B>(rows: seq<(A, Option<B>)>): nat {
    |Filter(rows, NonNull<A, B>())|
  }

  /** a JOIN b ON on: the rows of the LEFT JOIN that found a match. */
  function InnerJoin<A, B>(a: seq<A>, b: seq<B>, on: (A, B) -> bool): seq<(A, Option<B>)> {
    Filter(LeftJoin(a, b, on), NonNull<A, B>())
  }

  /** GROUP BY key, with one aggregate row per group. */
  function GroupBy<T, K(==), V>(rows: seq<T>, key: T -> K, aggregate: seq<T> -> V): seq<(K, V)> {
    Map(Unique(Map(rows, key)), k => (k, aggregate(Filter(rows, x => key(x) == k))))
  }

  /** keys LEFT JOIN groups ON group.key = key, with the missing aggregates coalesced to zero. */
  function ZeroFill<K(==), V>(keys: seq<K>, groups: seq<(K, V)>, zero: V): seq<(K, V)> {
    Map(LeftJoin(keys, groups, KeyIs<K, V>()),
        (r: (K, Option<(K, V)>)) => (r.0, if r.1.Some? then r.1.value.1 else zero))
  }

  function KeyIs<K(==), V>(): (K, (K, V)) -> bool { (k: K, g: (K, V)) => g.0 == k }

  function PartIs<R, K, J(==), W>(part: K -> J): ((K, Option<R>), (J, W)) -> bool {
    (r: (K, Option<R>), o: (J, W)) => o.0 == part(r.0)
  }

  /** keys LEFT JOIN groups LEFT JOIN others ON others.key = part(key), the missing aggregates coalesced. */
  function ZeroFillBoth<K(==), V, J(==), W>(
      keys: seq<K>, groups: seq<(K, V)>, zero: V, part: K -> J, others: seq<(J, W)>, otherZero: W): seq<(K, (V, W))>
  {
    Map(LeftJoin(LeftJoin(keys, groups, KeyIs<K, V>()), others, PartIs<(K, V), K, J, W>(part)),
        (r: ((K, Option<(K, V)>), Option<(J, W)>)) =>
          (r.0.0, (if r.0.1.Some? then r.0.1.value.1 else zero, if r.1.Some? then r.1.value.1 else otherZero)))
  }

  // ---------- Filter and Unique ----------

  lemma FilterCons<T>(x: T, rest: seq<T>, keep: T -> bool)
    ensures Filter([x] + rest, keep) == (if keep(x) then [x] else []) + Filter(rest, keep)
  {
    assert ([x] + rest)[1..] == rest;
  }

  lemma {:induction false} FilterMembers<T>(rows: seq<T>, keep: T -> bool)
    ensures forall x :: x in Filter(rows, keep) <==> x in rows && keep(x)
  {
    if rows != [] {
      FilterMembers(rows[1..], keep);
      assert rows == [rows[0]] + rows[1..];
    }
  }

  lemma DistinctTail<T>(x: T, rest: seq<T>)
    requires Distinct([x] + rest)
    ensures Distinct(rest) && x !in rest
  {
    var rows := [x] + rest;
    forall i, j | 0 <= i < j < |rest| ensures rest[i] != rest[j] {
      assert rest[i] == rows[i + 1] && rest[j] == rows[j + 1];
    }
    forall j | 0 <= j < |rest| ensures rest[j] != x {
      assert rest[j] == rows[j + 1] && rows[0] == x;
    }
  }

  lemma DistinctCons<T>(x: T, rest: seq<T>)
    requires Distinct(rest) && x !in rest
    ensures Distinct([x] + rest)
  {
  }

  lemma {:induction false} FilterDistinct<T>(rows: seq<T>, keep: T -> bool)
    requires Distinct(rows)
    ensures Distinct(Filter(rows, keep))
  {
    hide *;
    if rows == [] {
      FilterNone(rows, keep);
    } else {
      var (x, rest) := (rows[0], rows[1..]);
      assert rows == [x] + rest;
      DistinctTail(x, rest);
      FilterDistinct(rest, keep);
      FilterMembers(rest, keep);
      FilterCons(x, rest, keep);
      DistinctCons(x, Filter(rest, keep));
      assert [] + Filter(rest, keep) == Filter(rest, keep);
    }
  }

  /** Two filters that agree row by row keep equally many rows. */
  lemma {:induction false} FilterAlong<A, B>(a: seq<A>, keepA: A -> bool, b: seq<B>, keepB: B -> bool)
    requires |a| == |b| && forall i :: 0 <= i < |a| ==> keepA(a[i]) == keepB(b[i])
    ensures |Filter(a, keepA)| == |Filter(b, keepB)|
  {
    if a != [] {
      forall i | 0 <= i < |a[1..]| ensures keepA(a[1..][i]) == keepB(b[1..][i]) {
        assert keepA(a[i + 1]) == keepB(b[i + 1]);
      }
      FilterAlong(a[1..], keepA, b[1..], keepB);
    }
  }

  lemma {:induction false} FilterTwice<T>(rows: seq<T>, first: T -> bool, second: T -> bool, both: T -> bool)
    requires forall x :: x in rows ==> both(x) == (first(x) && second(x))
    ensures Filter(Filter(rows, first), second) == Filter(rows, both)
  {
    hide *;
    if rows == [] {
      FilterNone(rows, first);
      FilterNone(Filter(rows, first), second);
      FilterNone(rows, both);
    } else {
      var (x, rest) := (rows[0], rows[1..]);
      assert rows == [x] + rest;
      FilterTwice(rest, first, second, both);
      FilterCons(x, rest, first);
      FilterCons(x, rest, both);
      FilterCons(x, Filter(rest, first), second);
      assert [] + Filter(rest, first) == Filter(rest, first);
    }
  }

  lemma {:induction false} FilterSame<T>(rows: seq<T>, first: T -> bool, second: T -> bool)
    requires forall x :: x in rows ==> first(x) == second(x)
    ensures Filter(rows, first) == Filter(rows, second)
  {
    if rows != [] {
      FilterSame(rows[1..], first, second);
    }
  }

  /** DISTINCT keeps exactly the members, each once. */
  lemma {:induction false} UniqueIs<T>(rows: seq<T>)
    ensures Distinct(Unique(rows))
    ensures forall x :: x in Unique(rows) <==> x in rows
  {
    if rows != [] {
      UniqueIs(rows[1..]);
      assert rows == [rows[0]] + rows[1..];
    }
  }

  /** The keys of the rows that are kept. */
  ghost function KeysOf<T, K>(rows: seq<T>, key: T -> K, keep: T -> bool): set<K> {
    set x | x in rows && keep(x) :: key(x)
  }

  lemma KeysCons<T, K>(x: T, rest: seq<T>, key: T -> K, keep: T -> bool)
    ensures KeysOf([x] + rest, key, keep) == (if keep(x) then {key(x)} else {}) + KeysOf(rest, key, keep)
    ensures key(x) in KeysOf(rest, key, keep) ==> exists y :: y in rest && key(y) == key(x)
  {
  }

  lemma KeysNothing<T, K>(key: T -> K, keep: T -> bool)
    ensures KeysOf([], key, keep) == {}
  {
  }

  ghost predicate KeysDiffer<T, K>(rows: seq<T>, key: T -> K) {
    forall i, j :: 0 <= i < j < |rows| ==> key(rows[i]) != key(rows[j])
  }

  lemma KeysDifferTail<T, K>(x: T, rest: seq<T>, key: T -> K)
    requires KeysDiffer([x] + rest, key)
    ensures KeysDiffer(rest, key)
    ensures forall y :: y in rest ==> key(y) != key(x)
  {
    var rows := [x] + rest;
    forall i, j | 0 <= i < j < |rest| ensures key(rest[i]) != key(rest[j]) {
      assert rest[i] == rows[i + 1] && rest[j] == rows[j + 1];
    }
    forall y | y in rest ensures key(y) != key(x) {
      var j :| 0 <= j < |rest| && rest[j] == y;
      assert rows[j + 1] == y && rows[0] == x;
    }
  }

  /** COUNT(*) over rows whose keys differ is the number of keys. */
  lemma {:induction false} CountKeys<T, K>(rows: seq<T>, key: T -> K, keep: T -> bool)
    requires KeysDiffer(rows, key)
    ensures |Filter(rows, keep)| == |KeysOf(rows, key, keep)|
  {
    hide *;
    if rows == [] {
      FilterNone(rows, keep);
      KeysNothing(key, keep);
    } else {
      var (x, rest) := (rows[0], rows[1..]);
      assert rows == [x] + rest;
      KeysDifferTail(x, rest, key);
      CountKeys(rest, key, keep);
      FilterCons(x, rest, keep);
      KeysCons(x, rest, key, keep);
    }
  }

  lemma MapMembers<T, U>(rows: seq<T>, f: T -> U)
    ensures forall y :: y in Map(rows, f) <==> exists x :: x in rows && f(x) == y
  {
    forall x | x in rows ensures f(x) in Map(rows, f) {
      var i :| 0 <= i < |rows| && rows[i] == x;
      assert Map(rows, f)[i] == f(x);
    }
  }

  // ---------- Joins ----------

  /** Each row of a has at most one match, and no match is listed twice. */
  ghost predicate MatchesOnce<A, B(!new)>(a: seq<A>, b: seq<B>, on: (A, B) -> bool) {
    && Distinct(b)
    && forall x, y, z :: x in a && y in b && z in b && on(x, y) && on(x, z) ==> y == z
  }

  /** A row joined with its only match, or with NULL when there is none. */
  ghost predicate JoinedWith<A, B(!new)>(row: (A, Option<B>), x: A, b: seq<B>, on: (A, B) -> bool) {
    && row.0 == x
    && (row.1.Some? ==> row.1.value in b && on(x, row.1.value))
    && (row.1.None? ==> forall y :: y in b ==> !on(x, y))
  }

  lemma TwoDiffer<T>(rows: seq<T>)
    requires Distinct(rows) && |rows| > 1
    ensures exists x, y :: x in rows && y in rows && x != y
  {
    assert rows[0] in rows && rows[1] in rows;
  }

  lemma SingleMatch<A, B(!new)>(x: A, b: seq<B>, on: (A, B) -> bool)
    requires MatchesOnce([x], b, on)
    ensures var rows := Matches(x, Filter(b, y => on(x, y)));
            |rows| == 1 && JoinedWith(rows[0], x, b, on)
  {
    hide Distinct, Filter;
    var found := Filter(b, y => on(x, y));
    FilterMembers(b, y => on(x, y));
    FilterDistinct(b, y => on(x, y));
    assert x in [x];
    if |found| > 1 {
      TwoDiffer(found);
    } else if |found| == 1 {
      assert found[0] in found;
    } else {
      forall y | y in b ensures !on(x, y) {
        assert y !in found;
      }
    }
  }

  lemma LeftJoinCons<A, B>(x: A, rest: seq<A>, b: seq<B>, on: (A, B) -> bool)
    ensures LeftJoin([x] + rest, b, on) == Matches(x, Filter(b, y => on(x, y))) + LeftJoin(rest, b, on)
  {
    hide Matches, Filter;
    assert ([x] + rest)[1..] == rest;
  }

  lemma MatchesOnceSplit<A, B(!new)>(x: A, rest: seq<A>, b: seq<B>, on: (A, B) -> bool)
    requires MatchesOnce([x] + rest, b, on)
    ensures MatchesOnce([x], b, on) && MatchesOnce(rest, b, on)
  {
    hide Distinct;
    assert forall y :: y in rest || y in [x] ==> y in [x] + rest;
  }

  /** A LEFT JOIN on a key of b never multiplies a row of a. */
  lemma {:induction false} LeftJoinKeepsRows<A, B(!new)>(a: seq<A>, b: seq<B>, on: (A, B) -> bool)
    requires MatchesOnce(a, b, on)
    ensures |LeftJoin(a, b, on)| == |a|
    ensures forall i :: 0 <= i < |a| ==> JoinedWith(LeftJoin(a, b, on)[i], a[i], b, on)
  {
    hide *;
    if a == [] {
      LeftJoinNothing(b, on);
    } else {
      var (x, rest) := (a[0], a[1..]);
      assert a == [x] + rest;
      MatchesOnceSplit(x, rest, b, on);
      SingleMatch(x, b, on);
      LeftJoinKeepsRows(rest, b, on);
      LeftJoinCons(x, rest, b, on);
    }
  }

  lemma LeftJoinNothing<A, B>(b: seq<B>, on: (A, B) -> bool)
    ensures LeftJoin([], b, on) == []
  {
  }

  lemma MatchesFrom<A, B>(x: A, found: seq<B>)
    ensures forall r :: r in Matches(x, found) ==> r.0 == x
  {
  }

  /** The matches of one row, when the rows of a differ. */
  lemma {:induction false} LeftJoinGroup<A, B>(
      a: seq<A>, b: seq<B>, on: (A, B) -> bool, k: nat, isK: ((A, Option<B>)) -> bool, matching: B -> bool)
    requires k < |a| && Distinct(a)
    requires forall r :: r in LeftJoin(a, b, on) ==> (isK(r) <==> r.0 == a[k])
    requires forall y :: y in b ==> (matching(y) <==> on(a[k], y))
    ensures Filter(LeftJoin(a, b, on), isK) == Matches(a[k], Filter(b, matching))
  {
    hide *;
    var (x, rest) := (a[0], a[1..]);
    assert a == [x] + rest;
    var (head, tail) := (Matches(x, Filter(b, y => on(x, y))), LeftJoin(rest, b, on));
    LeftJoinCons(x, rest, b, on);
    FilterAppend(head, tail, isK);
    MatchesFrom(x, Filter(b, y => on(x, y)));
    LeftJoinFrom(rest, b, on);
    DistinctTail(x, rest);
    assert forall r :: r in head || r in tail ==> r in head + tail;
    if k == 0 {
      FilterSame(b, matching, y => on(x, y));
      FilterAll(head, isK);
      FilterNone(tail, isK);
      assert head + [] == head;
    } else {
      assert rest[k - 1] == a[k];
      LeftJoinGroup(rest, b, on, k - 1, isK, matching);
      FilterNone(head, isK);
      assert [] + Filter(tail, isK) == Filter(tail, isK);
    }
  }

  lemma {:induction false} LeftJoinFrom<A, B>(a: seq<A>, b: seq<B>, on: (A, B) -> bool)
    ensures forall r :: r in LeftJoin(a, b, on) ==> r.0 in a
  {
    if a != [] {
      LeftJoinFrom(a[1..], b, on);
      assert a == [a[0]] + a[1..];
    }
  }

  lemma {:induction false} FilterAppend<T>(a: seq<T>, b: seq<T>, keep: T -> bool)
    ensures Filter(a + b, keep) == Filter(a, keep) + Filter(b, keep)
  {
    hide *;
    if a == [] {
      assert a + b == b;
      FilterNone(a, keep);
      assert [] + Filter(b, keep) == Filter(b, keep);
    } else {
      var (x, rest) := (a[0], a[1..]);
      assert a == [x] + rest && a + b == [x] + (rest + b);
      FilterAppend(rest, b, keep);
      FilterCons(x, rest, keep);
      FilterCons(x, rest + b, keep);
      var kept := if keep(x) then [x] else [];
      assert kept + (Filter(rest, keep) + Filter(b, keep)) == (kept + Filter(rest, keep)) + Filter(b, keep);
    }
  }

  lemma {:induction false} FilterAll<T>(rows: seq<T>, keep: T -> bool)
    requires forall x :: x in rows ==> keep(x)
    ensures Filter(rows, keep) == rows
  {
    if rows != [] {
      FilterAll(rows[1..], keep);
    }
  }

  lemma {:induction false} FilterNone<T>(rows: seq<T>, keep: T -> bool)
    requires forall x :: x in rows ==> !keep(x)
    ensures Filter(rows, keep) == []
  {
    if rows != [] {
      FilterNone(rows[1..], keep);
    }
  }

  // ---------- Grouping ----------

  /** Zero-filling a grouped relation gives every key the aggregate of its own rows. */
  lemma ZeroFillGroup<T, K(!new), V(!new)>(
      keys: seq<K>, rows: seq<T>, key: T -> K, aggregate: seq<T> -> V, zero: V, i: nat, isK: T -> bool)
    requires i < |keys| && zero == aggregate([])
    requires forall x :: x in rows ==> (isK(x) <==> key(x) == keys[i])
    ensures |ZeroFill(keys, GroupBy(rows, key, aggregate), zero)| == |keys|
    ensures ZeroFill(keys, GroupBy(rows, key, aggregate), zero)[i] == (keys[i], aggregate(Filter(rows, isK)))
  {
    hide Filter, Unique, Distinct, LeftJoin;
    var groups := GroupBy(rows, key, aggregate);
    var names := Unique(Map(rows, key));
    var on := KeyIs<K, V>();
    UniqueIs(Map(rows, key));
    GroupsDistinct(names, groups);
    LeftJoinKeepsRows(keys, groups, on);
    var joined := LeftJoin(keys, groups, on);
    assert JoinedWith(joined[i], keys[i], groups, on);
    if joined[i].1.None? {
      forall x | x in rows ensures !isK(x) {
        var n :| 0 <= n < |rows| && rows[n] == x;
        assert Map(rows, key)[n] in names;
        var m :| 0 <= m < |names| && names[m] == key(x);
        assert groups[m] in groups;
      }
      FilterNone(rows, isK);
    } else {
      FilterSame(rows, x => key(x) == keys[i], isK);
    }
  }

  /** Rows of a grouped relation differ in their keys. */
  lemma GroupsOnce<T, K(!new), V(!new)>(rows: seq<T>, key: T -> K, aggregate: seq<T> -> V)
    ensures Distinct(GroupBy(rows, key, aggregate))
    ensures forall g, h ::
              g in GroupBy(rows, key, aggregate) && h in GroupBy(rows, key, aggregate) && g.0 == h.0 ==> g == h
  {
    hide Distinct, Unique;
    UniqueIs(Map(rows, key));
    GroupsDistinct(Unique(Map(rows, key)), GroupBy(rows, key, aggregate));
  }

  /** Two LEFT JOINs on grouped relations keep one row per key, each with its own two aggregates. */
  lemma ZeroFillBothIs<K(!new), V(!new), J(!new), W(!new)>(
      keys: seq<K>, groups: seq<(K, V)>, zero: V, part: K -> J, others: seq<(J, W)>, otherZero: W, i: nat)
    requires i < |keys| && Distinct(groups) && Distinct(others)
    requires forall g, h :: g in groups && h in groups && g.0 == h.0 ==> g == h
    requires forall g, h :: g in others && h in others && g.0 == h.0 ==> g == h
    ensures |ZeroFillBoth(keys, groups, zero, part, others, otherZero)| == |keys|
    ensures |ZeroFill(keys, groups, zero)| == |ZeroFill(Map(keys, part), others, otherZero)| == |keys|
    ensures ZeroFillBoth(keys, groups, zero, part, others, otherZero)[i] ==
            (keys[i], (ZeroFill(keys, groups, zero)[i].1, ZeroFill(Map(keys, part), others, otherZero)[i].1))
  {
    hide Distinct, LeftJoin;
    var (on, onPart, onOther) := (KeyIs<K, V>(), PartIs<(K, V), K, J, W>(part), KeyIs<J, W>());
    LeftJoinKeepsRows(keys, groups, on);
    var first := LeftJoin(keys, groups, on);
    LeftJoinKeepsRows(first, others, onPart);
    LeftJoinKeepsRows(Map(keys, part), others, onOther);
    var (both, alone) := (LeftJoin(first, others, onPart), LeftJoin(Map(keys, part), others, onOther));
    assert JoinedWith(first[i], keys[i], groups, on);
    assert JoinedWith(both[i], first[i], others, onPart);
    assert JoinedWith(alone[i], part(keys[i]), others, onOther);
  }

  function KeyOf<K, V>(): ((K, V)) -> K { (g: (K, V)) => g.0 }

  /** The groups are the keys that have rows, each once, with the aggregate of its rows. */
  lemma GroupsAre<T(!new), K(!new), V(!new)>(rows: seq<T>, key: T -> K, aggregate: seq<T> -> V, isOf: K -> (T -> bool))
    requires forall k, x :: x in rows ==> (isOf(k)(x) <==> key(x) == k)
    ensures KeysDiffer(GroupBy(rows, key, aggregate), KeyOf<K, V>())
    ensures forall g :: g in GroupBy(rows, key, aggregate) <==>
              Filter(rows, isOf(g.0)) != [] && g.1 == aggregate(Filter(rows, isOf(g.0)))
  {
    hide Filter, Unique;
    var groups := GroupBy(rows, key, aggregate);
    var names := Unique(Map(rows, key));
    UniqueIs(Map(rows, key));
    forall i | 0 <= i < |names| ensures groups[i] == (names[i], aggregate(Filter(rows, isOf(names[i])))) {
      FilterSame(rows, x => key(x) == names[i], isOf(names[i]));
    }
    forall k ensures k in names <==> Filter(rows, isOf(k)) != [] {
      KeyHasRows(rows, key, isOf(k), k);
    }
    forall g: (K, V) | Filter(rows, isOf(g.0)) != [] && g.1 == aggregate(Filter(rows, isOf(g.0))) ensures g in groups {
      GroupListed(names, groups, g.0);
    }
  }

  lemma GroupListed<K(!new), V>(names: seq<K>, groups: seq<(K, V)>, k: K)
    requires k in names && |groups| == |names|
    requires forall i :: 0 <= i < |names| ==> groups[i].0 == names[i]
    ensures exists i :: 0 <= i < |groups| && groups[i].0 == k
  {
    var i :| 0 <= i < |names| && names[i] == k;
    assert groups[i].0 == k;
  }

  lemma KeyHasRows<T(!new), K>(rows: seq<T>, key: T -> K, isK: T -> bool, k: K)
    requires forall x :: x in rows ==> (isK(x) <==> key(x) == k)
    ensures k in Unique(Map(rows, key)) <==> Filter(rows, isK) != []
  {
    hide Filter, Unique, Map;
    var found := Filter(rows, isK);
    FilterMembers(rows, isK);
    UniqueIs(Map(rows, key));
    MapMembers(rows, key);
    if found != [] {
      assert found[0] in found;
    }
    if k in Map(rows, key) {
      var x :| x in rows && key(x) == k;
      assert x in found;
    }
  }

  lemma GroupsDistinct<K(!new), V(!new)>(names: seq<K>, groups: seq<(K, V)>)
    requires Distinct(names) && |groups| == |names|
    requires forall i :: 0 <= i < |names| ==> groups[i].0 == names[i]
    ensures Distinct(groups)
    ensures forall g, h :: g in groups && h in groups && g.0 == h.0 ==> g == h
  {
  }
}
