/** The recursive split plan that a 413 leaves for the head of the queue. */
module SplitPlan {
  import opened Basics
  import opened Batching

  /** Half of a refused batch, then its other half, then what the segment had beyond the batch. */
  function SplitHead(plan: seq<nat>, batchLength: nat): seq<nat> {
    var current := if plan == [] then batchLength else plan[0];
    var rest := if plan == [] then [] else plan[1..];
    var remainder := if current > batchLength then current - batchLength else 0;
    var left := (batchLength + 1) / 2;
    var right := batchLength - left;
    Positive([left, right, remainder]) + rest
  }

  function Positive(sizes: seq<nat>): seq<nat> {
    if sizes == [] then []
    else if sizes[0] > 0 then [sizes[0]] + Positive(sizes[1..])
    else Positive(sizes[1..])
  }

  /** The plan once its first count events are settled. */
  function Advance(plan: seq<nat>, count: nat): seq<nat> {
    if count == 0 || plan == [] then plan
    else if count < plan[0] then [plan[0] - count] + plan[1..]
    else Advance(plan[1..], count - plan[0])
  }

  /** The plan without its first count events: what covers them is gone, a cut segment keeps its rest. */
  ghost predicate CutAt(plan: seq<nat>, count: nat, advanced: seq<nat>) {
    && Sum(advanced) == (if count <= Sum(plan) then Sum(plan) - count else 0)
    && |advanced| <= |plan|
    && (advanced != [] ==>
          var kept := plan[|plan| - |advanced|..];
          advanced[0] <= kept[0] && advanced[1..] == kept[1..])
    && ((forall i :: 0 <= i < |plan| ==> plan[i] > 0) ==> forall i :: 0 <= i < |advanced| ==> advanced[i] > 0)
  }

  /** Advancing by any count cuts the plan there; with positive segments no other plan does. */
  lemma {:induction false} AdvanceIsCut(plan: seq<nat>, count: nat)
    ensures CutAt(plan, count, Advance(plan, count))
    decreases |plan|
  {
    hide CutAt;
    if count == 0 || plan == [] {
      CutNowhere(plan, count);
    } else if count < plan[0] {
      CutInFirst(plan, count);
    } else {
      AdvanceIsCut(plan[1..], count - plan[0]);
      CutBehindFirst(plan, count, Advance(plan[1..], count - plan[0]));
    }
  }

  lemma CutNowhere(plan: seq<nat>, count: nat)
    requires count == 0 || plan == []
    ensures CutAt(plan, count, plan)
  {
    assert plan[|plan| - |plan|..] == plan;
  }

  lemma CutInFirst(plan: seq<nat>, count: nat)
    requires plan != [] && 0 < count < plan[0]
    ensures CutAt(plan, count, [plan[0] - count] + plan[1..])
  {
    var advanced := [plan[0] - count] + plan[1..];
    assert advanced[1..] == plan[1..] && plan[|plan| - |advanced|..] == plan;
  }

  lemma CutBehindFirst(plan: seq<nat>, count: nat, advanced: seq<nat>)
    requires plan != [] && count >= plan[0] && CutAt(plan[1..], count - plan[0], advanced)
    ensures CutAt(plan, count, advanced)
  {
    assert plan[1..][|plan[1..]| - |advanced|..] == plan[|plan| - |advanced|..];
    if forall i :: 0 <= i < |plan| ==> plan[i] > 0 {
      forall i | 0 <= i < |plan[1..]| ensures plan[1..][i] > 0 {
        assert plan[1..][i] == plan[i + 1];
      }
    }
  }

  /**
   * advanceSplitSegments: the loop over the head segments. The result covers what the plan
   * covered without its first count events.
   */
  method AdvanceSplitSegments(plan: seq<nat>, count: nat) returns (advanced: seq<nat>)
    ensures advanced == Advance(plan, count)
    ensures CutAt(plan, count, advanced)
  {
    hide CutAt;
    AdvanceIsCut(plan, count);
    advanced := plan;
    var remaining := count;
    while remaining > 0 && |advanced| > 0
      invariant Advance(advanced, remaining) == Advance(plan, count)
      decreases |advanced|
    {
      var current := advanced[0];
      if remaining < current {
        return [current - remaining] + advanced[1..];
      }
      remaining := remaining - current;
      advanced := advanced[1..];
    }
  }

  lemma PositiveCons(size: nat, sizes: seq<nat>)
    ensures Positive([size] + sizes) == (if size > 0 then [size] else []) + Positive(sizes)
    ensures Positive([]) == []
  {
    assert ([size] + sizes)[1..] == sizes;
  }

  /** The filter that drops empty segments. */
  method KeepPositive(sizes: seq<nat>) returns (kept: seq<nat>)
    ensures kept == Positive(sizes)
  {
    hide *;
    kept := [];
    var i := 0;
    assert sizes[0..] == sizes && [] + Positive(sizes) == Positive(sizes);
    while i < |sizes|
      invariant 0 <= i <= |sizes|
      invariant kept + Positive(sizes[i..]) == Positive(sizes)
    {
      var rest := Positive(sizes[i + 1..]);
      assert sizes[i..] == [sizes[i]] + sizes[i + 1..];
      PositiveCons(sizes[i], sizes[i + 1..]);
      assert [] + rest == rest && kept + ([sizes[i]] + rest) == (kept + [sizes[i]]) + rest;
      if sizes[i] > 0 {
        kept := kept + [sizes[i]];
      }
      i := i + 1;
    }
    PositiveCons(0, []);
    assert sizes[i..] == [] && kept + [] == kept;
  }

  /** splitCurrentBatch: the head segment is taken off, its two halves and its remainder come in front. */
  method SplitCurrentBatch(plan: seq<nat>, batchLength: nat) returns (next: seq<nat>)
    ensures next == SplitHead(plan, batchLength)
  {
    hide Positive;
    var currentSegment := if |plan| > 0 then plan[0] else batchLength;
    var later := if |plan| > 0 then plan[1..] else [];
    var segmentRemainder := if currentSegment > batchLength then currentSegment - batchLength else 0;
    var left := (batchLength + 1) / 2;
    var right := batchLength - left;
    var replacement := KeepPositive([left, right, segmentRemainder]);
    next := replacement + later;
  }

  function Cap(plan: seq<nat>): nat {
    if plan == [] then MAX_EVENTS_PER_BATCH else plan[0]
  }

  /** Positive segments no larger than a batch, covering a head of the pending events. */
  ghost predicate PlanOk(plan: seq<nat>, pendingCount: nat) {
    && (forall i :: 0 <= i < |plan| ==> 0 < plan[i] <= MAX_EVENTS_PER_BATCH)
    && Sum(plan) <= pendingCount
  }

  /** Requests a plan can still cause under a server that refuses everything. */
  function Potential(plan: seq<nat>): int {
    if plan == [] then 0 else 2 * plan[0] - 1 + Potential(plan[1..])
  }

  lemma SplitShape(plan: seq<nat>, batchLength: nat)
    requires batchLength >= 2 && (plan != [] ==> batchLength <= plan[0])
    ensures var left := (batchLength + 1) / 2;
            var right := batchLength - left;
            var rest := if plan == [] then [] else plan[1..];
            && 0 < right <= left < batchLength
            && SplitHead(plan, batchLength) ==
                 (if plan != [] && plan[0] > batchLength then [left, right, plan[0] - batchLength]
                  else [left, right])
                 + rest
  {
    var left := (batchLength + 1) / 2;
    var right := batchLength - left;
    var remainder := if plan != [] && plan[0] > batchLength then plan[0] - batchLength else 0;
    assert [left, right, remainder][1..] == [right, remainder] && [right, remainder][1..] == [remainder];
    assert [remainder][1..] == [];
    assert Positive([remainder]) == if remainder > 0 then [remainder] else [];
    assert Positive([right, remainder]) == [right] + Positive([remainder]);
    assert Positive([left, right, remainder]) == [left] + Positive([right, remainder]);
  }

  lemma SumTwo(a: nat, b: nat, rest: seq<nat>)
    ensures Sum([a, b] + rest) == a + b + Sum(rest)
    ensures Potential([a, b] + rest) == 2 * a - 1 + 2 * b - 1 + Potential(rest)
  {
    assert ([a, b] + rest)[1..] == [b] + rest && ([b] + rest)[1..] == rest;
  }

  lemma SumThree(a: nat, b: nat, c: nat, rest: seq<nat>)
    ensures Sum([a, b, c] + rest) == a + b + c + Sum(rest)
    ensures Potential([a, b, c] + rest) == 2 * a - 1 + 2 * b - 1 + 2 * c - 1 + Potential(rest)
  {
    assert ([a, b, c] + rest)[1..] == [b, c] + rest;
    SumTwo(b, c, rest);
  }

  /** A further 413 keeps the covered head range and strictly lowers the potential. */
  lemma SplitKeepsRange(plan: seq<nat>, batchLength: nat, pendingCount: nat)
    requires PlanOk(plan, pendingCount)
    requires 2 <= batchLength <= pendingCount && batchLength <= Cap(plan)
    ensures PlanOk(SplitHead(plan, batchLength), pendingCount)
    ensures Sum(SplitHead(plan, batchLength)) == if plan == [] then batchLength else Sum(plan)
    ensures Potential(SplitHead(plan, batchLength)) < if plan == [] then 2 * batchLength - 1 else Potential(plan)
    ensures SplitHead(plan, batchLength) != [] && Cap(SplitHead(plan, batchLength)) < batchLength
  {
    SplitShape(plan, batchLength);
    var left := (batchLength + 1) / 2;
    var rest := if plan == [] then [] else plan[1..];
    SumTwo(left, batchLength - left, rest);
    if plan != [] && plan[0] > batchLength {
      SumThree(left, batchLength - left, plan[0] - batchLength, rest);
    }
  }

  /** Settling a batch of the head segment removes exactly its events from the plan. */
  lemma AdvanceKeepsRange(plan: seq<nat>, count: nat, pendingCount: nat)
    requires PlanOk(plan, pendingCount)
    requires 0 < count <= pendingCount && count <= Cap(plan)
    ensures PlanOk(Advance(plan, count), pendingCount - count)
    ensures Sum(Advance(plan, count)) == if plan == [] then 0 else Sum(plan) - count
    ensures plan != [] ==> Potential(Advance(plan, count)) < Potential(plan)
  {
    if plan != [] {
      if count < plan[0] {
        assert ([plan[0] - count] + plan[1..])[1..] == plan[1..];
      } else {
        assert Advance(plan, count) == plan[1..];
      }
    }
  }

  // ---------- A server that refuses everything as too large ----------

  /** One request answered 413: a single event is settled by quarantine, anything else is split. */
  function AfterRefusal(plan: seq<nat>, batchLength: nat): seq<nat> {
    if batchLength == 1 then Advance(plan, 1) else SplitHead(plan, batchLength)
  }

  /** A run of refused requests; byte caps may cut each batch below its segment. */
  ghost predicate Refused(plan: seq<nat>, batches: seq<nat>)
    decreases |batches|
  {
    batches == [] ||
    (plan != [] && 1 <= batches[0] <= plan[0] && Refused(AfterRefusal(plan, batches[0]), batches[1..]))
  }

  function PlanAfter(plan: seq<nat>, batches: seq<nat>): seq<nat>
    decreases |batches|
  {
    if batches == [] then plan else PlanAfter(AfterRefusal(plan, batches[0]), batches[1..])
  }

  /** The number of single-event batches, which are the quarantined events. */
  function Singles(batches: seq<nat>): nat {
    if batches == [] then 0 else (if batches[0] == 1 then 1 else 0) + Singles(batches[1..])
  }

  lemma {:induction false} RefusedRun(plan: seq<nat>, batches: seq<nat>)
    requires PlanOk(plan, Sum(plan)) && Refused(plan, batches)
    ensures |batches| + Potential(PlanAfter(plan, batches)) <= Potential(plan)
    ensures Potential(PlanAfter(plan, batches)) >= 0
    ensures Singles(batches) + Sum(PlanAfter(plan, batches)) == Sum(plan)
    ensures PlanOk(PlanAfter(plan, batches), Sum(PlanAfter(plan, batches)))
    decreases |batches|
  {
    if batches == [] {
      PotentialPositive(plan);
    } else {
      if batches[0] == 1 {
        AdvanceKeepsRange(plan, 1, Sum(plan));
      } else {
        SplitKeepsRange(plan, batches[0], Sum(plan));
      }
      RefusedRun(AfterRefusal(plan, batches[0]), batches[1..]);
    }
  }

  lemma {:induction false} PotentialPositive(plan: seq<nat>)
    requires forall i :: 0 <= i < |plan| ==> 0 < plan[i] <= MAX_EVENTS_PER_BATCH
    ensures Potential(plan) >= 0
    ensures plan != [] ==> Potential(plan) > 0
  {
    if plan != [] {
      PotentialPositive(plan[1..]);
    }
  }

  /** The first refusal of a batch without a plan acts as if the batch were its own segment. */
  lemma FirstRefusal(n: nat)
    requires n >= 1
    ensures AfterRefusal([], n) == AfterRefusal([n], n)
  {
    if n > 1 {
      SplitShape([], n);
      SplitShape([n], n);
      assert [n][1..] == [];
    } else {
      assert Advance([1], 1) == [];
    }
  }

  /** A refused request alone, and one more in front of a run. */
  lemma RefusedNone(plan: seq<nat>)
    ensures Refused(plan, []) && PlanAfter(plan, []) == plan && Singles([]) == 0
  {
  }

  lemma RefusedFirst(plan: seq<nat>, n: nat, batches: seq<nat>)
    requires plan != [] && 1 <= n <= plan[0] && Refused(AfterRefusal(plan, n), batches)
    ensures Refused(plan, [n] + batches)
    ensures PlanAfter(plan, [n] + batches) == PlanAfter(AfterRefusal(plan, n), batches)
    ensures Singles([n] + batches) == (if n == 1 then 1 else 0) + Singles(batches)
  {
    hide AfterRefusal;
    assert ([n] + batches)[1..] == batches;
  }

  /**
   * A plan of one segment of n events: at most 2n - 1 refused requests, one of which is
   * still to come while the plan is not empty, and every event that left it went alone.
   */
  lemma RefusedSegment(n: nat, batches: seq<nat>)
    requires 1 <= n <= MAX_EVENTS_PER_BATCH && Refused([n], batches)
    ensures var plan := PlanAfter([n], batches);
            && |batches| + (if plan == [] then 0 else 1) <= 2 * n - 1
            && Singles(batches) + Sum(plan) == n
            && PlanOk(plan, Sum(plan))
  {
    hide *;
    OneSegment(n);
    RefusedRun([n], batches);
    PlanPositive(PlanAfter([n], batches));
  }

  lemma OneSegment(n: nat)
    requires 1 <= n <= MAX_EVENTS_PER_BATCH
    ensures Sum([n]) == n && Potential([n]) == 2 * n - 1 && PlanOk([n], n)
  {
    assert [n][1..] == [];
  }

  lemma PlanPositive(plan: seq<nat>)
    requires PlanOk(plan, Sum(plan))
    ensures plan != [] ==> Potential(plan) > 0
  {
    hide Potential, Sum;
    PotentialPositive(plan);
  }
}
