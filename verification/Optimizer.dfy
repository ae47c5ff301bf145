/** Loan size sampling and the search for the best size (go/internal/optimizer/optimizer.go).

    The evaluator is a deterministic function; the order in which workers deliver is arbitrary. */
module Optimizer {
  import opened Arith
  import opened Options

  /** Net profit of a size, or None when the quote fails. */
  type Evaluator = int -> Option<int>

  datatype Outcome = Outcome(amount: int, profit: Option<int>)

  datatype Loan = Loan(amount: int, profit: int)

  // ---------------------------------------------------------------- the sample grid

  function SampleCount(samples: int): nat { if samples < 2 then 2 else samples }

  function Sample(min: int, max: int, n: nat, i: nat): int
    requires n >= 2
  {
    min + (max - min) * i / (n - 1)
  }

  ghost predicate Increasing(s: seq<int>) { forall i, j :: 0 <= i < j < |s| ==> s[i] < s[j] }

  function Insert(s: seq<int>, x: int): seq<int> {
    if s == [] || s[|s| - 1] < x then s + [x] else Insert(s[..|s| - 1], x) + [s[|s| - 1]]
  }

  lemma {:induction false} InsertFacts(s: seq<int>, x: int)
    requires Increasing(s) && x !in s
    ensures Increasing(Insert(s, x)) && |Insert(s, x)| == |s| + 1
    ensures forall y :: y in Insert(s, x) <==> y in s || y == x
    decreases |s|
  {
    if s != [] && s[|s| - 1] >= x {
      var init, last := s[..|s| - 1], s[|s| - 1];
      assert s == init + [last];
      InsertFacts(init, x);
      assert last in s;
      var t := Insert(init, x);
      forall i | 0 <= i < |t| ensures t[i] < last {
        assert t[i] in t;
        if t[i] != x { var j :| 0 <= j < |init| && init[j] == t[i]; assert s[j] < s[|s| - 1]; }
      }
    }
  }

  function Samples(min: int, max: int, n: nat): seq<int>
    requires n >= 2
  {
    seq(n, i requires 0 <= i < n => Sample(min, max, n, i))
  }

  /** The distinct values of an ascending list. */
  function Distinct(s: seq<int>): seq<int> {
    if |s| <= 1 then s
    else
      var d := Distinct(s[..|s| - 1]);
      if s[|s| - 1] == s[|s| - 2] then d else d + [s[|s| - 1]]
  }

  /** The sizes tried: the distinct samples, ascending. */
  function Grid(min: int, max: int, samples: int): seq<int> { Distinct(Samples(min, max, SampleCount(samples))) }

  ghost predicate Ascends(s: seq<int>, least: int, most: int) {
    forall i :: 0 <= i < |s| - 1 ==> least <= Gap(s, i) <= most
  }

  function Gap(s: seq<int>, i: nat): int
    requires i + 1 < |s|
  {
    s[i + 1] - s[i]
  }

  lemma AscendsInit(s: seq<int>, least: int, most: int)
    requires |s| > 1
    ensures Ascends(s, least, most) <==> Ascends(s[..|s| - 1], least, most) && least <= Gap(s, |s| - 2) <= most
  {
    var init := s[..|s| - 1];
    assert forall i :: 0 <= i < |s| - 2 ==> Gap(init, i) == Gap(s, i);
  }

  lemma {:induction false} DistinctOrder(s: seq<int>, most: int)
    requires |s| > 0 && Ascends(s, 0, most)
    ensures var d := Distinct(s); |d| > 0 && Increasing(d) && d[0] == s[0] && d[|d| - 1] == s[|s| - 1]
    decreases |s|
  {
    if |s| > 1 {
      AscendsInit(s, 0, most);
      DistinctOrder(s[..|s| - 1], most);
      var d := Distinct(s[..|s| - 1]);
      assert forall i :: 0 <= i < |d| ==> d[i] <= d[|d| - 1];
    }
  }

  lemma {:induction false} DistinctMembers(s: seq<int>, x: int)
    ensures x in Distinct(s) <==> x in s
    decreases |s|
  {
    if |s| > 1 {
      var init := s[..|s| - 1];
      DistinctMembers(init, x);
      assert s == init + [s[|s| - 1]];
      assert init[|init| - 1] == s[|s| - 2] && init[|init| - 1] in init;
    }
  }

  lemma {:induction false} DistinctSize(s: seq<int>, most: int)
    requires |s| > 0
    ensures Ascends(s, 1, most) ==> |Distinct(s)| == |s|
    ensures Ascends(s, 0, 1) ==> |Distinct(s)| == s[|s| - 1] - s[0] + 1
    decreases |s|
  {
    if |s| > 1 {
      AscendsInit(s, 1, most);
      AscendsInit(s, 0, 1);
      DistinctSize(s[..|s| - 1], most);
    }
  }

  lemma DistinctFacts(s: seq<int>, most: int)
    requires |s| > 0 && Ascends(s, 0, most)
    ensures var d := Distinct(s);
            && |d| > 0 && Increasing(d) && d[0] == s[0] && d[|d| - 1] == s[|s| - 1]
            && (Ascends(s, 1, most) ==> |d| == |s|)
            && (Ascends(s, 0, 1) ==> |d| == s[|s| - 1] - s[0] + 1)
            && forall x :: x in d <==> x in s
  {
    DistinctOrder(s, most);
    DistinctSize(s, most);
    forall x ensures x in Distinct(s) <==> x in s { DistinctMembers(s, x); }
  }

  /** Consecutive samples differ by the step rounded down, or one more. */
  lemma SampleStep(min: int, max: int, n: nat, i: nat)
    requires n >= 2 && min <= max
    ensures var step := (max - min) / (n - 1);
            0 <= step <= Sample(min, max, n, i + 1) - Sample(min, max, n, i) <= step + 1
  {
    var d, m := max - min, n - 1;
    assert d * (i + 1) == d * i + d;
    DivAdd(d * i, d, m);
  }

  lemma SampleEnds(min: int, max: int, n: nat)
    requires n >= 2
    ensures Sample(min, max, n, 0) == min && Sample(min, max, n, n - 1) == max
  {
    QuotientIs((max - min) * (n - 1), max - min, n - 1);
  }

  lemma StepSize(d: nat, m: nat)
    requires m > 0
    ensures d >= m ==> d / m >= 1
    ensures d < m ==> d / m == 0
  {
    if d < m { QuotientIs(d, 0, m); } else { DivAdd(d - m, m, m); }
  }

  lemma SamplesAscend(min: int, max: int, n: nat)
    requires n >= 2 && min <= max
    ensures var s, step := Samples(min, max, n), (max - min) / (n - 1);
            step >= 0 && Ascends(s, step, step + 1) && s[0] == min && s[n - 1] == max
  {
    var s, step := Samples(min, max, n), (max - min) / (n - 1);
    SampleEnds(min, max, n);
    forall i | 0 <= i < |s| - 1 ensures 0 <= step <= Gap(s, i) <= step + 1 { SampleStep(min, max, n, i); }
    SampleStep(min, max, n, 0);
  }

  /** The grid: both ends, every sample inside the range, and min(n, width + 1) of them: a range narrower than
      the number of samples is tried in full. */
  lemma GridExact(min: int, max: int, samples: int)
    requires min <= max
    ensures var n, g := SampleCount(samples), Grid(min, max, samples);
            && |g| == (if max - min + 1 < n then max - min + 1 else n)
            && Increasing(g) && g[0] == min && g[|g| - 1] == max
            && forall a :: a in g <==> a in Samples(min, max, n)
  {
    var n := SampleCount(samples);
    var s, step := Samples(min, max, n), (max - min) / (n - 1);
    SamplesAscend(min, max, n);
    DistinctFacts(s, step + 1);
    StepSize(max - min, n - 1);
    if max - min >= n - 1 { assert Ascends(s, 1, step + 1); } else { assert Ascends(s, 0, 1); }
  }

  lemma GridInRange(min: int, max: int, samples: int)
    requires min <= max
    ensures forall a :: a in Grid(min, max, samples) ==> min <= a <= max
  {
    var g := Grid(min, max, samples);
    GridExact(min, max, samples);
    forall a | a in g ensures min <= a <= max { var i :| 0 <= i < |g| && g[i] == a; }
  }

  /** No blind spot: every size of the range is a sample or lies at most the rounded-down step above one. */
  lemma {:induction false} NearSample(min: int, max: int, n: nat, k: nat, a: int) returns (i: nat)
    requires n >= 2 && min <= max && min <= a < Sample(min, max, n, k)
    ensures i < k && Sample(min, max, n, i) <= a <= Sample(min, max, n, i) + (max - min) / (n - 1)
    decreases k
  {
    SampleEnds(min, max, n);
    if a < Sample(min, max, n, k - 1) {
      i := NearSample(min, max, n, k - 1, a);
    } else {
      i := k - 1;
      SampleStep(min, max, n, k - 1);
    }
  }

  lemma {:induction false} IncreasingUnique(s: seq<int>, t: seq<int>)
    requires Increasing(s) && Increasing(t) && forall x :: x in s <==> x in t
    ensures s == t
    decreases |s|
  {
    assert t != [] ==> t[0] in t;
    if s != [] {
      assert s[0] in s && t != [];
      var x, y := s[|s| - 1], t[|t| - 1];
      assert x in s && y in t;
      LastIsGreatest(s, y);
      LastIsGreatest(t, x);
      DropLast(s);
      DropLast(t);
      assert x == y;
      var s', t' := s[..|s| - 1], t[..|t| - 1];
      forall v ensures v in s' <==> v in t' {
        assert v in s <==> v in t;
        assert v in s' <==> v in s && v != x;
        assert v in t' <==> v in t && v != y;
      }
      IncreasingUnique(s', t');
      assert s == s[..|s| - 1] + [x] && t == t[..|t| - 1] + [x];
    }
  }

  lemma LastIsGreatest(s: seq<int>, x: int)
    requires Increasing(s) && x in s
    ensures x <= s[|s| - 1]
  {
    var i :| 0 <= i < |s| && s[i] == x;
  }

  lemma DropLast(s: seq<int>)
    requires Increasing(s) && s != []
    ensures Increasing(s[..|s| - 1])
    ensures forall x :: x in s[..|s| - 1] <==> x in s && x != s[|s| - 1]
  {
    forall x | x in s && x != s[|s| - 1] ensures x in s[..|s| - 1] {
      var i :| 0 <= i < |s| && s[i] == x;
      assert s[..|s| - 1][i] == x;
    }
  }

  method Candidates(min: int, max: int, samples: int) returns (amounts: seq<int>)
    requires min <= max
    ensures amounts == Grid(min, max, samples)
  {
    var n := SampleCount(samples);
    ghost var s := Samples(min, max, n);
    var values := {};
    amounts := [];
    for i := 0 to n
      invariant Increasing(amounts) && forall a :: (a in values <==> a in s[..i]) && (a in amounts <==> a in s[..i])
    {
      var amount := Sample(min, max, n, i);
      assert s[..i + 1] == s[..i] + [amount];
      if amount !in values {
        InsertFacts(amounts, amount);
        amounts := Insert(amounts, amount);
      }
      values := values + {amount};
    }
    assert s[..n] == s;
    GridExact(min, max, samples);
    IncreasingUnique(amounts, Grid(min, max, samples));
  }

  // ---------------------------------------------------------------- workers

  /** The worker pool: how many sizes were handed out, the sizes being evaluated, the outcomes delivered, whether
      the job channel is closed, and whether the context has ended. */
  datatype Pool = Pool(next: nat, busy: seq<int>, results: seq<Outcome>, closed: bool, ended: bool)

  /** `answered` is false for an evaluation that fails because the context has ended. */
  datatype Event = HandOut | Deliver(worker: nat, answered: bool) | Done | Cancel | Stop

  /** The job channel is closed after the last size, or earlier when the context has ended; sizes may still be
      handed out until then, and evaluations under way may fail or not. */
  ghost predicate PoolStep(eval: Evaluator, amounts: seq<int>, workers: nat, p: Pool, e: Event, q: Pool) {
    match e
    case HandOut =>
      && !p.closed && p.next < |amounts| && |p.busy| < workers
      && q == p.(next := p.next + 1, busy := p.busy + [amounts[p.next]])
    case Deliver(i, answered) =>
      && i < |p.busy| && (answered || p.ended)
      && q == p.(busy := p.busy[..i] + p.busy[i + 1..],
                 results := p.results + [Outcome(p.busy[i], if answered then eval(p.busy[i]) else None)])
    case Done => !p.closed && p.next == |amounts| && q == p.(closed := true)
    case Cancel => !p.ended && q == p.(ended := true)
    case Stop => !p.closed && p.ended && q == p.(closed := true)
  }

  ghost function Evals(eval: Evaluator, amounts: seq<int>): seq<Outcome> {
    seq(|amounts|, i requires 0 <= i < |amounts| => Outcome(amounts[i], eval(amounts[i])))
  }

  ghost function Sizes(results: seq<Outcome>): seq<int> {
    seq(|results|, i requires 0 <= i < |results| => results[i].amount)
  }

  /** Each outcome is that of its size, or a failure once the context has ended. */
  ghost predicate Genuine(eval: Evaluator, results: seq<Outcome>, ended: bool) {
    forall o :: o in results ==> o.profit == eval(o.amount) || (ended && o.profit == None)
  }

  /** The outcomes are those of the first sizes, in some order. */
  ghost predicate Delivered(eval: Evaluator, amounts: seq<int>, results: seq<Outcome>, ended: bool) {
    |results| <= |amounts| && multiset(Sizes(results)) == multiset(amounts[..|results|])
        && Genuine(eval, results, ended)
  }

  ghost predicate PoolRun(eval: Evaluator, amounts: seq<int>, workers: nat, run: seq<Pool>, events: seq<Event>) {
    && |run| == |events| + 1 && run[0] == Pool(0, [], [], false, false)
    && forall i :: 0 <= i < |events| ==> PoolStep(eval, amounts, workers, run[i], events[i], run[i + 1])
  }

  ghost predicate PoolInvariant(eval: Evaluator, amounts: seq<int>, workers: nat, p: Pool) {
    && p.next <= |amounts| && |p.busy| <= workers && |p.results| + |p.busy| == p.next
    && multiset(Sizes(p.results)) + multiset(p.busy) == multiset(amounts[..p.next])
    && Genuine(eval, p.results, p.ended)
    && (p.closed && !p.ended ==> p.next == |amounts|)
  }

  lemma DeliverKeeps(eval: Evaluator, amounts: seq<int>, workers: nat, p: Pool, i: nat, answered: bool, q: Pool)
    requires PoolInvariant(eval, amounts, workers, p) && PoolStep(eval, amounts, workers, p, Deliver(i, answered), q)
    ensures PoolInvariant(eval, amounts, workers, q)
  {
    var a := p.busy[i];
    assert p.busy == p.busy[..i] + [a] + p.busy[i + 1..];
    assert multiset(p.busy) == multiset(q.busy) + multiset{a};
    assert Sizes(q.results) == Sizes(p.results) + [a];
  }

  lemma PoolStepKeeps(eval: Evaluator, amounts: seq<int>, workers: nat, p: Pool, e: Event, q: Pool)
    requires PoolInvariant(eval, amounts, workers, p) && PoolStep(eval, amounts, workers, p, e, q)
    ensures PoolInvariant(eval, amounts, workers, q)
  {
    match e
    case HandOut => assert amounts[..p.next + 1] == amounts[..p.next] + [amounts[p.next]];
    case Deliver(i, answered) => DeliverKeeps(eval, amounts, workers, p, i, answered, q);
    case Done =>
    case Cancel =>
    case Stop =>
  }

  /** The results channel is closed: no more sizes, and every worker has returned. */
  ghost predicate Finished(p: Pool) { p.closed && p.busy == [] }

  /** With at least one worker the pool never blocks before it has finished. */
  lemma PoolNeverStuck(eval: Evaluator, amounts: seq<int>, workers: nat, p: Pool) returns (e: Event, q: Pool)
    requires workers > 0 && PoolInvariant(eval, amounts, workers, p) && !Finished(p)
    ensures PoolStep(eval, amounts, workers, p, e, q) && !e.Cancel?
  {
    if p.busy != [] {
      e := Deliver(0, true);
      q := p.(busy := p.busy[..0] + p.busy[1..], results := p.results + [Outcome(p.busy[0], eval(p.busy[0]))]);
    } else if p.next < |amounts| {
      e, q := HandOut, p.(next := p.next + 1, busy := p.busy + [amounts[p.next]]);
    } else {
      e, q := Done, p.(closed := true);
    }
  }

  /** Every run of the pool: never more busy workers than configured; once they are idle the delivered outcomes
      are for a prefix of the sizes, in some order, each genuine unless the context has ended; and a run that
      closes without the context having ended has handed out every size. */
  lemma {:induction false} PoolDelivers(eval: Evaluator, amounts: seq<int>, workers: nat, run: seq<Pool>,
                                        events: seq<Event>)
    requires PoolRun(eval, amounts, workers, run, events)
    ensures PoolInvariant(eval, amounts, workers, run[|events|])
    ensures var p := run[|events|];
            && (p.busy == [] ==> Delivered(eval, amounts, p.results, p.ended))
            && (p.closed && !p.ended ==> p.next == |amounts|)
    decreases |run|
  {
    if events != [] {
      var n := |events| - 1;
      assert forall i :: 0 <= i < n ==> events[..n][i] == events[i];
      assert forall i :: 0 <= i <= n ==> run[..n + 1][i] == run[i];
      PoolDelivers(eval, amounts, workers, run[..n + 1], events[..n]);
      assert run[..n + 1][n] == run[n];
      PoolStepKeeps(eval, amounts, workers, run[n], events[n], run[n + 1]);
    }
  }

  /** What the search receives from the workers: the outcomes in order of arrival, and whether the context ended. */
  datatype Arrival = Arrival(results: seq<Outcome>, cancelled: bool)

  /** Some finished run of the pool delivers that. */
  ghost predicate FromPool(eval: Evaluator, amounts: seq<int>, workers: nat, arrival: Arrival) {
    exists run, events :: PoolRun(eval, amounts, workers, run, events) && Yields(run[|events|], arrival)
  }

  ghost predicate Yields(last: Pool, arrival: Arrival) {
    Finished(last) && arrival == Arrival(last.results, last.ended)
  }

  /** Without a cancellation every size arrives exactly once, with its own outcome. */
  lemma ArrivalIsDelivered(eval: Evaluator, amounts: seq<int>, workers: nat, arrival: Arrival)
    requires FromPool(eval, amounts, workers, arrival)
    ensures Delivered(eval, amounts, arrival.results, arrival.cancelled)
    ensures !arrival.cancelled ==>
        multiset(Sizes(arrival.results)) == multiset(amounts) && |arrival.results| == |amounts|
  {
    var run, events :| PoolRun(eval, amounts, workers, run, events) && Yields(run[|events|], arrival);
    PoolDelivers(eval, amounts, workers, run, events);
    assert amounts[..|amounts|] == amounts;
  }

  // ---------------------------------------------------------------- the best size

  /** `best` is a most profitable outcome, None when every quote failed. */
  ghost predicate Best(results: seq<Outcome>, best: Option<Loan>) {
    match best
    case None => forall o :: o in results ==> o.profit == None
    case Some(l) =>
      && Outcome(l.amount, Some(l.profit)) in results
      && forall o :: o in results && o.profit.Some? ==> o.profit.value <= l.profit
  }

  ghost predicate BestOf(eval: Evaluator, amounts: seq<int>, best: Option<Loan>) { Best(Evals(eval, amounts), best) }

  /** Outcome i is the first of the most profitable ones. */
  ghost predicate FirstBest(results: seq<Outcome>, i: nat) {
    && i < |results| && results[i].profit.Some?
    && (forall j :: 0 <= j < i && results[j].profit.Some? ==> results[j].profit.value < results[i].profit.value)
    && (forall j :: i < j < |results| && results[j].profit.Some? ==> results[j].profit.value <= results[i].profit.value)
  }

  lemma FirstIsBest(results: seq<Outcome>, i: nat)
    requires FirstBest(results, i)
    ensures Best(results, Some(Loan(results[i].amount, results[i].profit.value)))
  {
    assert results[i] in results;
    forall o | o in results && o.profit.Some? ensures o.profit.value <= results[i].profit.value {
      var j :| 0 <= j < |results| && results[j] == o;
    }
  }

  /** The draining loop over the outcomes as they arrive: the first of the most profitable ones wins. */
  method Drain(results: seq<Outcome>) returns (best: Option<Loan>, evaluated: nat, ghost at: nat)
    ensures Best(results, best) && evaluated == |results|
    ensures best.Some? ==> FirstBest(results, at) && best.value == Loan(results[at].amount, results[at].profit.value)
  {
    best, evaluated, at := None, 0, 0;
    for i := 0 to |results|
      invariant evaluated == i && (best == None ==> forall j :: 0 <= j < i ==> results[j].profit == None)
      invariant best.Some? ==>
        FirstBest(results[..i], at) && best.value == Loan(results[at].amount, results[at].profit.value)
    {
      var out := results[i];
      evaluated := evaluated + 1;
      if out.profit.Some? && (best == None || out.profit.value > best.value.profit) {
        best, at := Some(Loan(out.amount, out.profit.value)), i;
      }
    }
    assert results[..|results|] == results;
    if best.Some? { FirstIsBest(results, at); }
  }

  /** Success, the profit, and a unique winning size do not depend on the arrival order. */
  lemma ArrivalOrderIrrelevant(results: seq<Outcome>, arrived: seq<Outcome>, best: Option<Loan>, other: Option<Loan>)
    requires multiset(results) == multiset(arrived) && Best(results, best) && Best(arrived, other)
    ensures best.Some? <==> other.Some?
    ensures best.Some? ==> best.value.profit == other.value.profit
    ensures (best.Some? &&
             forall o :: o in results && o.profit == Some(best.value.profit) ==> o.amount == best.value.amount)
            ==> best == other
  {
    assert forall o :: (o in results <==> o in multiset(results)) && (o in arrived <==> o in multiset(arrived));
    if best.Some? { assert Outcome(best.value.amount, Some(best.value.profit)) in arrived; }
    if other.Some? { assert Outcome(other.value.amount, Some(other.value.profit)) in results; }
  }

  /** The sizes whose own outcome arrived. */
  ghost function Answered(eval: Evaluator, results: seq<Outcome>): seq<int> {
    if results == [] then []
    else
      var o := results[|results| - 1];
      Answered(eval, results[..|results| - 1]) + (if o.profit == eval(o.amount) then [o.amount] else [])
  }

  lemma {:induction false} AnsweredIs(eval: Evaluator, results: seq<Outcome>, a: int)
    ensures a in Answered(eval, results) <==> Outcome(a, eval(a)) in results
    ensures multiset(Answered(eval, results)) <= multiset(Sizes(results))
  {
    if results != [] {
      var init, o := results[..|results| - 1], results[|results| - 1];
      AnsweredIs(eval, init, a);
      assert results == init + [o] && Sizes(results) == Sizes(init) + [o.amount];
    }
  }

  /** The best of the outcomes is the best of the sizes that were answered. */
  lemma BestOfAnswered(eval: Evaluator, results: seq<Outcome>, ended: bool, best: Option<Loan>)
    requires Genuine(eval, results, ended) && Best(results, best)
    ensures BestOf(eval, Answered(eval, results), best)
    ensures best.Some? ==> eval(best.value.amount) == Some(best.value.profit) && best.value.amount in Sizes(results)
  {
    var sizes := Answered(eval, results);
    forall a ensures a in sizes <==> Outcome(a, eval(a)) in results { AnsweredIs(eval, results, a); }
    var evals := Evals(eval, sizes);
    forall o | o in evals ensures o in results { assert o.amount in sizes; }
    if best.Some? {
      var l := Outcome(best.value.amount, Some(best.value.profit));
      var i :| 0 <= i < |results| && results[i] == l;
      assert Sizes(results)[i] == l.amount && l.amount in sizes;
      var j :| 0 <= j < |sizes| && sizes[j] == l.amount;
      assert evals[j] == l;
    }
  }

  /** Only which sizes are compared matters. */
  lemma BestOfSame(eval: Evaluator, s: seq<int>, t: seq<int>, best: Option<Loan>)
    requires (forall a :: a in s <==> a in t) && BestOf(eval, s, best)
    ensures BestOf(eval, t, best)
  {
    var x, y := Evals(eval, s), Evals(eval, t);
    forall o | o in x ensures o in y {
      assert o.amount in t;
      var i :| 0 <= i < |t| && t[i] == o.amount;
      assert y[i] == o;
    }
    forall o | o in y ensures o in x {
      assert o.amount in s;
      var i :| 0 <= i < |s| && s[i] == o.amount;
      assert x[i] == o;
    }
  }

  /** Uncancelled, all sizes are compared. */
  lemma BestOfAll(eval: Evaluator, amounts: seq<int>, results: seq<Outcome>, best: Option<Loan>)
    requires Genuine(eval, results, false) && Best(results, best) && multiset(Sizes(results)) == multiset(amounts)
    ensures BestOf(eval, amounts, best)
  {
    var sizes := Answered(eval, results);
    BestOfAnswered(eval, results, false, best);
    forall a ensures a in sizes <==> a in amounts {
      AnsweredIs(eval, results, a);
      assert a in amounts <==> a in multiset(Sizes(results));
      if a in Sizes(results) {
        var i :| 0 <= i < |results| && Sizes(results)[i] == a;
        assert results[i] in results && results[i] == Outcome(a, eval(a));
      }
    }
    BestOfSame(eval, sizes, amounts, best);
  }

  /** The sizes a search compares. */
  lemma Compared(eval: Evaluator, amounts: seq<int>, workers: nat, arrival: Arrival, best: Option<Loan>)
    returns (answered: seq<int>)
    requires FromPool(eval, amounts, workers, arrival) && Best(arrival.results, best)
    ensures BestOf(eval, answered, best) && |arrival.results| <= |amounts|
    ensures multiset(answered) <= multiset(amounts[..|arrival.results|])
    ensures !arrival.cancelled ==> answered == amounts && |arrival.results| == |amounts|
    ensures best.Some? ==> best.value.amount in amounts && eval(best.value.amount) == Some(best.value.profit)
  {
    var results := arrival.results;
    ArrivalIsDelivered(eval, amounts, workers, arrival);
    BestOfAnswered(eval, results, arrival.cancelled, best);
    answered := Answered(eval, results);
    AnsweredIs(eval, results, 0);
    assert amounts[..|amounts|] == amounts;
    if best.Some? {
      assert best.value.amount in multiset(Sizes(results));
      assert best.value.amount in amounts[..|results|];
    }
    if !arrival.cancelled {
      BestOfAll(eval, amounts, results, best);
      answered := amounts;
    }
  }

  /** One search.  `arrive` stands for the workers, `answered` for the sizes whose evaluation was not cut off.
      Without a cancellation the result is the best size of the whole grid, otherwise of the sizes answered, all
      among the first `evaluated` of the grid. */
  method Optimize(eval: Evaluator, workers: nat, arrive: seq<int> -> Arrival, min: int, max: int, samples: int)
    returns (best: Option<Loan>, evaluated: nat, ghost answered: seq<int>)
    requires forall amounts :: FromPool(eval, amounts, workers, arrive(amounts))
    ensures evaluated <= SampleCount(samples) && BestOf(eval, answered, best)
    ensures min <= 0 || max < min ==> best == None && evaluated == 0 && answered == []
    ensures 0 < min <= max ==>
      evaluated <= |Grid(min, max, samples)| && multiset(answered) <= multiset(Grid(min, max, samples)[..evaluated])
    ensures 0 < min <= max && !arrive(Grid(min, max, samples)).cancelled ==>
      evaluated == |Grid(min, max, samples)| && answered == Grid(min, max, samples)
    ensures best.Some? ==> min <= best.value.amount <= max && eval(best.value.amount) == Some(best.value.profit)
  {
    if min <= 0 || max < min { return None, 0, []; }
    var amounts := Candidates(min, max, samples);
    var arrival := arrive(amounts);
    ghost var at;
    best, evaluated, at := Drain(arrival.results);
    GridExact(min, max, samples);
    GridInRange(min, max, samples);
    answered := Compared(eval, amounts, workers, arrival, best);
  }

  // ---------------------------------------------------------------- the refined range

  /** The range of the deep pass: it holds the probe's best size, stays inside the full range, is a proper
      range whenever the full one is, and is at most half as wide unless the full range is kept. */
  function RefineOptimizerRange(minimum: int, maximum: int, best: Option<int>): (r: (int, int))
    ensures best.Some? && minimum <= best.value <= maximum ==> minimum <= r.0 <= best.value <= r.1 <= maximum
    ensures best.Some? && minimum <= best.value <= maximum && r != (minimum, maximum) ==>
        2 * (r.1 - r.0) <= maximum - minimum
    ensures minimum < maximum ==> r.0 < r.1
  {
    if best == None || maximum <= minimum then (minimum, maximum)
    else
      var quarter := (maximum - minimum) / 4;
      if quarter <= 0 then (minimum, maximum)
      else
        var left := if best.value - quarter < minimum then minimum else best.value - quarter;
        var right := if best.value + quarter > maximum then maximum else best.value + quarter;
        if right <= left then (minimum, maximum) else (left, right)
  }

  /** Exactly the sizes of the range within a quarter of its width of the best one; all of a range narrower than 4. */
  lemma RefinedExactly(minimum: int, maximum: int, best: int, a: int)
    requires minimum <= best <= maximum && minimum <= a <= maximum
    ensures var r, quarter := RefineOptimizerRange(minimum, maximum, Some(best)), (maximum - minimum) / 4;
            && (maximum - minimum >= 4 ==> (r.0 <= a <= r.1 <==> best - quarter <= a <= best + quarter))
            && (maximum - minimum < 4 ==> r == (minimum, maximum))
  { }
}
