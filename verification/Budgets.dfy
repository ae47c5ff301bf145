/** The nested work budgets of one evaluation cycle (evaluate, optimizeRoutes and their helpers in
    go/internal/market/engine.go, adaptive mode).

    Go's division truncates toward zero; here it is applied to non-negative numbers or guarded. */
module Budgets {
  import opened Arith
  import opened Options
  import opened Optimizer

  function Min(a: int, b: int): int { if a < b then a else b }

  function Max(a: int, b: int): int { if a > b then a else b }

  // ---------------------------------------------------------------- initial quotes

  datatype Route = Route(id: nat, hops: nat)

  /** A quote per hop, and one at least. */
  function Cost(r: Route): (c: nat)
    ensures c >= 1 && (r.hops >= 1 ==> c == r.hops) && (c > 1 ==> r.hops > 1)
  {
    if r.hops < 1 then 1 else r.hops
  }

  function TotalCost(rs: seq<Route>): nat { if rs == [] then 0 else TotalCost(rs[..|rs| - 1]) + Cost(rs[|rs| - 1]) }

  ghost predicate Within(rs: seq<Route>, kept: seq<Route>) { multiset(kept) <= multiset(rs) }

  /** No route left out would still fit. */
  ghost predicate Maximal(rs: seq<Route>, kept: seq<Route>, used: nat, budget: int) {
    forall r :: r in rs && r !in kept ==> used + Cost(r) > budget
  }

  /** What the routes picked before i cost. */
  ghost function CostBefore(input: seq<Route>, at: set<nat>, i: nat): nat
    requires i <= |input|
  {
    if i == 0 then 0 else CostBefore(input, at, i - 1) + (if i - 1 in at then Cost(input[i - 1]) else 0)
  }

  /** The positions picked: exactly those whose cost still fits after the earlier picks. */
  ghost predicate Fits(input: seq<Route>, budget: int, at: set<nat>) {
    && (forall i :: i in at ==> i < |input|)
    && forall i {:trigger FitAt(input, budget, at, i)} :: 0 <= i < |input| ==> FitAt(input, budget, at, i)
  }

  ghost predicate FitAt(input: seq<Route>, budget: int, at: set<nat>, i: nat)
    requires i < |input|
  {
    i in at <==> CostBefore(input, at, i) + Cost(input[i]) <= budget
  }

  /** The routes at those positions, in order. */
  ghost function At(input: seq<Route>, at: set<nat>): seq<Route> {
    if input == [] then []
    else At(input[..|input| - 1], at) + (if |input| - 1 in at then [input[|input| - 1]] else [])
  }

  lemma {:induction false} SameBefore(input: seq<Route>, other: seq<Route>, at: set<nat>, to: set<nat>, i: nat)
    requires i <= |input| && i <= |other| && (forall t :: 0 <= t < i ==> input[t] == other[t] && (t in at <==> t in to))
    ensures CostBefore(input, at, i) == CostBefore(other, to, i)
  {
    if i > 0 { SameBefore(input, other, at, to, i - 1); }
  }

  lemma {:induction false} SameAt(input: seq<Route>, at: set<nat>, to: set<nat>)
    requires forall t :: 0 <= t < |input| ==> (t in at <==> t in to)
    ensures At(input, at) == At(input, to)
  {
    if input != [] { SameAt(input[..|input| - 1], at, to); }
  }

  lemma FitNext(input: seq<Route>, budget: int, at: set<nat>, r: Route, used: nat)
    requires Fits(input, budget, at) && used == CostBefore(input, at, |input|)
    ensures var to := if used + Cost(r) <= budget then at + {|input|} else at;
            && Fits(input + [r], budget, to)
            && CostBefore(input + [r], to, |input| + 1) == used + (if used + Cost(r) <= budget then Cost(r) else 0)
            && At(input + [r], to) == At(input, at) + (if used + Cost(r) <= budget then [r] else [])
  {
    var to, next := if used + Cost(r) <= budget then at + {|input|} else at, input + [r];
    SameBefore(next, input, to, at, |input|);
    forall i | 0 <= i < |next| ensures FitAt(next, budget, to, i) {
      SameBefore(next, input, to, at, i);
      if i < |input| { assert FitAt(input, budget, at, i); }
    }
    assert next[..|input|] == input;
    SameAt(input, at, to);
  }

  lemma {:induction false} AtCost(input: seq<Route>, at: set<nat>)
    ensures TotalCost(At(input, at)) == CostBefore(input, at, |input|)
  {
    if input != [] {
      var n := |input| - 1;
      AtCost(input[..n], at);
      SameBefore(input, input[..n], at, at, n);
      var init := At(input[..n], at);
      assert (init + [input[n]])[..|init|] == init && init + [] == init;
    }
  }

  lemma {:induction false} AtWithin(input: seq<Route>, at: set<nat>)
    ensures Within(input, At(input, at))
  {
    if input != [] {
      AtWithin(input[..|input| - 1], at);
      assert input == input[..|input| - 1] + [input[|input| - 1]];
    }
  }

  lemma {:induction false} AtHas(input: seq<Route>, at: set<nat>, i: nat)
    requires i < |input| && i in at
    ensures input[i] in At(input, at)
  {
    if i < |input| - 1 { AtHas(input[..|input| - 1], at, i); }
  }

  lemma {:induction false} CostGrows(input: seq<Route>, at: set<nat>, i: nat, n: nat)
    requires i <= n <= |input|
    ensures CostBefore(input, at, i) <= CostBefore(input, at, n)
  {
    if i < n { CostGrows(input, at, i, n - 1); }
  }

  lemma {:induction false} FitsBudget(input: seq<Route>, budget: int, at: set<nat>, n: nat)
    requires Fits(input, budget, at) && n <= |input|
    ensures CostBefore(input, at, n) <= Max(0, budget)
  {
    if n > 0 {
      FitsBudget(input, budget, at, n - 1);
      assert FitAt(input, budget, at, n - 1);
    }
  }

  lemma FitsIsMaximal(input: seq<Route>, budget: int, at: set<nat>)
    requires Fits(input, budget, at)
    ensures Maximal(input, At(input, at), CostBefore(input, at, |input|), budget)
  {
    forall r | r in input && r !in At(input, at) ensures CostBefore(input, at, |input|) + Cost(r) > budget {
      var i :| 0 <= i < |input| && input[i] == r;
      assert FitAt(input, budget, at, i);
      if i in at { AtHas(input, at, i); }
      CostGrows(input, at, i, |input|);
    }
  }

  lemma PickedFacts(input: seq<Route>, budget: int, at: set<nat>)
    requires Fits(input, budget, at)
    ensures var kept, used := At(input, at), CostBefore(input, at, |input|);
            used == TotalCost(kept) && used <= Max(0, budget) && Within(input, kept)
                && Maximal(input, kept, used, budget)
  {
    AtCost(input, at);
    AtWithin(input, at);
    FitsBudget(input, budget, at, |input|);
    FitsIsMaximal(input, budget, at);
  }

  /** Greedy bound: in order, exactly the routes that still fit the budget are kept, so no route left out would fit. */
  method BoundRoutesByQuoteCost(input: seq<Route>, budget: int)
    returns (kept: seq<Route>, used: nat, ghost at: set<nat>)
    ensures Fits(input, budget, at) && kept == At(input, at)
    ensures used == TotalCost(kept) && used <= Max(0, budget) && Within(input, kept)
    ensures Maximal(input, kept, used, budget)
  {
    kept, used, at := [], 0, {};
    if budget >= 1 {
      kept, used, at := PickRoutes(input, budget);
    } else {
      NothingFits(input, budget);
    }
    PickedFacts(input, budget, at);
  }

  method PickRoutes(input: seq<Route>, budget: int) returns (kept: seq<Route>, used: nat, ghost at: set<nat>)
    ensures Fits(input, budget, at) && kept == At(input, at) && used == CostBefore(input, at, |input|)
  {
    kept, used, at := [], 0, {};
    for i := 0 to |input|
      invariant Fits(input[..i], budget, at) && kept == At(input[..i], at) && used == CostBefore(input[..i], at, i)
    {
      var cost := Cost(input[i]);
      assert input[..i + 1] == input[..i] + [input[i]];
      FitNext(input[..i], budget, at, input[i], used);
      if used + cost > budget { continue; }
      kept, at := kept + [input[i]], at + {i};
      used := used + cost;
    }
    assert input[..|input|] == input;
  }

  lemma {:induction false} NothingFits(input: seq<Route>, budget: int)
    requires budget < 1
    ensures Fits(input, budget, {}) && At(input, {}) == [] && CostBefore(input, {}, |input|) == 0
  {
    if input != [] {
      NothingFits(input[..|input| - 1], budget);
      SameBefore(input, input[..|input| - 1], {}, {}, |input| - 1);
    }
    forall i | 0 <= i < |input| ensures FitAt(input, budget, {}, i) { }
  }

  /** The share of the quote ceiling spent on the first probe: all of a small ceiling, else at least 8 quotes and
      three tenths of it rounded down, which leaves the optimizer the rest. */
  function InitialBudget(maxQuotes: int): (b: int)
    ensures b <= maxQuotes && (maxQuotes <= 8 ==> b == maxQuotes)
    ensures maxQuotes >= 8 ==> b >= 8 && 3 * maxQuotes < 10 * b + 10
    ensures b > 8 ==> 10 * b <= 3 * maxQuotes
  {
    Min(maxQuotes, if maxQuotes < 0 then 8 else Max(8, maxQuotes * 3 / 10))
  }

  /** The rounded-up share of what remains: at least q when everyone can have q, and never more than all. */
  lemma CeilingBounds(remaining: nat, left: nat, q: nat)
    requires left > 0 && q * left <= remaining
    ensures q <= (remaining + left - 1) / left <= remaining
  {
    var share := (remaining + left - 1) / left;
    assert share * left <= remaining + left - 1 < (share + 1) * left;
    MulMono(share + 1, q, left);
    MulMono(remaining + 1, share, left);
    MulMono(1, left, remaining);
    assert (remaining + 1) * left == remaining * left + left && left * remaining == remaining * left;
  }

  /** Spending at most that share leaves every later asset its q. */
  lemma CeilingShare(remaining: nat, left: nat, q: nat, used: nat)
    requires left > 0 && q * left <= remaining && used <= (remaining + left - 1) / left
    ensures q * (left - 1) <= remaining - used
  {
    var share := (remaining + left - 1) / left;
    CeilingBounds(remaining, left, q);
    assert share * left <= remaining + left - 1;
    assert share * left == share * (left - 1) + share && q * left == q * (left - 1) + q;
    if share > q {
      MulMono(q + 1, share, left - 1);
      assert (q + 1) * (left - 1) == q * (left - 1) + (left - 1);
    }
  }

  lemma CeilingIs(remaining: nat, left: nat)
    requires left > 0
    ensures RoundedUp((remaining + left - 1) / left, remaining, left)
  {
    RoundUp(remaining, left);
    assert remaining == remaining / left * left + remaining % left;
    assert (remaining / left + 1 - 1) * left == remaining / left * left;
    assert (remaining / left + 1) * left == remaining / left * left + left;
    assert (remaining / left - 1) * left == remaining / left * left - left;
  }

  /** q for each of the assets left. */
  ghost function Parts(q: nat, left: nat): nat { if left == 0 then 0 else q + Parts(q, left - 1) }

  lemma {:induction false} PartsAre(q: nat, left: nat)
    ensures Parts(q, left) == q * left
  {
    if left > 0 {
      PartsAre(q, left - 1);
      assert q * left == q * (left - 1) + q;
    }
  }

  lemma ShareFacts(remaining: nat, left: nat, q: nat, used: nat)
    requires left > 0 && Parts(q, left) <= remaining && used <= (remaining + left - 1) / left
    ensures RoundedUp((remaining + left - 1) / left, remaining, left) && q <= (remaining + left - 1) / left <= remaining
    ensures Parts(q, left - 1) <= remaining - used
  {
    CeilingIs(remaining, left);
    PartsAre(q, left);
    PartsAre(q, left - 1);
    CeilingBounds(remaining, left, q);
    CeilingShare(remaining, left, q, used);
  }

  /** One asset's part: it is offered the rounded-up share of what remains (0 stands for
      any offer below 1), and pays for what it evaluates. */
  method EvaluateAsset(selected: Option<seq<Route>>, remaining: int, left: nat, ghost q: nat)
    returns (kept: seq<Route>, offer: int, used: nat)
    requires left > 0 && (remaining >= 0 ==> Parts(q, left) <= remaining)
    ensures used == TotalCost(kept) && used <= Max(0, remaining) && used <= Max(0, offer)
    ensures remaining < 0 ==> offer == 0
    ensures remaining >= 0 ==> offer >= q && Parts(q, left - 1) <= remaining - used
    ensures Accepted(selected, offer, kept) && RoundedUp(offer, remaining, left)
  {
    offer := if remaining < 0 then 0 else (remaining + left - 1) / left;
    kept, used := [], 0;
    if selected.Some? {
      ghost var at;
      kept, used, at := BoundRoutesByQuoteCost(selected.value, offer);
    }
    if remaining >= 0 { ShareFacts(remaining, left, q, used); }
    used := Min(used, Max(0, remaining));
  }

  /** The asset's routes that fit its offer, in order; none when it is skipped. */
  ghost predicate Accepted(selected: Option<seq<Route>>, offer: int, kept: seq<Route>) {
    && TotalCost(kept) <= Max(0, offer)
    && if selected == None then kept == []
       else exists at :: Fits(selected.value, offer, at) && kept == At(selected.value, at)
  }

  /** An equal part of what remains for the assets left, rounded up. */
  ghost predicate RoundedUp(offer: int, remaining: int, left: nat) {
    if remaining < 0 then offer == 0 else (offer - 1) * left < remaining <= offer * left
  }

  /** An equal part of a budget, rounded down. */
  function EqualPart(budget: int, n: nat): nat { if budget < 0 || n == 0 then 0 else budget / n }

  /** Asset i is offered the rounded-up share of what its predecessors left, at least q, and evaluates what fits. */
  ghost predicate EvaluatedAt(selected: seq<Option<seq<Route>>>, budget: int, q: nat, evaluated: seq<seq<Route>>,
                              offers: seq<int>, i: nat)
    requires i < |evaluated| == |offers| <= |selected|
  {
    && Accepted(selected[i], offers[i], evaluated[i]) && offers[i] >= q
    && RoundedUp(offers[i], budget - Costs(evaluated[..i]), |selected| - i)
  }

  /** The routes first evaluated, asset by asset.  `selected` holds an asset's selected routes, None when the
      asset has no configured amount and is skipped.  The hop cost of all evaluated routes stays within the
      initial budget, and every asset is offered at least an equal part of it. */
  method EvaluateInitial(selected: seq<Option<seq<Route>>>, maxQuotes: int)
    returns (evaluated: seq<seq<Route>>, offers: seq<int>, spent: nat)
    ensures |evaluated| == |offers| == |selected|
    ensures spent == Costs(evaluated) && spent <= Max(0, InitialBudget(maxQuotes))
    ensures forall i :: 0 <= i < |selected| ==>
      EvaluatedAt(selected, InitialBudget(maxQuotes), EqualPart(InitialBudget(maxQuotes), |selected|), evaluated,
          offers, i)
  {
    evaluated, offers, spent :=
        EvaluateWithin(selected, InitialBudget(maxQuotes), EqualPart(InitialBudget(maxQuotes), |selected|));
  }

  method EvaluateWithin(selected: seq<Option<seq<Route>>>, budget: int, ghost q: nat)
    returns (evaluated: seq<seq<Route>>, offers: seq<int>, spent: nat)
    requires q == EqualPart(budget, |selected|)
    ensures |evaluated| == |offers| == |selected|
    ensures spent == Costs(evaluated) && spent <= Max(0, budget)
    ensures forall i :: 0 <= i < |selected| ==> EvaluatedAt(selected, budget, q, evaluated, offers, i)
  {
    evaluated, offers, spent := [], [], 0;
    var remaining := budget;
    if budget >= 0 && selected != [] { EqualParts(budget, |selected|); }
    for i := 0 to |selected|
      invariant |evaluated| == |offers| == i
      invariant spent == Costs(evaluated) && remaining == budget - spent && (budget < 0 ==> spent == 0)
      invariant budget >= 0 ==> remaining >= 0 && Parts(q, |selected| - i) <= remaining
      invariant forall j :: 0 <= j < i ==> EvaluatedAt(selected, budget, q, evaluated, offers, j)
    {
      var kept, offer, used := EvaluateAsset(selected[i], remaining, |selected| - i, q);
      assert evaluated[..i] == evaluated;
      forall j | 0 <= j <= i ensures EvaluatedAt(selected, budget, q, evaluated + [kept], offers + [offer], j) {
        assert (evaluated + [kept])[..j] == evaluated[..j];
        if j < i { assert EvaluatedAt(selected, budget, q, evaluated, offers, j); }
      }
      remaining := remaining - used;
      CostsAppend(evaluated, kept);
      evaluated, offers, spent := evaluated + [kept], offers + [offer], spent + used;
    }
  }

  lemma EqualParts(a: nat, m: nat)
    requires m > 0
    ensures Parts(a / m, m) <= a
  {
    PartsAre(a / m, m);
  }

  function Costs(rss: seq<seq<Route>>): nat {
    if rss == [] then 0 else Costs(rss[..|rss| - 1]) + TotalCost(rss[|rss| - 1])
  }

  lemma CostsAppend(rss: seq<seq<Route>>, rs: seq<Route>)
    ensures Costs(rss + [rs]) == Costs(rss) + TotalCost(rs)
  {
    assert (rss + [rs])[..|rss|] == rss;
  }

  // ---------------------------------------------------------------- optimizer samples

  datatype Candidate = Candidate(route: nat, score: int, minProfit: Option<int>)

  /** Samples a route asks for: always 2, the high count, or the normal count capped by it. */
  function SamplesForScore(score: int, high: int, normal: int): (r: int)
    ensures 2 <= r <= Max(2, high)
    ensures score >= 4_000 ==> r == Max(2, high)
    ensures 2_000 <= score < 4_000 && 2 <= normal <= high ==> r == normal
    ensures 2_000 <= score < 4_000 && normal > high ==> r == Max(2, high)
    ensures 2_000 <= score < 4_000 && normal < 2 ==> r == 2
    ensures score < 2_000 ==> r == 2
  {
    var h := Max(2, high);
    var n := Min(Max(2, normal), h);
    if score >= 4_000 then h else if score < 2_000 then 2 else n
  }

  predicate StopAfterProbe(c: Candidate, best: Loan, current: int) {
    if best.profit > 0 then false
    else if c.score < 2_000 then true
    else
      var byProfit := if c.minProfit.Some? && c.minProfit.value > 0 then c.minProfit.value * 25 else 0;
      var byAmount := if current > 0 then current / 100 else 0;
      var limit := Max(byProfit, byAmount);
      -best.profit > (if limit <= 0 then 1 else limit)
  }

  /** A profitable probe is always refined; a losing one is given up iff the route scores below 2000 or the loss
      exceeds one unit, 25 times the minimum profit, and a hundredth of the configured size. */
  lemma StopAfterProbeIff(c: Candidate, best: Loan, current: int)
    ensures StopAfterProbe(c, best, current) <==>
            && best.profit <= 0
            && (c.score < 2_000 ||
                (&& -best.profit > 1
                 && (c.minProfit.Some? && c.minProfit.value > 0 ==> -best.profit > 25 * c.minProfit.value)
                 && (current > 0 ==> -best.profit > current / 100)))
  { }

  /** The evaluator of each route, the worker count, and what arrives in the probe (false) and deep (true) pass. */
  datatype Quotes = Quotes(eval: nat -> Evaluator, workers: nat, arrive: (nat, bool) -> seq<int> -> Arrival)

  ghost predicate Reliable(q: Quotes) {
    forall route, deep, amounts :: FromPool(q.eval(route), amounts, q.workers, q.arrive(route, deep)(amounts))
  }

  /** No pass of the route is cancelled. */
  ghost predicate Uncancelled(q: Quotes, route: nat) {
    forall deep, amounts :: !q.arrive(route, deep)(amounts).cancelled
  }

  /** `loan` is the best of the sizes `seen`, all inside the range. */
  ghost predicate BestSeen(eval: Evaluator, min: int, max: int, seen: seq<int>, loan: Option<Loan>) {
    BestOf(eval, seen, loan) && forall a :: a in seen ==> min <= a <= max
  }

  lemma JoinBest(eval: Evaluator, min: int, max: int, s: seq<int>, x: Option<Loan>, t: seq<int>, y: Option<Loan>)
    requires BestSeen(eval, min, max, s, x) && BestSeen(eval, min, max, t, y)
    ensures BestSeen(eval, min, max, s + t, if x == None || (y.Some? && y.value.profit > x.value.profit) then y else x)
  {
    assert Evals(eval, s + t) == Evals(eval, s) + Evals(eval, t);
  }

  /** The sizes one pass tries when it evaluates that many. */
  ghost function Tried(min: int, max: int, samples: int, evaluated: nat): seq<int> {
    if 0 < min <= max && evaluated <= |Grid(min, max, samples)| then Grid(min, max, samples)[..evaluated] else []
  }

  /** A probe that found a loan is refined unless it stops early or leaves fewer than two samples. */
  predicate Deepens(c: Candidate, current: int, granted: int, earlyStop: bool, probe: Option<Loan>, probed: nat) {
    probe.Some? && !(earlyStop && StopAfterProbe(c, probe.value, current)) && granted - probed >= 2
  }

  /** It is not refined iff it found nothing, fewer than two samples are left, or it may stop early and does. */
  lemma NotDeepened(c: Candidate, current: int, granted: int, earlyStop: bool, probe: Option<Loan>, probed: nat)
    ensures !Deepens(c, current, granted, earlyStop, probe, probed) <==>
            probe.None? || granted < probed + 2 || (earlyStop && StopAfterProbe(c, probe.value, current))
  { }

  /** The sizes of both passes of a route. */
  ghost function TriedInAll(min: int, max: int, granted: int, probe: Option<Loan>, probed: nat, deepens: bool,
                            tried: nat): seq<int> {
    var (low, high) := RefineOptimizerRange(min, max, if probe.Some? then Some(probe.value.amount) else None);
    Tried(min, max, Min(granted, 3), probed) + (if deepens then Tried(low, high, granted - probed, tried) else [])
  }

  /** The grid of the deep pass around the probe's best size. */
  ghost function DeepGrid(min: int, max: int, granted: int, probe: Option<Loan>, probed: nat): seq<int> {
    var (low, high) := RefineOptimizerRange(min, max, if probe.Some? then Some(probe.value.amount) else None);
    Grid(low, high, granted - probed)
  }

  /** Probe and deep pass of one route: it never takes more samples than granted, and its loan is the most
      profitable of all the sizes answered in the probe (`first`) and, exactly when it deepens, around the probe's
      best (`second`).  Without cancellation both passes try and compare their whole grid. */
  method OptimizeRoute(q: Quotes, c: Candidate, current: int, min: int, max: int, granted: int, earlyStop: bool)
    returns (loan: Option<Loan>, probe: Option<Loan>, probed: nat, tried: nat, ghost first: seq<int>,
        ghost second: seq<int>)
    requires Reliable(q) && granted >= 2
    ensures probed + tried <= granted
    ensures BestOf(q.eval(c.route), first, probe)
        && multiset(first) <= multiset(Tried(min, max, Min(granted, 3), probed))
    ensures Uncancelled(q, c.route) && 0 < min <= max ==> first == Grid(min, max, Min(granted, 3)) && probed == |first|
    ensures Uncancelled(q, c.route) && 0 < min <= max && Deepens(c, current, granted, earlyStop, probe, probed) ==>
              second == DeepGrid(min, max, granted, probe, probed) && tried == |second|
    ensures !Deepens(c, current, granted, earlyStop, probe, probed) ==> second == [] && tried == 0
    ensures var all :=
        TriedInAll(min, max, granted, probe, probed, Deepens(c, current, granted, earlyStop, probe, probed), tried);
            && |all| == probed + tried && multiset(first + second) <= multiset(all)
            && BestSeen(q.eval(c.route), min, max, first + second, loan)
  {
    probe, probed, first := Pass(q, c.route, false, min, max, Min(granted, 3));
    loan, tried, second := probe, 0, [];
    ghost var s := Tried(min, max, Min(granted, 3), probed);
    assert s + [] == s && first + [] == first;
    if probe == None { return; }
    var deepSamples := granted - probed;
    if (earlyStop && StopAfterProbe(c, probe.value, current)) || deepSamples < 2 { return; }
    var (low, high) := RefineOptimizerRange(min, max, Some(probe.value.amount));
    loan, tried, second := DeepPass(q, c.route, min, max, low, high, deepSamples, probe.value, first);
    JoinWithin(first, s, second, Tried(low, high, deepSamples, tried));
  }

  /** The deep pass replaces the probe's loan only by a more profitable one. */
  method DeepPass(q: Quotes, route: nat, min: int, max: int, low: int, high: int, samples: int, probe: Loan,
                  ghost first: seq<int>)
    returns (loan: Option<Loan>, tried: nat, ghost second: seq<int>)
    requires Reliable(q) && samples >= 2 && min <= low && high <= max
    requires BestSeen(q.eval(route), min, max, first, Some(probe))
    ensures tried <= samples && |Tried(low, high, samples, tried)| == tried
    ensures multiset(second) <= multiset(Tried(low, high, samples, tried))
    ensures BestSeen(q.eval(route), min, max, first + second, loan)
    ensures Uncancelled(q, route) && 0 < low <= high ==> second == Grid(low, high, samples) && tried == |second|
  {
    var deep;
    deep, tried, second := Pass(q, route, true, low, high, samples);
    loan := if deep.Some? && deep.value.profit > probe.profit then deep else Some(probe);
    JoinBest(q.eval(route), min, max, first, Some(probe), second, deep);
  }

  lemma JoinWithin(a: seq<int>, b: seq<int>, c: seq<int>, d: seq<int>)
    requires multiset(a) <= multiset(b) && multiset(c) <= multiset(d)
    ensures multiset(a + c) <= multiset(b + d) && |b + d| == |b| + |d|
  { }

  method Pass(q: Quotes, route: nat, deep: bool, min: int, max: int, samples: int)
    returns (best: Option<Loan>, evaluated: nat, ghost answered: seq<int>)
    requires Reliable(q) && samples >= 2
    ensures evaluated <= samples && |Tried(min, max, samples, evaluated)| == evaluated
    ensures multiset(answered) <= multiset(Tried(min, max, samples, evaluated))
    ensures BestSeen(q.eval(route), min, max, answered, best)
    ensures best.Some? ==> min <= best.value.amount <= max
    ensures Uncancelled(q, route) && 0 < min <= max ==>
              answered == Grid(min, max, samples) && evaluated == |answered|
  {
    best, evaluated, answered := Optimize(q.eval(route), q.workers, q.arrive(route, deep), min, max, samples);
    if 0 < min <= max { SeenInGrid(min, max, samples, evaluated, answered); }
  }

  lemma SeenInGrid(min: int, max: int, samples: int, evaluated: nat, answered: seq<int>)
    requires 0 < min <= max && evaluated <= |Grid(min, max, samples)|
    requires multiset(answered) <= multiset(Grid(min, max, samples)[..evaluated])
    ensures |Tried(min, max, samples, evaluated)| == evaluated && forall a :: a in answered ==> min <= a <= max
  {
    var grid := Grid(min, max, samples);
    GridInRange(min, max, samples);
    forall a | a in answered ensures min <= a <= max {
      assert a in multiset(answered) && a in multiset(grid[..evaluated]);
      assert a in grid[..evaluated] && a in grid;
    }
  }

  /** The sum of the first k. */
  function Sum(xs: seq<nat>, k: nat): nat
    requires k <= |xs|
  {
    if k == 0 then 0 else Sum(xs, k - 1) + xs[k - 1]
  }

  lemma {:induction false} SumPrefix(xs: seq<nat>, x: nat, k: nat)
    requires k <= |xs|
    ensures Sum(xs + [x], k) == Sum(xs, k)
  {
    if k > 0 { SumPrefix(xs, x, k - 1); }
  }

  /** What a route is granted from what its predecessors left: nothing below two samples. */
  function Grant(requested: int, remaining: int): (g: int)
    ensures remaining < 2 ==> g == 0
    ensures remaining >= 2 ==> g <= requested && g <= remaining && (g == requested || g == remaining)
  {
    if remaining < 2 then 0 else Min(requested, remaining)
  }

  /** The largest loan: ten times the configured size, or what is available if that is less. */
  function LargestLoan(current: int, available: Option<int>): (r: int)
    ensures r <= 10 * current && (available.Some? && available.value > 0 ==> r <= available.value)
    ensures r == 10 * current || (available.Some? && r == available.value > 0)
  {
    if available.Some? && available.value > 0 && available.value < 10 * current then available.value else 10 * current
  }

  /** The smallest loan: a tenth of the configured size, or all of a size below ten. */
  function SmallestLoan(current: int): (r: int)
    ensures current >= 10 ==> 10 * r <= current < 10 * r + 10
    ensures current < 10 ==> r == current
  {
    if current / 10 <= 0 then current else current / 10
  }

  /** The offer from the sizes seen: there is one iff some size has a positive profit, and then it is a most
      profitable one. */
  ghost predicate OfferOf(eval: Evaluator, seen: seq<int>, offer: Option<Loan>) {
    && (offer.Some? <==> exists a :: a in seen && Profitable(eval, a))
    && (offer.Some? ==>
         && offer.value.amount in seen && eval(offer.value.amount) == Some(offer.value.profit) && offer.value.profit > 0
         && forall a :: a in seen && Profitable(eval, a) ==> eval(a).value <= offer.value.profit)
  }

  ghost predicate Profitable(eval: Evaluator, a: int) { eval(a).Some? && eval(a).value > 0 }

  lemma OfferFromBest(eval: Evaluator, min: int, max: int, seen: seq<int>, loan: Option<Loan>)
    requires BestSeen(eval, min, max, seen, loan)
    ensures OfferOf(eval, seen, if loan.Some? && loan.value.profit > 0 then loan else None)
    ensures loan.Some? ==> min <= loan.value.amount <= max
  {
    var e := Evals(eval, seen);
    forall a | a in seen ensures Outcome(a, eval(a)) in e {
      var i :| 0 <= i < |seen| && seen[i] == a;
      assert e[i] == Outcome(a, eval(a));
    }
    if loan.Some? {
      var i :| 0 <= i < |e| && e[i] == Outcome(loan.value.amount, Some(loan.value.profit));
      assert seen[i] in seen;
    }
  }

  /** What one asset's routes are optimized with. */
  datatype Plan = Plan(current: int, available: Option<int>, high: int, normal: int, earlyStop: bool)

  /** The sizes an uncancelled search compares: the probe's grid and, when it deepens, the grid around a best size
      of the probe. */
  ghost predicate WholeSearch(eval: Evaluator, c: Candidate, p: Plan, granted: int, probe: Option<Loan>,
                              seen: seq<int>) {
    var min, max := SmallestLoan(p.current), LargestLoan(p.current, p.available);
    var grid := Grid(min, max, Min(granted, 3));
    && BestOf(eval, grid, probe)
    && seen == grid + (if Deepens(c, p.current, granted, p.earlyStop, probe, |grid|)
                       then DeepGrid(min, max, granted, probe, |grid|) else [])
  }

  /** What happens to one route that is granted so many samples: it spends no more, its loan is the best of the
      sizes seen, all within the configured and available size, and an uncancelled search sees its whole grids. */
  ghost predicate RouteDone(q: Quotes, c: Candidate, p: Plan, granted: int, offer: Option<Loan>, used: nat,
                            seen: seq<int>) {
    && used <= granted && OfferOf(q.eval(c.route), seen, offer)
    && (forall a :: a in seen ==> SmallestLoan(p.current) <= a <= LargestLoan(p.current, p.available))
    && (granted < 2 ==> seen == [])
    && (granted >= 2 && Uncancelled(q, c.route) && SmallestLoan(p.current) <= LargestLoan(p.current, p.available) ==>
         used == |seen| && exists probe :: WholeSearch(q.eval(c.route), c, p, granted, probe, seen))
  }

  /** One route under what remains of its asset's budget. */
  method OptimizeNext(q: Quotes, c: Candidate, p: Plan, requested: int, remaining: int)
    returns (offer: Option<Loan>, used: nat, ghost seen: seq<int>)
    requires Reliable(q) && p.current > 0 && requested >= 2
    ensures RouteDone(q, c, p, Grant(requested, remaining), offer, used, seen)
  {
    offer, used, seen := None, 0, [];
    if remaining < 2 { return; }
    var min, max, granted := SmallestLoan(p.current), LargestLoan(p.current, p.available), Min(requested, remaining);
    ghost var first, second;
    var loan, probe, probed, tried;
    loan, probe, probed, tried, first, second := OptimizeRoute(q, c, p.current, min, max, granted, p.earlyStop);
    used, seen := probed + tried, first + second;
    if loan.Some? && loan.value.profit > 0 { offer := loan; }
    RouteIsDone(q, c, p, granted, loan, probe, probed, tried, first, second);
  }

  lemma RouteIsDone(q: Quotes, c: Candidate, p: Plan, granted: int, loan: Option<Loan>, probe: Option<Loan>,
                    probed: nat, tried: nat, first: seq<int>, second: seq<int>)
    requires p.current > 0 && 2 <= granted && probed + tried <= granted
    requires BestSeen(q.eval(c.route), SmallestLoan(p.current), LargestLoan(p.current, p.available), first + second,
        loan)
    requires BestOf(q.eval(c.route), first, probe)
    requires !Deepens(c, p.current, granted, p.earlyStop, probe, probed) ==> second == [] && tried == 0
    requires var min, max := SmallestLoan(p.current), LargestLoan(p.current, p.available);
             Uncancelled(q, c.route) && 0 < min <= max ==>
               && first == Grid(min, max, Min(granted, 3)) && probed == |first|
               && (Deepens(c, p.current, granted, p.earlyStop, probe, probed) ==>
                    second == DeepGrid(min, max, granted, probe, probed) && tried == |second|)
    ensures RouteDone(q, c, p, granted, if loan.Some? && loan.value.profit > 0 then loan else None, probed + tried,
                      first + second)
  {
    var min, max := SmallestLoan(p.current), LargestLoan(p.current, p.available);
    OfferFromBest(q.eval(c.route), min, max, first + second, loan);
    if Uncancelled(q, c.route) && min <= max {
      assert first + [] == first;
      assert WholeSearch(q.eval(c.route), c, p, granted, probe, first + second);
    }
  }

  /** What happened to the routes so far, in order: each is granted from what its predecessors left. */
  ghost predicate RoutesDone(q: Quotes, candidates: seq<Candidate>, p: Plan, budget: int, offers: seq<Option<Loan>>,
                             spent: seq<nat>, seen: seq<seq<int>>) {
    && |offers| == |spent| == |seen| <= |candidates|
    && forall i {:trigger RouteAt(q, candidates, p, budget, offers, spent, seen, i)} ::
         0 <= i < |spent| ==> RouteAt(q, candidates, p, budget, offers, spent, seen, i)
  }

  ghost predicate RouteAt(q: Quotes, candidates: seq<Candidate>, p: Plan, budget: int, offers: seq<Option<Loan>>,
                          spent: seq<nat>, seen: seq<seq<int>>, i: nat)
    requires i < |offers| == |spent| == |seen| <= |candidates|
  {
    var granted := Grant(SamplesForScore(candidates[i].score, p.high, p.normal), budget - Sum(spent, i));
    RouteDone(q, candidates[i], p, granted, offers[i], spent[i], seen[i])
  }

  lemma NextRoute(q: Quotes, candidates: seq<Candidate>, p: Plan, budget: int, offers: seq<Option<Loan>>,
                  spent: seq<nat>, seen: seq<seq<int>>, offer: Option<Loan>, used: nat, sizes: seq<int>)
    requires RoutesDone(q, candidates, p, budget, offers, spent, seen) && |spent| < |candidates|
    requires Sum(spent, |spent|) <= Max(0, budget)
    requires var granted :=
        Grant(SamplesForScore(candidates[|spent|].score, p.high, p.normal), budget - Sum(spent, |spent|));
             RouteDone(q, candidates[|spent|], p, granted, offer, used, sizes)
    ensures RoutesDone(q, candidates, p, budget, offers + [offer], spent + [used], seen + [sizes])
    ensures Sum(spent + [used], |spent| + 1) == Sum(spent, |spent|) + used <= Max(0, budget)
  {
    var s := spent + [used];
    SumPrefix(spent, used, |spent|);
    forall i | 0 <= i < |s| ensures RouteAt(q, candidates, p, budget, offers + [offer], s, seen + [sizes], i) {
      SumPrefix(spent, used, i);
      if i < |spent| { assert RouteAt(q, candidates, p, budget, offers, spent, seen, i); }
    }
  }

  /** One asset's routes under one sample budget, in order. */
  method OptimizeRoutes(q: Quotes, candidates: seq<Candidate>, p: Plan, budget: int)
    returns (offers: seq<Option<Loan>>, spent: seq<nat>, ghost seen: seq<seq<int>>)
    requires Reliable(q)
    ensures Sum(spent, |spent|) <= Max(0, budget) && RoutesDone(q, candidates, p, budget, offers, spent, seen)
    ensures |spent| == if p.current <= 0 then 0 else |candidates|
  {
    offers, spent, seen := [], [], [];
    if p.current <= 0 { return; }
    var remaining := budget;
    for i := 0 to |candidates|
      invariant |spent| == i && remaining == budget - Sum(spent, |spent|) && Sum(spent, |spent|) <= Max(0, budget)
      invariant RoutesDone(q, candidates, p, budget, offers, spent, seen)
    {
      var c := candidates[i];
      ghost var sizes;
      var offer, used;
      offer, used, sizes := OptimizeNext(q, c, p, SamplesForScore(c.score, p.high, p.normal), remaining);
      NextRoute(q, candidates, p, budget, offers, spent, seen, offer, used, sizes);
      remaining, offers, spent, seen := remaining - used, offers + [offer], spent + [used], seen + [sizes];
    }
  }

  datatype Work = Work(candidates: seq<Candidate>, current: int, available: Option<int>)

  /** Spending at most the rounded-down share leaves every later asset at least q. */
  lemma FloorShare(remaining: nat, left: nat, q: nat, used: nat)
    requires left > 0 && q * left <= remaining && used <= remaining / left
    ensures q <= remaining / left <= remaining && q * (left - 1) <= remaining - used
  {
    var share := remaining / left;
    assert share * left <= remaining < share * left + left;
    assert (share + 1) * left == share * left + left && share * left == share * (left - 1) + share;
    MulMono(share + 1, q, left);
    MulMono(q, share, left - 1);
    MulMono(0, left - 1, share);
    assert (left - 1) * share == share * (left - 1);
  }

  /** The loans and costs of one asset: those of its routes under its share, or nothing without one. */
  datatype Settled = Settled(share: int, offers: seq<Option<Loan>>, spent: seq<nat>)

  ghost predicate AssetDone(q: Quotes, w: Work, high: int, normal: int, earlyStop: bool, d: Settled) {
    if d.share == 0 then d.offers == [] && d.spent == []
    else
      && d.share >= 2 && |d.spent| == (if w.current <= 0 then 0 else |w.candidates|)
      && exists seen :: RoutesDone(q, w.candidates, Plan(w.current, w.available, high, normal, earlyStop), d.share,
                                   d.offers, d.spent, seen)
  }

  /** The samples of the first k assets. */
  function Used(ds: seq<Settled>, k: nat): nat
    requires k <= |ds|
  {
    if k == 0 then 0 else Used(ds, k - 1) + Sum(ds[k - 1].spent, |ds[k - 1].spent|)
  }

  lemma {:induction false} UsedPrefix(ds: seq<Settled>, d: Settled, k: nat)
    requires k <= |ds|
    ensures Used(ds + [d], k) == Used(ds, k)
  {
    if k > 0 { UsedPrefix(ds, d, k - 1); }
  }

  /** What an asset's result has to satisfy. */
  type Check = (Work, Settled) -> bool

  /** Asset i was given a share unless fewer than two samples were left, at least `part` if that is two or more. */
  ghost predicate AssetAt(check: Check, pending: seq<Work>, ceiling: int, part: int, done: seq<Settled>, i: nat)
    requires i < |done| <= |pending|
  {
    && check(pending[i], done[i]) && (done[i].share == 0 <==> ceiling - Used(done, i) < 2)
    && (part >= 2 ==> done[i].share >= part)
  }

  ghost predicate AssetsDone(check: Check, pending: seq<Work>, ceiling: int, part: int, done: seq<Settled>) {
    && |done| <= |pending| && Used(done, |done|) <= Max(0, ceiling)
    && forall i {:trigger AssetAt(check, pending, ceiling, part, done, i)} ::
         0 <= i < |done| ==> AssetAt(check, pending, ceiling, part, done, i)
  }

  lemma NextAsset(check: Check, pending: seq<Work>, ceiling: int, part: int, done: seq<Settled>, d: Settled)
    requires AssetsDone(check, pending, ceiling, part, done) && |done| < |pending|
    requires check(pending[|done|], d) && (part >= 2 ==> d.share >= part)
    requires d.share == 0 <==> ceiling - Used(done, |done|) < 2
    requires Used(done, |done|) + Sum(d.spent, |d.spent|) <= Max(0, ceiling)
    ensures AssetsDone(check, pending, ceiling, part, done + [d])
    ensures Used(done + [d], |done| + 1) == Used(done, |done|) + Sum(d.spent, |d.spent|)
  {
    UsedNext(done, d);
    forall i | 0 <= i < |done + [d]| ensures AssetAt(check, pending, ceiling, part, done + [d], i) {
      if i < |done| { AssetStays(check, pending, ceiling, part, done, d, i); }
    }
  }

  lemma UsedNext(done: seq<Settled>, d: Settled)
    ensures Used(done + [d], |done| + 1) == Used(done, |done|) + Sum(d.spent, |d.spent|)
    ensures Used(done + [d], |done|) == Used(done, |done|)
  {
    UsedPrefix(done, d, |done|);
  }

  lemma AssetStays(check: Check, pending: seq<Work>, ceiling: int, part: int, done: seq<Settled>, d: Settled, i: nat)
    requires i < |done| < |pending| && AssetAt(check, pending, ceiling, part, done, i)
    ensures AssetAt(check, pending, ceiling, part, done + [d], i)
  {
    UsedPrefix(done, d, i);
  }

  /** The optimizer pass over all assets: all probes and deep passes together stay within the cycle's sample
      ceiling; when that gives every asset two samples, every asset gets at least an equal part; an asset is
      skipped only when fewer than two samples are left; and each asset's loans are those of its routes. */
  method OptimizeAssets(q: Quotes, pending: seq<Work>, ceiling: int, high: int, normal: int, earlyStop: bool)
    returns (done: seq<Settled>)
    requires Reliable(q)
    ensures |done| == |pending| && Used(done, |done|) <= Max(0, ceiling)
    ensures pending != [] ==>
      AssetsDone((w, d) => AssetDone(q, w, high, normal, earlyStop, d), pending, ceiling, ceiling / |pending|, done)
  {
    done := [];
    if pending == [] { return; }
    ghost var check: Check := (w, d) => AssetDone(q, w, high, normal, earlyStop, d);
    var remaining := ceiling;
    ghost var part := ceiling / |pending|;
    if ceiling >= 0 { EqualParts(ceiling, |pending|); }
    for i := 0 to |pending|
      invariant |done| == i && remaining == ceiling - Used(done, i)
      invariant AssetsDone(check, pending, ceiling, part, done)
      invariant part >= 2 ==> Parts(part, |pending| - i) <= remaining
    {
      var left := |pending| - i;
      assert part >= 2 ==> remaining >= part;
      var d := Settled(0, [], []);
      if remaining >= 2 {
        AtMostAll(remaining, left);
        d := OptimizeAsset(q, pending[i], high, normal, earlyStop, Max(2, remaining / left));
        if part >= 2 { FloorShareTwo(remaining, left, part, Sum(d.spent, |d.spent|)); }
      }
      NextAsset(check, pending, ceiling, part, done, d);
      remaining, done := remaining - Sum(d.spent, |d.spent|), done + [d];
    }
  }

  method OptimizeAsset(q: Quotes, w: Work, high: int, normal: int, earlyStop: bool, share: int) returns (d: Settled)
    requires Reliable(q) && share >= 2
    ensures AssetDone(q, w, high, normal, earlyStop, d) && d.share == share && Sum(d.spent, |d.spent|) <= share
  {
    ghost var seen;
    var offers, spent;
    offers, spent, seen :=
        OptimizeRoutes(q, w.candidates, Plan(w.current, w.available, high, normal, earlyStop), share);
    d := Settled(share, offers, spent);
  }

  lemma AtMostAll(remaining: nat, left: nat)
    requires left > 0
    ensures remaining / left <= remaining
  {
    FloorShare(remaining, left, 0, 0);
  }

  lemma FloorShareTwo(remaining: nat, left: nat, q: nat, used: nat)
    requires left > 0 && q >= 2 && Parts(q, left) <= remaining && used <= Max(2, remaining / left)
    ensures q <= remaining / left && Parts(q, left - 1) <= remaining - used
  {
    PartsAre(q, left);
    PartsAre(q, left - 1);
    FloorShare(remaining, left, q, 0);
    FloorShare(remaining, left, q, used);
  }
}
