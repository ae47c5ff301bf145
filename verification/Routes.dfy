/** Bounded 2- to 4-hop cycle enumeration (go/internal/routes/routes.go).

    Symbols are numbers ordered as Go orders the names; 0 stands for the empty name. */
module Routes {

  import opened Enumeration

  type Symbol = nat

  datatype Pool = Pool(address: nat, dex: nat, updatedAt: nat)

  datatype Pair = Pair(source: Symbol, target: Symbol)

  datatype Route = Route(symbols: seq<Symbol>, hops: seq<Pool>)

  type ByPair = map<Pair, seq<Pool>>

  function Available(byPair: ByPair, a: Symbol, b: Symbol): seq<Pool> {
    if Pair(a, b) in byPair then byPair[Pair(a, b)] else []
  }

  // ---------------------------------------------------------------- the full enumeration

  /** The pools to choose from at each hop along `symbols`. */
  function ChoicesAlong(byPair: ByPair, symbols: seq<Symbol>): (r: seq<seq<Pool>>)
    requires symbols != []
    ensures |r| == |symbols| - 1
  {
    seq(|symbols| - 1, i requires 0 <= i < |symbols| - 1 => Available(byPair, symbols[i], symbols[i + 1]))
  }

  function Cycle(start: Symbol, path: seq<Symbol>): seq<Symbol> { [start] + path + [start] }

  function Routed(symbols: seq<Symbol>, current: seq<Pool>, tails: seq<seq<Pool>>): (r: seq<Route>)
    ensures |r| == |tails|
  {
    seq(|tails|, i requires 0 <= i < |tails| => Route(symbols, current + tails[i]))
  }

  function RoutesAlong(byPair: ByPair, start: Symbol, path: seq<Symbol>): seq<Route> {
    Routed(Cycle(start, path), [], Combos(ChoicesAlong(byPair, Cycle(start, path))))
  }

  /** Every route over the first k paths, in order. */
  function RoutesOver(byPair: ByPair, start: Symbol, paths: seq<seq<Symbol>>, k: nat): seq<Route>
    requires k <= |paths|
  {
    if k == 0 then [] else RoutesOver(byPair, start, paths, k - 1) + RoutesAlong(byPair, start, paths[k - 1])
  }

  /** The unbounded enumeration for one start and hop count. */
  function AllRoutes(byPair: ByPair, start: Symbol, mids: seq<Symbol>, hops: nat): seq<Route>
    requires hops >= 1
  {
    var paths := Perms(mids, hops - 1);
    RoutesOver(byPair, start, paths, |paths|)
  }

  /** A cycle of `hops` hops from `start` through distinct other assets, each pool from its hop's pair. */
  ghost predicate IsCycleRoute(byPair: ByPair, start: Symbol, mids: seq<Symbol>, hops: nat, r: Route) {
    && |r.hops| == hops && |r.symbols| == hops + 1
    && r.symbols[0] == start && r.symbols[hops] == start
    && hops >= 1 && IsArrangement(r.symbols[1..hops], mids, hops - 1)
    && forall i :: 0 <= i < hops ==> r.hops[i] in Available(byPair, r.symbols[i], r.symbols[i + 1])
  }

  lemma {:induction false} RoutesOverMember(byPair: ByPair, start: Symbol, paths: seq<seq<Symbol>>, k: nat, r: Route)
    requires k <= |paths|
    ensures r in RoutesOver(byPair, start, paths, k) <==>
            exists i :: 0 <= i < k && r in RoutesAlong(byPair, start, paths[i])
  {
    if k > 0 { RoutesOverMember(byPair, start, paths, k - 1, r); }
  }

  lemma RoutedMember(symbols: seq<Symbol>, tails: seq<seq<Pool>>, r: Route)
    ensures r in Routed(symbols, [], tails) <==> r.symbols == symbols && r.hops in tails
  {
    var all := Routed(symbols, [], tails);
    assert forall i :: 0 <= i < |tails| ==> all[i] == Route(symbols, tails[i]) by {
      forall i | 0 <= i < |tails| ensures all[i] == Route(symbols, tails[i]) { assert [] + tails[i] == tails[i]; }
    }
    if r.symbols == symbols && r.hops in tails {
      var i :| 0 <= i < |tails| && tails[i] == r.hops;
      assert all[i] == r;
    }
  }

  lemma RoutesAlongMember(byPair: ByPair, start: Symbol, path: seq<Symbol>, r: Route)
    ensures r in RoutesAlong(byPair, start, path) <==>
            && r.symbols == Cycle(start, path) && |r.hops| == |path| + 1
            && forall i :: 0 <= i < |r.hops| ==> r.hops[i] in Available(byPair, r.symbols[i], r.symbols[i + 1])
  {
    var symbols := Cycle(start, path);
    var choices := ChoicesAlong(byPair, symbols);
    RoutedMember(symbols, Combos(choices), r);
    CombosExact(choices, r.hops);
  }

  lemma AllRoutesSound(byPair: ByPair, start: Symbol, mids: seq<Symbol>, hops: nat, r: Route)
    requires hops >= 1 && Distinct(mids) && r in AllRoutes(byPair, start, mids, hops)
    ensures IsCycleRoute(byPair, start, mids, hops, r)
  {
    var paths := Perms(mids, hops - 1);
    RoutesOverMember(byPair, start, paths, |paths|, r);
    var i :| 0 <= i < |paths| && r in RoutesAlong(byPair, start, paths[i]);
    var path := paths[i];
    assert path in paths;
    PermsExact(mids, hops - 1, path);
    AlongIsCycle(byPair, start, mids, hops, path, r);
  }

  lemma AlongIsCycle(byPair: ByPair, start: Symbol, mids: seq<Symbol>, hops: nat, path: seq<Symbol>, r: Route)
    requires hops >= 1 && IsArrangement(path, mids, hops - 1) && r in RoutesAlong(byPair, start, path)
    ensures IsCycleRoute(byPair, start, mids, hops, r)
  {
    RoutesAlongMember(byPair, start, path, r);
    assert |path| == hops - 1 && r.symbols == Cycle(start, path);
    assert r.symbols[1..hops] == path;
  }

  lemma AllRoutesComplete(byPair: ByPair, start: Symbol, mids: seq<Symbol>, hops: nat, r: Route)
    requires Distinct(mids) && IsCycleRoute(byPair, start, mids, hops, r)
    ensures r in AllRoutes(byPair, start, mids, hops)
  {
    var path := r.symbols[1..hops];
    PermsExact(mids, hops - 1, path);
    assert r.symbols == Cycle(start, path);
    RoutesAlongMember(byPair, start, path, r);
    RoutesOverHas(byPair, start, Perms(mids, hops - 1), path, r);
  }

  lemma RoutesOverHas(byPair: ByPair, start: Symbol, paths: seq<seq<Symbol>>, path: seq<Symbol>, r: Route)
    requires path in paths && r in RoutesAlong(byPair, start, path)
    ensures r in RoutesOver(byPair, start, paths, |paths|)
  {
    var i :| 0 <= i < |paths| && paths[i] == path;
    RoutesOverMember(byPair, start, paths, |paths|, r);
  }

  /** The full enumeration holds exactly the cycle routes. */
  lemma AllRoutesExact(byPair: ByPair, start: Symbol, mids: seq<Symbol>, hops: nat, r: Route)
    requires hops >= 1 && Distinct(mids)
    ensures r in AllRoutes(byPair, start, mids, hops) <==> IsCycleRoute(byPair, start, mids, hops, r)
  {
    if r in AllRoutes(byPair, start, mids, hops) { AllRoutesSound(byPair, start, mids, hops, r); }
    if IsCycleRoute(byPair, start, mids, hops, r) { AllRoutesComplete(byPair, start, mids, hops, r); }
  }

  // ---------------------------------------------------------------- bounded building

  lemma RoutedNested(symbols: seq<Symbol>, current: seq<Pool>, p: Pool, tails: seq<seq<Pool>>)
    ensures Routed(symbols, current, PrefixAll(p, tails)) == Routed(symbols, current + [p], tails)
  {
    forall i | 0 <= i < |tails|
        ensures Routed(symbols, current, PrefixAll(p, tails))[i] == Routed(symbols, current + [p], tails)[i] {
      assert current + ([p] + tails[i]) == (current + [p]) + tails[i];
    }
  }

  lemma RoutedAppend(symbols: seq<Symbol>, current: seq<Pool>, a: seq<seq<Pool>>, b: seq<seq<Pool>>)
    ensures Routed(symbols, current, a + b) == Routed(symbols, current, a) + Routed(symbols, current, b)
  { }

  /** The recursion of `appendCombinations`: it stops as soon as the output is full. */
  method AppendCombinations(symbols: seq<Symbol>, choices: seq<seq<Pool>>, index: nat, current: seq<Pool>,
                            out: seq<Route>, maximum: nat) returns (result: seq<Route>)
    requires index <= |choices|
    ensures result == Extend(out, Routed(symbols, current, Combos(choices[index..])), maximum)
    decreases |choices| - index
  {
    if |out| >= maximum { return out; }
    if index == |choices| {
      assert Routed(symbols, current, [[]]) == [Route(symbols, current)] by { assert current + [] == current; }
      return out + [Route(symbols, current)];
    }
    var ps := choices[index];
    ghost var tails := Combos(choices[index + 1..]);
    assert choices[index..][0] == ps && choices[index..][1..] == choices[index + 1..];
    result := out;
    assert Routed(symbols, current, Spread(ps[..0], tails)) == [];
    for k := 0 to |ps|
      invariant result == Extend(out, Routed(symbols, current, Spread(ps[..k], tails)), maximum)
    {
      ghost var done := Routed(symbols, current, Spread(ps[..k], tails));
      ghost var more := Routed(symbols, current + [ps[k]], tails);
      result := AppendCombinations(symbols, choices, index + 1, current + [ps[k]], result, maximum);
      ExtendTwice(out, done, more, maximum);
      SpreadStep(ps, tails, k);
      RoutedAppend(symbols, current, Spread(ps[..k], tails), PrefixAll(ps[k], tails));
      RoutedNested(symbols, current, ps[k], tails);
      if |result| >= maximum {
        RoutedSpreadSplit(symbols, current, ps, tails, k + 1);
        ExtendFull(out, Routed(symbols, current, Spread(ps[..k + 1], tails)),
                   Routed(symbols, current, Spread(ps, tails))[|Spread(ps[..k + 1], tails)|..], maximum);
        return;
      }
    }
    assert ps[..|ps|] == ps;
  }

  lemma SpreadStep(ps: seq<Pool>, tails: seq<seq<Pool>>, k: nat)
    requires k < |ps|
    ensures Spread(ps[..k + 1], tails) == Spread(ps[..k], tails) + PrefixAll(ps[k], tails)
  {
    assert ps[..k + 1][..k] == ps[..k];
  }

  lemma {:induction false} SpreadPrefix(ps: seq<Pool>, tails: seq<seq<Pool>>, k: nat)
    requires k <= |ps|
    ensures Spread(ps[..k], tails) <= Spread(ps, tails)
    decreases |ps| - k
  {
    if k < |ps| {
      SpreadStep(ps, tails, k);
      SpreadPrefix(ps, tails, k + 1);
    } else {
      assert ps[..k] == ps;
    }
  }

  lemma RoutedSpreadSplit(symbols: seq<Symbol>, current: seq<Pool>, ps: seq<Pool>, tails: seq<seq<Pool>>, k: nat)
    requires k <= |ps|
    ensures var a, b := Spread(ps[..k], tails), Spread(ps, tails);
            |a| <= |b| && Routed(symbols, current, b)
                == Routed(symbols, current, a) + Routed(symbols, current, b)[|a|..]
  {
    SpreadPrefix(ps, tails, k);
  }

  /** Some hop along `symbols` has no pool. */
  ghost predicate Dead(byPair: ByPair, symbols: seq<Symbol>) {
    exists j :: 0 <= j < |symbols| - 1 && Available(byPair, symbols[j], symbols[j + 1]) == []
  }

  /** The pool lists along a path, unless some hop has none. */
  method CollectChoices(byPair: ByPair, symbols: seq<Symbol>) returns (choices: seq<seq<Pool>>, valid: bool)
    requires symbols != []
    ensures valid ==> choices == ChoicesAlong(byPair, symbols)
    ensures !valid ==> Dead(byPair, symbols)
  {
    choices, valid := [], true;
    for i := 0 to |symbols| - 1
      invariant choices == ChoicesAlong(byPair, symbols)[..i]
    {
      var available := Available(byPair, symbols[i], symbols[i + 1]);
      if available == [] { return choices, false; }
      choices := choices + [available];
    }
  }

  /** What the enumeration of one hop depth finds before it stops. */
  ghost predicate Enumerated(byPair: ByPair, start: Symbol, mids: seq<Symbol>, hops: nat, enough: nat, cap: nat,
                             found: seq<Route>)
    requires hops >= 1
  {
    var paths := Perms(mids, hops - 1);
    exists k :: StopsAfter(byPair, start, paths, enough, cap, found, k)
  }

  /** One hop depth.  The output is an initial part of the full enumeration, at least `hopLimit` long unless
      it is all of it, and never longer than `cap` (the per-path combination limit). */
  method BuildHop(start: Symbol, mids: seq<Symbol>, byPair: ByPair, hops: nat, hopLimit: nat, cap: nat)
    returns (hopRoutes: seq<Route>)
    requires hops >= 1 && 1 <= hopLimit <= cap
    ensures Enumerated(byPair, start, mids, hops, hopLimit, cap, hopRoutes)
    ensures hopRoutes <= AllRoutes(byPair, start, mids, hops)
    ensures |hopRoutes| >= hopLimit || hopRoutes == AllRoutes(byPair, start, mids, hops)
    ensures |hopRoutes| <= cap
  {
    var paths := Permutations(mids, hops - 1);
    hopRoutes := BuildPaths(byPair, start, paths, hopLimit, cap);
  }

  /** The enumeration stopped after k paths, the first with which it had `enough` routes, cut at `cap`. */
  ghost predicate StopsAfter(byPair: ByPair, start: Symbol, paths: seq<seq<Symbol>>, enough: nat, cap: nat,
                             found: seq<Route>, k: nat) {
    && k <= |paths| && found == Extend([], RoutesOver(byPair, start, paths, k), cap)
    && (k > 0 ==> |RoutesOver(byPair, start, paths, k - 1)| < enough) && (k < |paths| ==> |found| >= enough)
  }

  lemma StopHere(byPair: ByPair, start: Symbol, paths: seq<seq<Symbol>>, enough: nat, cap: nat, before: seq<Route>,
                 found: seq<Route>, k: nat)
    requires k < |paths| && before == RoutesOver(byPair, start, paths, k) && |before| < enough <= cap
    requires found == Extend(before, RoutesAlong(byPair, start, paths[k]), cap) && |found| >= enough
    ensures StopsAfter(byPair, start, paths, enough, cap, found, k + 1)
  {
    ExtendIsPrefix(before, RoutesAlong(byPair, start, paths[k]), cap);
    PrefixIsExtend(found, RoutesOver(byPair, start, paths, k + 1), cap);
  }

  method BuildPaths(byPair: ByPair, start: Symbol, paths: seq<seq<Symbol>>, hopLimit: nat, cap: nat)
    returns (hopRoutes: seq<Route>)
    requires 1 <= hopLimit <= cap
    ensures exists k :: StopsAfter(byPair, start, paths, hopLimit, cap, hopRoutes, k)
    ensures hopRoutes <= RoutesOver(byPair, start, paths, |paths|)
    ensures |hopRoutes| >= hopLimit || hopRoutes == RoutesOver(byPair, start, paths, |paths|)
    ensures |hopRoutes| <= cap
  {
    hopRoutes := [];
    for k := 0 to |paths|
      invariant hopRoutes == RoutesOver(byPair, start, paths, k) && |hopRoutes| < hopLimit
      invariant k > 0 ==> |RoutesOver(byPair, start, paths, k - 1)| < hopLimit
    {
      ghost var before := hopRoutes;
      ExtendIsPrefix(hopRoutes, RoutesAlong(byPair, start, paths[k]), cap);
      hopRoutes := AddPath(byPair, start, paths[k], hopRoutes, cap);
      if |hopRoutes| >= hopLimit {
        StopHere(byPair, start, paths, hopLimit, cap, before, hopRoutes, k);
        RoutesOverPrefix(byPair, start, paths, k + 1);
        return;
      }
    }
    PrefixIsExtend(hopRoutes, hopRoutes, cap);
    assert StopsAfter(byPair, start, paths, hopLimit, cap, hopRoutes, |paths|);
  }

  /** One path: its routes are appended until the output holds `cap`; a path with a poolless hop adds none. */
  method AddPath(byPair: ByPair, start: Symbol, path: seq<Symbol>, out: seq<Route>, cap: nat)
    returns (result: seq<Route>)
    ensures result == Extend(out, RoutesAlong(byPair, start, path), cap)
  {
    var symbols := [start] + path + [start];
    var choices, valid := CollectChoices(byPair, symbols);
    if valid {
      assert choices[0..] == choices;
      result := AppendCombinations(symbols, choices, 0, [], out, cap);
    } else {
      DeadPath(byPair, start, path);
      assert out + [] == out;
      result := out;
    }
  }

  lemma DeadPath(byPair: ByPair, start: Symbol, path: seq<Symbol>)
    requires Dead(byPair, Cycle(start, path))
    ensures RoutesAlong(byPair, start, path) == []
  {
    var all := RoutesAlong(byPair, start, path);
    if all != [] {
      assert all[0] in all;
      RoutesAlongMember(byPair, start, path, all[0]);
    }
  }

  lemma {:induction false} RoutesOverPrefix(byPair: ByPair, start: Symbol, paths: seq<seq<Symbol>>, k: nat)
    requires k <= |paths|
    ensures RoutesOver(byPair, start, paths, k) <= RoutesOver(byPair, start, paths, |paths|)
    decreases |paths| - k
  {
    if k < |paths| { RoutesOverPrefix(byPair, start, paths, k + 1); }
  }

  // ---------------------------------------------------------------- shares

  method SplitLimit(total: nat, buckets: nat) returns (out: seq<nat>)
    requires buckets >= 1
    ensures out == Split(total, buckets)
  {
    var base, remainder := total / buckets, total % buckets;
    out := [];
    for i := 0 to buckets
      invariant out == Split(total, buckets)[..i]
    {
      out := out + [base + (if i < remainder then 1 else 0)];
    }
  }

  function Split(total: nat, buckets: nat): (r: seq<nat>)
    requires buckets >= 1
    ensures |r| == buckets
  {
    seq(buckets, i requires 0 <= i < buckets => total / buckets + (if i < total % buckets then 1 else 0))
  }

  /** Three buckets share the whole limit, and no two differ by more than one. */
  lemma SplitThree(total: nat)
    ensures var s := Split(total, 3); s[0] + s[1] + s[2] == total && s[0] >= s[1] >= s[2] && s[0] <= s[2] + 1
  { }

  predicate CrossVenue(r: Route) { |r.hops| == 2 && r.hops[0].dex != r.hops[1].dex }

  function Select(rs: seq<Route>, cross: bool): seq<Route> {
    if rs == [] then []
    else Select(rs[..|rs| - 1], cross) + (if CrossVenue(rs[|rs| - 1]) == cross then [rs[|rs| - 1]] else [])
  }

  function Min(a: nat, b: nat): nat { if a < b then a else b }

  method SplitVenues(rs: seq<Route>) returns (cross: seq<Route>, same: seq<Route>)
    ensures cross == Select(rs, true) && same == Select(rs, false)
  {
    cross, same := [], [];
    for i := 0 to |rs|
      invariant cross == Select(rs[..i], true) && same == Select(rs[..i], false)
    {
      assert rs[..i + 1][..i] == rs[..i];
      if CrossVenue(rs[i]) { cross := cross + [rs[i]]; } else { same := same + [rs[i]]; }
    }
    assert rs[..|rs|] == rs;
  }

  method PrioritizeTwoHopCrossVenue(rs: seq<Route>, limit: nat, shareBPS: nat) returns (out: seq<Route>)
    ensures out == Prioritized(rs, limit, shareBPS)
  {
    var cross, same := SplitVenues(rs);
    var reserve := Min(limit * shareBPS / 10000, |cross|);
    out := cross[..reserve];
    out := FillUp(out, cross[reserve..] + same, limit);
  }

  method FillUp(first: seq<Route>, remaining: seq<Route>, limit: nat) returns (out: seq<Route>)
    ensures out == Extend(first, remaining, limit)
  {
    out := first;
    for k := 0 to |remaining|
      invariant out == Extend(first, remaining[..k], limit)
    {
      if |out| >= limit {
        assert remaining == remaining[..k] + remaining[k..];
        ExtendFull(first, remaining[..k], remaining[k..], limit);
        return;
      }
      out := out + [remaining[k]];
    }
    assert remaining[..|remaining|] == remaining;
  }

  function Prioritized(rs: seq<Route>, limit: nat, shareBPS: nat): seq<Route> {
    var cross, same := Select(rs, true), Select(rs, false);
    var reserve := Min(limit * shareBPS / 10000, |cross|);
    Extend(cross[..reserve], cross[reserve..] + same, limit)
  }

  lemma {:induction false} SelectKind(rs: seq<Route>, cross: bool)
    ensures forall r :: r in Select(rs, cross) ==> CrossVenue(r) == cross
  {
    if rs != [] { SelectKind(rs[..|rs| - 1], cross); }
  }

  lemma {:induction false} SelectCounts(rs: seq<Route>)
    ensures multiset(rs) == multiset(Select(rs, true)) + multiset(Select(rs, false))
  {
    if rs != [] {
      var init, last := rs[..|rs| - 1], rs[|rs| - 1];
      SelectCounts(init);
      assert rs == init + [last];
      var kind := CrossVenue(last);
      assert Select(rs, kind) == Select(init, kind) + [last];
      assert Select(rs, !kind) == Select(init, !kind) + [] == Select(init, !kind);
    }
  }

  lemma SelectPartitions(rs: seq<Route>)
    ensures multiset(rs) == multiset(Select(rs, true)) + multiset(Select(rs, false))
    ensures forall r :: r in Select(rs, true) ==> CrossVenue(r)
    ensures forall r :: r in Select(rs, false) ==> !CrossVenue(r)
  {
    SelectCounts(rs);
    SelectKind(rs, true);
    SelectKind(rs, false);
  }

  /** Some initial part of the cross-venue routes followed by the others is kept. */
  lemma PrioritizedIsPrefix(rs: seq<Route>, limit: nat, shareBPS: nat)
    ensures Prioritized(rs, limit, shareBPS) <= Select(rs, true) + Select(rs, false)
    ensures |Prioritized(rs, limit, shareBPS)| >= Min(limit, |Select(rs, true) + Select(rs, false)|)
    ensures shareBPS <= 10000 ==> |Prioritized(rs, limit, shareBPS)| <= limit
  {
    var cross, same := Select(rs, true), Select(rs, false);
    var reserve := Min(limit * shareBPS / 10000, |cross|);
    assert cross == cross[..reserve] + cross[reserve..];
    assert cross[..reserve] + (cross[reserve..] + same) == cross + same;
    if shareBPS <= 10000 { ShareBelowLimit(limit, shareBPS); }
  }

  lemma PrefixMultiset(a: seq<Route>, b: seq<Route>)
    requires a <= b
    ensures multiset(a) <= multiset(b)
  {
    assert b == a + b[|a|..];
  }

  /** What prioritisation does: it keeps a sub-multiset of its input, as much as fits, and all cross-venue
      routes come first whatever the share.  (The reserved ones are followed by the other cross-venue routes
      before any same-venue route, so below a full share the reservation never changes the result.) */
  lemma PrioritizedIsCrossFirst(rs: seq<Route>, limit: nat, shareBPS: nat)
    ensures multiset(Prioritized(rs, limit, shareBPS)) <= multiset(rs)
    ensures shareBPS <= 10000 ==>
      Prioritized(rs, limit, shareBPS) == Extend([], Select(rs, true) + Select(rs, false), limit)
    ensures shareBPS <= 10000 ==> |Prioritized(rs, limit, shareBPS)| == Min(limit, |rs|)
  {
    var all := Select(rs, true) + Select(rs, false);
    SelectPartitions(rs);
    assert multiset(all) == multiset(rs);
    assert |all| == |multiset(all)| == |multiset(rs)| == |rs|;
    var out := Prioritized(rs, limit, shareBPS);
    PrioritizedIsPrefix(rs, limit, shareBPS);
    PrefixMultiset(out, all);
    if shareBPS <= 10000 { PrefixIsExtend(out, all, limit); }
  }

  /** So no route over one venue comes before one over two. */
  lemma TwoVenuesFirst(rs: seq<Route>, limit: nat, shareBPS: nat, i: nat, j: nat)
    requires var out := Prioritized(rs, limit, shareBPS);
             i < j < |out| && |out[j].hops| == 2 && out[j].hops[0].dex != out[j].hops[1].dex
    ensures var out := Prioritized(rs, limit, shareBPS);
            |out[i].hops| == 2 && out[i].hops[0].dex != out[i].hops[1].dex
  {
    var out, cross, same := Prioritized(rs, limit, shareBPS), Select(rs, true), Select(rs, false);
    PrioritizedIsPrefix(rs, limit, shareBPS);
    SelectPartitions(rs);
    assert out[i] == (cross + same)[i] && out[j] == (cross + same)[j];
    assert forall t :: 0 <= t < |same| ==> !CrossVenue(same[t]) && same[t] in same;
    assert j < |cross| && cross[i] in cross;
  }

  lemma PrefixIsExtend(a: seq<Route>, b: seq<Route>, limit: nat)
    requires a <= b && |a| == Min(limit, |b|)
    ensures a == Extend([], b, limit)
  { }

  lemma PrioritizedKeepsOnly(rs: seq<Route>, limit: nat, shareBPS: nat, r: Route)
    requires r in Prioritized(rs, limit, shareBPS)
    ensures r in rs
  {
    PrioritizedIsCrossFirst(rs, limit, shareBPS);
    assert r in multiset(Prioritized(rs, limit, shareBPS)) && r in multiset(rs);
  }

  lemma ShareBelowLimit(limit: nat, shareBPS: nat)
    requires shareBPS <= 10000
    ensures limit * shareBPS / 10000 <= limit
  {
    assert limit * shareBPS <= limit * 10000;
  }

  // ---------------------------------------------------------------- one start, all starts

  /** What one hop depth contributes. */
  ghost predicate HopPart(part: seq<Route>, byPair: ByPair, start: Symbol, mids: seq<Symbol>, hops: nat, limit: nat,
                          shareBPS: nat)
    requires hops >= 2
  {
    && |part| <= limit
    && (forall r :: r in part ==> r in AllRoutes(byPair, start, mids, hops))
    && (hops > 2 || shareBPS == 0 ==> part == Extend([], AllRoutes(byPair, start, mids, hops), limit))
    && (hops == 2 && shareBPS > 0 ==>
        exists found ::
          && Reprioritized(part, found, AllRoutes(byPair, start, mids, hops), limit)
          && Enumerated(byPair, start, mids, hops, limit, 16 * limit, found))
  }

  /** With sharing, `found` is what the enumeration produced: at least `limit` routes unless it is complete, and
      at most 16 times as many; the part is its cross-venue routes and then the others, up to the limit,
      whatever the share. */
  ghost predicate Reprioritized(part: seq<Route>, found: seq<Route>, all: seq<Route>, limit: nat) {
    && found <= all && (|found| >= limit || found == all) && |found| <= 16 * limit
    && part == Extend([], Select(found, true) + Select(found, false), limit)
  }

  /** Cut at the limit, prioritisation does not depend on the share, even above a full one. */
  lemma ShareIsIrrelevant(found: seq<Route>, limit: nat, shareBPS: nat)
    ensures Extend([], Prioritized(found, limit, shareBPS), limit)
         == Extend([], Select(found, true) + Select(found, false), limit)
  {
    PrioritizedIsPrefix(found, limit, shareBPS);
    var all := Select(found, true) + Select(found, false);
    PrefixIsExtend(Extend([], Prioritized(found, limit, shareBPS), limit), all, limit);
  }

  method BuildHopShare(start: Symbol, mids: seq<Symbol>, byPair: ByPair, hops: nat, hopLimit: nat, shareBPS: nat)
    returns (part: seq<Route>)
    requires hops >= 2 && hopLimit >= 1
    ensures HopPart(part, byPair, start, mids, hops, hopLimit, shareBPS)
  {
    var sharing := hops == 2 && shareBPS > 0;
    part := BuildHop(start, mids, byPair, hops, hopLimit, if sharing then hopLimit * 16 else hopLimit);
    if sharing {
      ghost var found := part;
      part := PrioritizeTwoHopCrossVenue(part, hopLimit, shareBPS);
      if |part| > hopLimit { part := part[..hopLimit]; }
      SharedPart(part, found, byPair, start, mids, hopLimit, shareBPS);
    } else {
      PrefixIsExtend(part, AllRoutes(byPair, start, mids, hops), hopLimit);
    }
  }

  lemma SharedPart(part: seq<Route>, found: seq<Route>, byPair: ByPair, start: Symbol, mids: seq<Symbol>, limit: nat,
                   shareBPS: nat)
    requires found <= AllRoutes(byPair, start, mids, 2) && |found| <= 16 * limit && shareBPS > 0
    requires |found| >= limit || found == AllRoutes(byPair, start, mids, 2)
    requires Enumerated(byPair, start, mids, 2, limit, 16 * limit, found)
    requires part == Extend([], Prioritized(found, limit, shareBPS), limit)
    ensures HopPart(part, byPair, start, mids, 2, limit, shareBPS)
  {
    forall r | r in part ensures r in AllRoutes(byPair, start, mids, 2) {
      assert r in Prioritized(found, limit, shareBPS);
      PrioritizedKeepsOnly(found, limit, shareBPS, r);
    }
    ShareIsIrrelevant(found, limit, shareBPS);
    assert Reprioritized(part, found, AllRoutes(byPair, start, mids, 2), limit);
  }

  /** The output for one start: one part per hop depth, each within its bucket of the limit. */
  ghost predicate StartPart(out: seq<Route>, byPair: ByPair, start: Symbol, mids: seq<Symbol>, maximum: nat,
                            shareBPS: nat) {
    exists two, three, four ::
      && out == two + three + four
      && HopPart(two, byPair, start, mids, 2, Split(maximum, 3)[0], shareBPS)
      && HopPart(three, byPair, start, mids, 3, Split(maximum, 3)[1], shareBPS)
      && HopPart(four, byPair, start, mids, 4, Split(maximum, 3)[2], shareBPS)
  }

  method BuildFromWithShare(start: Symbol, mids: seq<Symbol>, byPair: ByPair, maximum: nat, shareBPS: nat)
    returns (output: seq<Route>)
    ensures StartPart(output, byPair, start, mids, maximum, shareBPS)
    ensures |output| <= maximum
  {
    var limits := SplitLimit(maximum, 3);
    var two := BuildHopPart(start, mids, byPair, 2, limits[0], shareBPS);
    var three := BuildHopPart(start, mids, byPair, 3, limits[1], shareBPS);
    var four := BuildHopPart(start, mids, byPair, 4, limits[2], shareBPS);
    output := two + three + four;
    ThreeParts(two, three, four, byPair, start, mids, limits, maximum, shareBPS);
  }

  lemma ThreeParts(two: seq<Route>, three: seq<Route>, four: seq<Route>, byPair: ByPair, start: Symbol,
                   mids: seq<Symbol>, limits: seq<nat>, maximum: nat, shareBPS: nat)
    requires limits == Split(maximum, 3)
    requires HopPart(two, byPair, start, mids, 2, limits[0], shareBPS)
    requires HopPart(three, byPair, start, mids, 3, limits[1], shareBPS)
    requires HopPart(four, byPair, start, mids, 4, limits[2], shareBPS)
    ensures StartPart(two + three + four, byPair, start, mids, maximum, shareBPS) && |two + three + four| <= maximum
  {
    SplitThree(maximum);
  }

  /** A hop depth whose bucket is empty is skipped. */
  method BuildHopPart(start: Symbol, mids: seq<Symbol>, byPair: ByPair, hops: nat, hopLimit: nat, shareBPS: nat)
    returns (part: seq<Route>)
    requires hops >= 2
    ensures HopPart(part, byPair, start, mids, hops, hopLimit, shareBPS)
  {
    if hopLimit < 1 {
      EmptyPart(byPair, start, mids, hops, shareBPS);
      return [];
    }
    part := BuildHopShare(start, mids, byPair, hops, hopLimit, shareBPS);
  }

  lemma EmptyPart(byPair: ByPair, start: Symbol, mids: seq<Symbol>, hops: nat, shareBPS: nat)
    requires hops >= 2
    ensures HopPart([], byPair, start, mids, hops, 0, shareBPS)
  {
    var all := AllRoutes(byPair, start, mids, hops);
    if hops == 2 && shareBPS > 0 {
      var none: seq<Route> := [];
      assert Reprioritized(none, none, all, 0);
      assert StopsAfter(byPair, start, Perms(mids, hops - 1), 0, 0, none, 0);
      assert Enumerated(byPair, start, mids, hops, 0, 0, none);
    }
  }

  ghost function CountFrom(rs: seq<Route>, start: Symbol): nat {
    if rs == [] then 0
    else CountFrom(rs[..|rs| - 1], start) + (if rs[|rs| - 1].symbols != [] && rs[|rs| - 1].symbols[0] == start then 1
        else 0)
  }

  lemma {:induction false} CountFromAppend(a: seq<Route>, b: seq<Route>, start: Symbol)
    ensures CountFrom(a + b, start) == CountFrom(a, start) + CountFrom(b, start)
    ensures CountFrom(b, start) <= |b|
  {
    if b == [] {
      assert a + b == a;
    } else {
      CountFromAppend(a, b[..|b| - 1], start);
      assert (a + b)[..|a + b| - 1] == a + b[..|b| - 1];
    }
  }

  lemma {:induction false} CountFromNone(rs: seq<Route>, start: Symbol)
    requires forall r :: r in rs ==> r.symbols != [] && r.symbols[0] != start
    ensures CountFrom(rs, start) == 0
  {
    if rs != [] { CountFromNone(rs[..|rs| - 1], start); }
  }

  /** All starts.  The total respects maxRoutes and every start gets at most its share, the ceiling of
      maxRoutes over the number of starts. */
  method BuildForStarts(rawStarts: seq<Symbol>, rawAssets: seq<Symbol>, byPair: ByPair, maxRoutes: int, shareBPS: nat)
    returns (output: seq<Route>, starts: seq<Symbol>, assets: seq<Symbol>)
    ensures Ascending(starts) && forall x :: x in starts <==> x in rawStarts && x != 0 && maxRoutes >= 1
    ensures maxRoutes < 1 || starts == [] ==> output == []
    ensures maxRoutes >= 0 ==> |output| <= maxRoutes
    ensures RoutesFrom(output, byPair, starts, rawAssets)
    ensures starts != [] && maxRoutes >= 1 ==> forall s :: CountFrom(output, s) <= (maxRoutes + |starts| - 1) / |starts|
    ensures maxRoutes >= 1 && |assets| >= 2 && starts != [] ==>
              exists parts :: AllParts(parts, output, FitsOf(byPair, assets, shareBPS), starts, maxRoutes)
    ensures Ascending(assets) && forall x :: x in assets <==> x in rawAssets && x != 0 && maxRoutes >= 1
  {
    output, starts, assets := [], [], [];
    if maxRoutes < 1 { return; }
    starts := UniqueSorted(rawStarts);
    assets := UniqueSorted(rawAssets);
    output := BuildForSortedStarts(starts, assets, byPair, maxRoutes, shareBPS, FitsOf(byPair, assets, shareBPS));
    forall r | r in output ensures FromStart(byPair, r.symbols[0], rawAssets, r) {
      assert forall i :: 1 <= i < |r.hops| ==> r.symbols[i] in assets;
    }
  }

  /** The distinct non-empty names in order. */
  method UniqueSorted(values: seq<Symbol>) returns (out: seq<Symbol>)
    ensures Ascending(out) && forall x :: x in out <==> x in values && x != 0
  {
    out := [];
    for i := 0 to |values|
      invariant Ascending(out) && forall x :: x in out <==> x in values[..i] && x != 0
    {
      InsertKeeps(out, values[i]);
      assert values[..i + 1] == values[..i] + [values[i]];
      if values[i] != 0 { out := Insert(out, values[i]); }
    }
    assert values[..|values|] == values;
  }

  function Insert(s: seq<Symbol>, x: Symbol): seq<Symbol> {
    if s == [] || s[|s| - 1] < x then s + [x]
    else if s[|s| - 1] == x then s
    else Insert(s[..|s| - 1], x) + [s[|s| - 1]]
  }

  lemma {:induction false} InsertKeeps(s: seq<Symbol>, x: Symbol)
    requires Ascending(s)
    ensures Ascending(Insert(s, x)) && forall y :: y in Insert(s, x) <==> y in s || y == x
  {
    if s != [] && s[|s| - 1] > x {
      var init, last := s[..|s| - 1], s[|s| - 1];
      InsertKeeps(init, x);
      assert s == init + [last];
      var t := Insert(init, x);
      forall i | 0 <= i < |t| ensures t[i] < last { assert t[i] in t; }
    }
  }

  /** Which routes may be the part of one start, given its limit. */
  type Fits = (seq<Route>, Symbol, nat) -> bool

  ghost function FitsOf(byPair: ByPair, assets: seq<Symbol>, shareBPS: nat): Fits {
    (part: seq<Route>, start: Symbol, limit: nat) =>
      StartPart(part, byPair, start, Except(assets, start), limit, shareBPS)
  }

  ghost predicate Accepts(fits: Fits, byPair: ByPair, assets: seq<Symbol>, shareBPS: nat) {
    forall part, start, limit :: StartPart(part, byPair, start, Except(assets, start), limit, shareBPS) ==>
        fits(part, start, limit)
  }

  method BuildForSortedStarts(starts: seq<Symbol>, assets: seq<Symbol>, byPair: ByPair, maxRoutes: nat, shareBPS: nat,
                              ghost fits: Fits)
    returns (output: seq<Route>)
    requires Ascending(starts) && Ascending(assets) && Accepts(fits, byPair, assets, shareBPS)
    ensures maxRoutes < 1 || |assets| < 2 || starts == [] ==> output == []
    ensures |output| <= maxRoutes && RoutesFrom(output, byPair, starts, assets)
    ensures starts != [] ==> forall s :: CountFrom(output, s) <= (maxRoutes + |starts| - 1) / |starts|
    ensures maxRoutes >= 1 && |assets| >= 2 && starts != [] ==>
              exists parts :: AllParts(parts, output, fits, starts, maxRoutes)
  {
    output := [];
    if maxRoutes < 1 || |assets| < 2 || starts == [] { return; }
    var perAsset := (maxRoutes + |starts| - 1) / |starts|;
    ghost var parts: seq<seq<Route>> := [];
    var k := 0;
    while k < |starts| && |output| < maxRoutes
      invariant 0 <= k <= |starts| && Built(output, parts, k, fits, byPair, starts, assets, maxRoutes, perAsset)
      decreases |starts| - k
    {
      var remaining := maxRoutes - |output|;
      var more := BuildForOneStart(starts[k], assets, byPair, Min(perAsset, remaining), shareBPS, fits);
      BuiltMore(output, parts, more, k, fits, byPair, starts, assets, maxRoutes, perAsset);
      parts := parts + [more];
      output := output + more;
      k := k + 1;
    }
    RoutesWiden(output, byPair, starts, k, assets);
    assert AllParts(parts, output, fits, starts, maxRoutes);
  }

  /** Every route is a cycle from one of the starts. */
  ghost predicate RoutesFrom(rs: seq<Route>, byPair: ByPair, starts: seq<Symbol>, assets: seq<Symbol>) {
    forall r :: r in rs ==> r.symbols != [] && r.symbols[0] in starts && FromStart(byPair, r.symbols[0], assets, r)
  }

  lemma RoutesWiden(rs: seq<Route>, byPair: ByPair, starts: seq<Symbol>, k: nat, assets: seq<Symbol>)
    requires k <= |starts| && RoutesFrom(rs, byPair, starts[..k], assets)
    ensures RoutesFrom(rs, byPair, starts, assets)
  { }

  lemma RoutesJoin(a: seq<Route>, b: seq<Route>, byPair: ByPair, starts: seq<Symbol>, k: nat, assets: seq<Symbol>)
    requires k < |starts| && RoutesFrom(a, byPair, starts[..k], assets) && RoutesFrom(b, byPair, [starts[k]], assets)
    ensures RoutesFrom(a + b, byPair, starts[..k + 1], assets)
  {
    assert starts[..k + 1] == starts[..k] + [starts[k]];
  }

  /** After the first k starts: their parts joined, each route from one of them, no start above its share. */
  ghost predicate Built(output: seq<Route>, parts: seq<seq<Route>>, k: nat, fits: Fits, byPair: ByPair,
                        starts: seq<Symbol>,
                        assets: seq<Symbol>, maxRoutes: nat, perAsset: nat) {
    && |parts| == k <= |starts| && PartsSoFar(parts, fits, starts, maxRoutes, perAsset)
    && output == Joined(parts) && |output| <= maxRoutes
    && RoutesFrom(output, byPair, starts[..k], assets)
    && forall s :: CountFrom(output, s) <= perAsset
  }

  lemma BuiltMore(output: seq<Route>, parts: seq<seq<Route>>, more: seq<Route>, k: nat, fits: Fits, byPair: ByPair,
                  starts: seq<Symbol>, assets: seq<Symbol>, maxRoutes: nat, perAsset: nat)
    requires k < |starts| && Ascending(starts)
        && Built(output, parts, k, fits, byPair, starts, assets, maxRoutes, perAsset)
    requires fits(more, starts[k], Min(perAsset, maxRoutes - |output|)) && |more| <= Min(perAsset, maxRoutes - |output|)
    requires RoutesFrom(more, byPair, [starts[k]], assets)
    ensures Built(output + more, parts + [more], k + 1, fits, byPair, starts, assets, maxRoutes, perAsset)
  {
    RoutesJoin(output, more, byPair, starts, k, assets);
    NotYet(output, starts, k);
    ShareOfStart(output, more, starts[k], perAsset);
    AddPart(parts, more, fits, starts, maxRoutes, perAsset);
  }

  lemma NotYet(output: seq<Route>, starts: seq<Symbol>, k: nat)
    requires Ascending(starts) && k < |starts|
    requires forall r :: r in output ==> r.symbols != [] && r.symbols[0] in starts[..k]
    ensures forall r :: r in output ==> r.symbols != [] && r.symbols[0] != starts[k]
  {}

  method BuildForOneStart(start: Symbol, assets: seq<Symbol>, byPair: ByPair, limit: nat, shareBPS: nat,
                          ghost fits: Fits)
    returns (more: seq<Route>)
    requires Ascending(assets) && Accepts(fits, byPair, assets, shareBPS)
    ensures fits(more, start, limit) && |more| <= limit && RoutesFrom(more, byPair, [start], assets)
  {
    more := BuildFromWithShare(start, Except(assets, start), byPair, limit, shareBPS);
    forall r | r in more ensures FromStart(byPair, start, assets, r) {
      StartPartRoutes(more, byPair, start, assets, limit, shareBPS, r);
    }
  }

  function Joined(parts: seq<seq<Route>>): seq<Route> {
    if parts == [] then [] else Joined(parts[..|parts| - 1]) + parts[|parts| - 1]
  }

  /** Part k is the output for start k within the smaller of the share and what the earlier parts left. */
  ghost predicate PartsSoFar(parts: seq<seq<Route>>, fits: Fits, starts: seq<Symbol>, maxRoutes: nat, perAsset: nat) {
    |parts| <= |starts| &&
    forall k {:trigger PartAt(parts, k, fits, starts[k], maxRoutes, perAsset)} ::
      0 <= k < |parts| ==> PartAt(parts, k, fits, starts[k], maxRoutes, perAsset)
  }

  ghost predicate PartAt(parts: seq<seq<Route>>, k: nat, fits: Fits, start: Symbol, maxRoutes: nat, perAsset: nat)
    requires k < |parts|
  {
    var used := |Joined(parts[..k])|;
    used <= maxRoutes && fits(parts[k], start, Min(perAsset, maxRoutes - used))
  }

  /** The output is the parts of the starts in order; it stops before the last start only when it is full. */
  ghost predicate AllParts(parts: seq<seq<Route>>, output: seq<Route>, fits: Fits, starts: seq<Symbol>, maxRoutes: nat)
    requires starts != []
  {
    && PartsSoFar(parts, fits, starts, maxRoutes, (maxRoutes + |starts| - 1) / |starts|)
    && output == Joined(parts) && (|parts| == |starts| || |output| >= maxRoutes)
  }

  lemma AddPart(parts: seq<seq<Route>>, more: seq<Route>, fits: Fits, starts: seq<Symbol>, maxRoutes: nat,
                perAsset: nat)
    requires |parts| < |starts| && PartsSoFar(parts, fits, starts, maxRoutes, perAsset) && |Joined(parts)| <= maxRoutes
    requires fits(more, starts[|parts|], Min(perAsset, maxRoutes - |Joined(parts)|))
    ensures PartsSoFar(parts + [more], fits, starts, maxRoutes, perAsset)
        && Joined(parts + [more]) == Joined(parts) + more
  {
    var all := parts + [more];
    assert all[..|parts|] == parts;
    assert PartAt(all, |parts|, fits, starts[|parts|], maxRoutes, perAsset);
    forall k | 0 <= k < |all| ensures PartAt(all, k, fits, starts[k], maxRoutes, perAsset) {
      if k < |parts| { PartStays(parts, more, k, fits, starts[k], maxRoutes, perAsset); }
    }
  }

  lemma PartStays(parts: seq<seq<Route>>, more: seq<Route>, k: nat, fits: Fits, start: Symbol, maxRoutes: nat,
                  perAsset: nat)
    requires k < |parts| && PartAt(parts, k, fits, start, maxRoutes, perAsset)
    ensures PartAt(parts + [more], k, fits, start, maxRoutes, perAsset)
  {
    assert (parts + [more])[..k] == parts[..k];
  }

  lemma ShareOfStart(before: seq<Route>, more: seq<Route>, start: Symbol, perAsset: nat)
    requires forall s :: CountFrom(before, s) <= perAsset
    requires |more| <= perAsset
    requires forall r :: r in before ==> r.symbols != [] && r.symbols[0] != start
    requires forall r :: r in more ==> r.symbols != [] && r.symbols[0] == start
    ensures forall s :: CountFrom(before + more, s) <= perAsset
  {
    forall s ensures CountFrom(before + more, s) <= perAsset {
      CountFromAppend(before, more, s);
      if s == start { CountFromNone(before, s); } else { CountFromNone(more, s); }
    }
  }

  function Except(assets: seq<Symbol>, start: Symbol): seq<Symbol> {
    if assets == [] then []
    else Except(assets[..|assets| - 1], start) + (if assets[|assets| - 1] != start then [assets[|assets| - 1]] else [])
  }

  lemma {:induction false} ExceptAscending(assets: seq<Symbol>, start: Symbol)
    requires Ascending(assets)
    ensures Ascending(Except(assets, start))
    ensures forall x :: x in Except(assets, start) <==> x in assets && x != start
  {
    if assets != [] {
      ExceptAscending(assets[..|assets| - 1], start);
      assert assets == assets[..|assets| - 1] + [assets[|assets| - 1]];
      var e := Except(assets[..|assets| - 1], start);
      forall i | 0 <= i < |e| ensures e[i] < assets[|assets| - 1] { assert e[i] in e; }
    }
  }

  /** A cycle of 2 to 4 hops from `start` through distinct other assets, pools from their pairs. */
  ghost predicate FromStart(byPair: ByPair, start: Symbol, assets: seq<Symbol>, r: Route) {
    && 2 <= |r.hops| <= 4 && |r.symbols| == |r.hops| + 1
    && r.symbols[0] == start == r.symbols[|r.hops|]
    && Distinct(r.symbols[..|r.hops|])
    && (forall i :: 1 <= i < |r.hops| ==> r.symbols[i] in assets)
    && forall i :: 0 <= i < |r.hops| ==> r.hops[i] in Available(byPair, r.symbols[i], r.symbols[i + 1])
  }

  lemma StartPartRoutes(out: seq<Route>, byPair: ByPair, start: Symbol, assets: seq<Symbol>, maximum: nat,
                        shareBPS: nat, r: Route)
    requires Ascending(assets) && StartPart(out, byPair, start, Except(assets, start), maximum, shareBPS) && r in out
    ensures FromStart(byPair, start, assets, r)
  {
    var mids := Except(assets, start);
    ExceptAscending(assets, start);
    var n: nat :| 2 <= n <= 4 && r in AllRoutes(byPair, start, mids, n);
    AllRoutesExact(byPair, start, mids, n, r);
    var path := r.symbols[1..n];
    forall i | 1 <= i < n ensures r.symbols[i] in assets && r.symbols[i] != start {
      assert r.symbols[i] == path[i - 1] && path[i - 1] in path;
    }
    forall i, j | 0 <= i < j < n ensures r.symbols[i] != r.symbols[j] {
      if i > 0 { assert r.symbols[i] == path[i - 1] && r.symbols[j] == path[j - 1]; }
    }
  }
}
