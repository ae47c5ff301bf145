/** The choice of routes to evaluate in one cycle (selectEvaluationCandidates in
    go/internal/market/engine.go): exploit, new, explore and fill picks, and what that guarantees over rounds.

    Route keys are numbers in Go's string order.  A route's score and observation count are inputs. */
module Selection {
  import opened Arith

  datatype Item = Item(key: nat, score: int, observations: nat)

  datatype Order = ByScore | ByObservations

  predicate Higher(x: Item, y: Item) { x.score > y.score || (x.score == y.score && x.key < y.key) }

  predicate Before(o: Order, x: Item, y: Item) {
    match o
    case ByScore => Higher(x, y)
    case ByObservations => x.observations < y.observations || (x.observations == y.observations && Higher(x, y))
  }

  function Keys(s: seq<Item>): set<nat> { set x | x in s :: x.key }

  ghost predicate DistinctKeys(s: seq<Item>) { forall i, j :: 0 <= i < j < |s| ==> s[i].key != s[j].key }

  ghost predicate Sorted(o: Order, s: seq<Item>) { forall i, j :: 0 <= i < j < |s| ==> Before(o, s[i], s[j]) }

  // ---------------------------------------------------------------- deduplication and sorting

  /** The first candidate of every key, in the order given. */
  function Distinct(s: seq<Item>): seq<Item> {
    if s == [] then []
    else
      var d := Distinct(s[..|s| - 1]);
      if s[|s| - 1].key in Keys(d) then d else d + [s[|s| - 1]]
  }

  lemma {:induction false} DistinctFacts(s: seq<Item>)
    ensures DistinctKeys(Distinct(s)) && Keys(Distinct(s)) == Keys(s)
    ensures forall x :: x in Distinct(s) ==> x in s
  {
    if s != [] {
      var init, last := s[..|s| - 1], s[|s| - 1];
      DistinctFacts(init);
      assert s == init + [last];
      KeysAppend(init, last);
      var d := Distinct(init);
      KeysAppend(d, last);
      if last.key !in Keys(d) {
        forall i | 0 <= i < |d| ensures d[i].key != last.key { assert d[i] in d; }
      }
    }
  }

  lemma KeysAppend(s: seq<Item>, x: Item)
    ensures Keys(s + [x]) == Keys(s) + {x.key}
  {
    forall k ensures k in Keys(s + [x]) <==> k in Keys(s) + {x.key} {
      if k in Keys(s) { var y :| y in s && y.key == k; assert y in s + [x]; }
      if k == x.key { assert x in s + [x]; }
    }
  }

  function Insert(o: Order, s: seq<Item>, x: Item): seq<Item> {
    if s == [] || Before(o, s[|s| - 1], x) then s + [x] else Insert(o, s[..|s| - 1], x) + [s[|s| - 1]]
  }

  /** Sorting; the order is total on distinct keys, so which sort is used does not matter. */
  function Sort(o: Order, s: seq<Item>): seq<Item> {
    if s == [] then [] else Insert(o, Sort(o, s[..|s| - 1]), s[|s| - 1])
  }

  lemma {:induction false} InsertFacts(o: Order, s: seq<Item>, x: Item)
    requires Sorted(o, s) && forall y :: y in s ==> y.key != x.key
    ensures |Insert(o, s, x)| == |s| + 1 && Sorted(o, Insert(o, s, x))
    ensures forall y :: y in Insert(o, s, x) <==> y in s || y == x
    decreases |s|
  {
    if s == [] {
    } else {
      var init, last := s[..|s| - 1], s[|s| - 1];
      assert s == init + [last] && last in s;
      if Before(o, last, x) {
        forall i | 0 <= i < |s| ensures Before(o, s[i], x) { assert i < |s| - 1 ==> Before(o, s[i], last); }
      } else {
        InsertFacts(o, init, x);
        var t := Insert(o, init, x);
        forall i | 0 <= i < |t| ensures Before(o, t[i], last) {
          assert t[i] in t;
          if t[i] != x { var j :| 0 <= j < |init| && init[j] == t[i]; assert Before(o, s[j], s[|s| - 1]); }
        }
      }
    }
  }

  lemma {:induction false} SortFacts(o: Order, s: seq<Item>)
    requires DistinctKeys(s)
    ensures |Sort(o, s)| == |s| && Sorted(o, Sort(o, s)) && DistinctKeys(Sort(o, s))
    ensures forall y :: y in Sort(o, s) <==> y in s
    decreases |s|
  {
    if s != [] {
      var init, last := s[..|s| - 1], s[|s| - 1];
      assert s == init + [last];
      SortFacts(o, init);
      forall y | y in Sort(o, init) ensures y.key != last.key {
        var i :| 0 <= i < |init| && init[i] == y;
        assert s[i].key != s[|s| - 1].key;
      }
      InsertFacts(o, Sort(o, init), last);
      SortedDistinct(o, s, Sort(o, s));
    }
  }

  lemma SortedDistinct(o: Order, s: seq<Item>, t: seq<Item>)
    requires DistinctKeys(s) && Sorted(o, t) && forall y :: y in t ==> y in s
    ensures DistinctKeys(t)
  {
    forall i, j | 0 <= i < j < |t| ensures t[i].key != t[j].key {
      assert Before(o, t[i], t[j]) && t[i] in s && t[j] in s;
      if t[i].key == t[j].key { SameKeySameItem(s, t[i], t[j]); }
    }
  }

  lemma SameKeySameItem(s: seq<Item>, x: Item, y: Item)
    requires DistinctKeys(s) && x in s && y in s && x.key == y.key
    ensures x == y
  {
    var i :| 0 <= i < |s| && s[i] == x;
    var j :| 0 <= j < |s| && s[j] == y;
  }

  // ---------------------------------------------------------------- one pass over a sorted list

  /** The first `quota` items of the first k of the list that are not chosen yet, all or only the unobserved. */
  function Pick(list: seq<Item>, k: nat, prior: seq<Item>, unseenOnly: bool, quota: nat): seq<Item>
    requires k <= |list|
  {
    if k == 0 then []
    else
      var p := Pick(list, k - 1, prior, unseenOnly, quota);
      var x := list[k - 1];
      if |p| < quota && (unseenOnly ==> x.observations == 0) && x.key !in Keys(prior + p) then p + [x] else p
  }

  /** Reference meaning of a pass: the `quota` best eligible items outside `prior`, or all of them. */
  ghost predicate BestOutside(o: Order, d: seq<Item>, prior: seq<Item>, unseenOnly: bool, quota: nat,
                              picks: seq<Item>) {
    && Sorted(o, picks) && |picks| <= quota
    && (forall x :: x in picks ==> x in d && x !in prior && (unseenOnly ==> x.observations == 0))
    && (forall x :: x in d && x !in prior && x !in picks && (unseenOnly ==> x.observations == 0) ==>
          |picks| == quota && AllBefore(o, picks, x))
  }

  ghost predicate AllBefore(o: Order, s: seq<Item>, x: Item) { forall p :: p in s ==> Before(o, p, x) }

  lemma {:induction false} PickFacts(o: Order, list: seq<Item>, k: nat, prior: seq<Item>, unseenOnly: bool, quota: nat)
    requires k <= |list| && DistinctKeys(list) && Sorted(o, list) && forall x :: x in prior ==> x in list
    ensures BestOutside(o, list[..k], prior, unseenOnly, quota, Pick(list, k, prior, unseenOnly, quota))
    decreases k
  {
    if k > 0 {
      PickFacts(o, list, k - 1, prior, unseenOnly, quota);
      var p, x := Pick(list, k - 1, prior, unseenOnly, quota), list[k - 1];
      assert list[..k] == list[..k - 1] + [x];
      forall y | y in p ensures Before(o, y, x) && y.key != x.key {
        var i :| 0 <= i < k - 1 && list[i] == y;
        assert Before(o, list[i], list[k - 1]);
      }
      KeyChosen(list, prior, p, x);
      PassStep(o, list[..k - 1], prior, unseenOnly, quota, p, x);
    }
  }

  /** One more item, later in the order than all picks. */
  lemma PassStep(o: Order, d: seq<Item>, prior: seq<Item>, unseenOnly: bool, quota: nat, p: seq<Item>, x: Item)
    requires BestOutside(o, d, prior, unseenOnly, quota, p) && AllBefore(o, p, x)
    ensures BestOutside(o, d + [x], prior, unseenOnly, quota,
                        if |p| < quota && (unseenOnly ==> x.observations == 0) && x !in prior then p + [x] else p)
  {}

  lemma KeyChosen(list: seq<Item>, prior: seq<Item>, p: seq<Item>, x: Item)
    requires DistinctKeys(list) && x in list && (forall y :: y in prior ==> y in list)
    requires forall y :: y in p ==> y.key != x.key
    ensures x.key in Keys(prior + p) <==> x in prior
  {
    if x.key in Keys(prior + p) {
      var y :| y in prior + p && y.key == x.key;
      assert y in prior;
      SameKeySameItem(list, x, y);
    }
    if x in prior { assert x in prior + p; }
  }

  /** One of the four selection loops: `chosen` grows by the picks of the pass. */
  method AddFrom(list: seq<Item>, chosen: seq<Item>, unseenOnly: bool, quota: nat) returns (picks: seq<Item>)
    ensures picks == Pick(list, |list|, chosen, unseenOnly, quota)
  {
    picks := [];
    var k := 0;
    while k < |list|
      invariant 0 <= k <= |list| && picks == Pick(list, k, chosen, unseenOnly, quota)
      decreases |list| - k
    {
      if |picks| >= quota {
        FullStays(list, k, |list|, chosen, unseenOnly, quota);
        return;
      }
      var item := list[k];
      if (!unseenOnly || item.observations == 0) && item.key !in Keys(chosen + picks) { picks := picks + [item]; }
      k := k + 1;
    }
  }

  lemma {:induction false} FullStays(list: seq<Item>, k: nat, n: nat, prior: seq<Item>, unseenOnly: bool, quota: nat)
    requires k <= n <= |list| && |Pick(list, k, prior, unseenOnly, quota)| >= quota
    ensures Pick(list, n, prior, unseenOnly, quota) == Pick(list, k, prior, unseenOnly, quota)
    decreases n
  {
    if k < n { FullStays(list, k, n - 1, prior, unseenOnly, quota); }
  }

  // ---------------------------------------------------------------- the whole selection

  datatype Slots = Slots(limit: nat, exploit: nat, unseen: nat, explore: nat)

  function Min(a: int, b: int): int { if a < b then a else b }

  /** The slot counts for n distinct routes. */
  function SlotsFor(limit: nat, n: nat, bps: nat): (s: Slots)
    ensures s.limit == Min(limit, n) && s.exploit + s.unseen + s.explore == s.limit
    ensures s.explore >= 1 <==> s.limit * bps >= 10_000 || (bps > 0 && s.limit > 1)
  {
    var l := Min(limit, n);
    var share := l * bps / 10_000;
    var explore := Min(if bps > 0 && share == 0 && l > 1 then 1 else share, l);
    var tenth := if l / 10 == 0 && l >= 3 then 1 else l / 10;
    var unseen := if tenth + explore > l then 0 else tenth;
    SharePositive(l * bps);
    Slots(l, l - explore - unseen, unseen, explore)
  }

  lemma SharePositive(x: nat)
    ensures x / 10_000 >= 1 <==> x >= 10_000
  {}

  /** How many slots: the explore share rounded down, at least one of two slots and at most all; a tenth for new
      routes rounded down, at least one of three slots, and none if the explore slots leave too little. */
  lemma SlotsExact(limit: nat, n: nat, bps: nat)
    ensures var s := SlotsFor(limit, n, bps);
            && (bps >= 10_000 ==> s.explore == s.limit)
            && (bps < 10_000 <= s.limit * bps ==> 10_000 * s.explore <= s.limit * bps < 10_000 * s.explore + 10_000)
            && (s.limit * bps < 10_000 ==> s.explore == if bps > 0 && s.limit > 1 then 1 else 0)
            && (s.limit < 3 ==> s.unseen == 0)
            && (3 <= s.limit < 10 ==> s.unseen == if s.explore < s.limit then 1 else 0)
            && (s.limit >= 10 && 10 * (s.limit - s.explore + 1) > s.limit ==>
                10 * s.unseen <= s.limit < 10 * s.unseen + 10)
            && (s.limit >= 10 && 10 * (s.limit - s.explore + 1) <= s.limit ==> s.unseen == 0)
  {
    var s := SlotsFor(limit, n, bps);
    MulMono(10_000, bps, s.limit);
    MulMono(bps, 10_000, s.limit);
    assert s.limit * bps == bps * s.limit;
  }

  datatype Choice = Choice(exploit: seq<Item>, unseen: seq<Item>, explore: seq<Item>, fill: seq<Item>)

  function All(c: Choice): seq<Item> { c.exploit + c.unseen + c.explore + c.fill }

  function Select(d: seq<Item>, s: Slots): Choice {
    var a := Pass(ByScore, d, [], false, s.exploit);
    var b := Pass(ByScore, d, a, true, s.unseen);
    var c := Pass(ByObservations, d, a + b, false, s.explore);
    var left := s.limit - |a + b + c|;
    Choice(a, b, c, Pass(ByScore, d, a + b + c, false, if left < 0 then 0 else left))
  }

  function Pass(o: Order, d: seq<Item>, prior: seq<Item>, unseenOnly: bool, quota: nat): seq<Item> {
    Pick(Sort(o, d), |Sort(o, d)|, prior, unseenOnly, quota)
  }

  /** Meaning of the choice: four nested "best outside" picks. */
  ghost predicate Chosen(d: seq<Item>, s: Slots, c: Choice) {
    && BestOutside(ByScore, d, [], false, s.exploit, c.exploit)
    && BestOutside(ByScore, d, c.exploit, true, s.unseen, c.unseen)
    && BestOutside(ByObservations, d, c.exploit + c.unseen, false, s.explore, c.explore)
    && |c.exploit + c.unseen + c.explore| <= s.limit
    && BestOutside(ByScore, d, c.exploit + c.unseen + c.explore, false, s.limit - |c.exploit + c.unseen + c.explore|,
        c.fill)
  }

  lemma PassIsBest(o: Order, d: seq<Item>, prior: seq<Item>, unseenOnly: bool, quota: nat)
    requires DistinctKeys(d) && forall x :: x in prior ==> x in d
    ensures BestOutside(o, d, prior, unseenOnly, quota, Pass(o, d, prior, unseenOnly, quota))
  {
    var t := Sort(o, d);
    SortFacts(o, d);
    PickFacts(o, t, |t|, prior, unseenOnly, quota);
    assert t[..|t|] == t;
  }

  lemma SelectIsChosen(d: seq<Item>, s: Slots)
    requires DistinctKeys(d) && s.exploit + s.unseen + s.explore <= s.limit
    ensures Chosen(d, s, Select(d, s))
  {
    var a := Pass(ByScore, d, [], false, s.exploit);
    PassIsBest(ByScore, d, [], false, s.exploit);
    LaterPasses(d, s, a);
  }

  lemma LaterPasses(d: seq<Item>, s: Slots, a: seq<Item>)
    requires DistinctKeys(d) && s.exploit + s.unseen + s.explore <= s.limit
    requires BestOutside(ByScore, d, [], false, s.exploit, a)
    ensures var b := Pass(ByScore, d, a, true, s.unseen);
            var c := Pass(ByObservations, d, a + b, false, s.explore);
            && BestOutside(ByScore, d, a, true, s.unseen, b)
            && BestOutside(ByObservations, d, a + b, false, s.explore, c)
            && |a + b + c| <= s.limit
            && BestOutside(ByScore, d, a + b + c, false, s.limit - |a + b + c|,
                Pass(ByScore, d, a + b + c, false, s.limit - |a + b + c|))
  {
    PassIsBest(ByScore, d, a, true, s.unseen);
    var b := Pass(ByScore, d, a, true, s.unseen);
    PassIsBest(ByObservations, d, a + b, false, s.explore);
    var c := Pass(ByObservations, d, a + b, false, s.explore);
    PassIsBest(ByScore, d, a + b + c, false, s.limit - |a + b + c|);
  }

  /** A pass that stops short of its quota has taken every eligible item. */
  lemma PassFills(o: Order, d: seq<Item>, prior: seq<Item>, quota: nat, picks: seq<Item>)
    requires DistinctKeys(d) && DistinctKeys(prior) && (forall x :: x in prior ==> x in d)
    requires BestOutside(o, d, prior, false, quota, picks) && |prior| + quota <= |d|
    ensures |picks| == quota
  {
    if |picks| < quota {
      assert forall x :: x in d ==> x in prior + picks;
      Pigeonhole(d, prior + picks);
    }
  }

  lemma {:induction false} Pigeonhole(d: seq<Item>, s: seq<Item>)
    requires DistinctKeys(d) && forall x :: x in d ==> x in s
    ensures |d| <= |s|
    decreases |d|
  {
    if d != [] {
      var last := d[|d| - 1];
      assert last in d;
      var i :| 0 <= i < |s| && s[i] == last;
      var s' := s[..i] + s[i + 1..];
      forall x | x in d[..|d| - 1] ensures x in s' {
        assert x in d && x != last;
        var j :| 0 <= j < |s| && s[j] == x;
        assert j != i;
        assert j < i ==> s'[j] == x;
        assert j > i ==> s'[j - 1] == x;
      }
      Pigeonhole(d[..|d| - 1], s');
    }
  }

  lemma JoinDistinct(o: Order, d: seq<Item>, prior: seq<Item>, unseenOnly: bool, quota: nat, picks: seq<Item>)
    requires DistinctKeys(d) && DistinctKeys(prior) && (forall x :: x in prior ==> x in d)
    requires BestOutside(o, d, prior, unseenOnly, quota, picks)
    ensures DistinctKeys(prior + picks) && forall x :: x in prior + picks ==> x in d
  {
    SortedDistinct(o, d, picks);
    forall i, j | 0 <= i < |prior| && 0 <= j < |picks| ensures prior[i].key != picks[j].key {
      assert prior[i] in prior && picks[j] in picks;
      if prior[i].key == picks[j].key { SameKeySameItem(d, prior[i], picks[j]); }
    }
  }

  /** The result has exactly the limit, without repeats; every slot kind is served in full except that there
      may be fewer unobserved routes; an explore pick is no more observed than any route left out; and an
      exploit pick scores at least as high as any route left out. */
  lemma SelectionExact(d: seq<Item>, s: Slots)
    requires DistinctKeys(d) && s.exploit + s.unseen + s.explore == s.limit <= |d|
    ensures var c := Select(d, s);
            && |All(c)| == s.limit && DistinctKeys(All(c)) && (forall x :: x in All(c) ==> x in d)
            && |c.exploit| == s.exploit && |c.explore| == s.explore
            && (forall p, x :: p in c.explore && x in d && x !in All(c) ==> p.observations <= x.observations)
            && (forall p, x :: p in c.exploit && x in d && x !in c.exploit ==> p.score >= x.score)
            && ((exists x :: x in d && x !in All(c) && x.observations == 0) ==> |c.unseen| == s.unseen)
  {
    SelectIsChosen(d, s);
    var c := Select(d, s);
    var a, b, e, f := c.exploit, c.unseen, c.explore, c.fill;
    PassFills(ByScore, d, [], s.exploit, a);
    JoinDistinct(ByScore, d, [], false, s.exploit, a);
    assert [] + a == a;
    JoinDistinct(ByScore, d, a, true, s.unseen, b);
    PassFills(ByObservations, d, a + b, s.explore, e);
    JoinDistinct(ByObservations, d, a + b, false, s.explore, e);
    PassFills(ByScore, d, a + b + e, s.limit - |a + b + e|, f);
    JoinDistinct(ByScore, d, a + b + e, false, s.limit - |a + b + e|, f);
  }

  /** The selection procedure itself. */
  method SelectEvaluationCandidates(candidates: seq<Item>, limit: int, bps: nat) returns (c: Choice)
    ensures limit < 1 ==> All(c) == []
    ensures limit >= 1 ==> c == Select(Distinct(candidates), SlotsFor(limit, |Distinct(candidates)|, bps))
    ensures |All(c)| == Min(if limit < 0 then 0 else limit, |Distinct(candidates)|)
    ensures DistinctKeys(All(c)) && Keys(All(c)) <= Keys(candidates)
  {
    c := Choice([], [], [], []);
    if limit < 1 { return; }
    var scored := [];
    var seen := {};
    for i := 0 to |candidates|
      invariant scored == Distinct(candidates[..i]) && seen == Keys(scored)
    {
      assert candidates[..i + 1][..i] == candidates[..i];
      KeysAppend(scored, candidates[i]);
      if candidates[i].key !in seen {
        seen := seen + {candidates[i].key};
        scored := scored + [candidates[i]];
      }
    }
    assert candidates[..|candidates|] == candidates;
    DistinctFacts(candidates);
    var slots := SlotsFor(limit, |scored|, bps);
    var byScore, byObservations := Sort(ByScore, scored), Sort(ByObservations, scored);
    var a := AddFrom(byScore, [], false, slots.exploit);
    var b := AddFrom(byScore, a, true, slots.unseen);
    var e := AddFrom(byObservations, a + b, false, slots.explore);
    SelectIsChosen(scored, slots);
    var f := AddFrom(byScore, a + b + e, false, slots.limit - |a + b + e|);
    c := Choice(a, b, e, f);
    SelectionExact(scored, slots);
  }

  // ---------------------------------------------------------------- runs of many rounds

  /** A fixed candidate set with its options, and the scores per round and key, which may be anything. */
  datatype Market = Market(keys: seq<nat>, limit: nat, bps: nat, score: (nat, nat) -> int)

  ghost predicate Proper(m: Market) { forall i, j :: 0 <= i < j < |m.keys| ==> m.keys[i] != m.keys[j] }

  function SlotsOf(m: Market): Slots { SlotsFor(m.limit, |m.keys|, m.bps) }

  ghost predicate Counted(m: Market, obs: map<nat, nat>) { forall k :: k in m.keys ==> k in obs }

  ghost function Items(m: Market, obs: map<nat, nat>, t: nat): seq<Item>
    requires Counted(m, obs)
  {
    seq(|m.keys|, i requires 0 <= i < |m.keys| =>
      assert m.keys[i] in m.keys; Item(m.keys[i], m.score(t, m.keys[i]), obs[m.keys[i]]))
  }

  /** The keys selected in round t. */
  ghost function Picked(m: Market, obs: map<nat, nat>, t: nat): set<nat> {
    if Counted(m, obs) then Keys(All(Select(Items(m, obs, t), SlotsOf(m)))) else {}
  }

  /** Every selected route gains one observation. */
  ghost function Observe(obs: map<nat, nat>, picked: set<nat>): map<nat, nat> {
    map k | k in obs :: if k in picked then obs[k] + 1 else obs[k]
  }

  /** What a selection rule picks, given the counts and the round. */
  type Rule = (map<nat, nat>, nat) -> set<nat>

  ghost function CountsAt(pick: Rule, obs: map<nat, nat>, t: nat): (r: map<nat, nat>)
    ensures r.Keys == obs.Keys
  {
    if t == 0 then obs
    else
      var before := CountsAt(pick, obs, t - 1);
      Observe(before, pick(before, t - 1))
  }

  ghost predicate PickedAt(pick: Rule, obs: map<nat, nat>, t: nat, r: nat) { r in pick(CountsAt(pick, obs, t), t) }

  ghost function RuleOf(m: Market): Rule { (obs, t) => Picked(m, obs, t) }

  lemma ItemsFacts(m: Market, obs: map<nat, nat>, t: nat)
    requires Proper(m) && Counted(m, obs)
    ensures DistinctKeys(Items(m, obs, t)) && |Items(m, obs, t)| == |m.keys|
    ensures forall x :: x in Items(m, obs, t) <==> x.key in m.keys && x == Item(x.key, m.score(t, x.key), obs[x.key])
  {
    var d := Items(m, obs, t);
    forall x: Item | x.key in m.keys && x == Item(x.key, m.score(t, x.key), obs[x.key]) ensures x in d {
      var i :| 0 <= i < |m.keys| && m.keys[i] == x.key;
      assert d[i] == x;
    }
  }

  /** In a round that leaves route r out, some route that is no more observed than r is selected. */
  lemma SomeoneLessObserved(m: Market, obs: map<nat, nat>, t: nat, r: nat) returns (k: nat)
    requires Proper(m) && Counted(m, obs) && r in m.keys && r !in Picked(m, obs, t)
    requires m.limit >= |m.keys| || SlotsOf(m).explore >= 1
    ensures k in m.keys && k in Picked(m, obs, t) && obs[k] <= obs[r]
  {
    var d, s := Items(m, obs, t), SlotsOf(m);
    ItemsFacts(m, obs, t);
    SelectionExact(d, s);
    var c := Select(d, s);
    var x := Item(r, m.score(t, r), obs[r]);
    assert x in d && x !in All(c);
    if m.limit >= |m.keys| {
      AllTaken(d, All(c), x);
      assert false;
    } else {
      var p := c.explore[0];
      assert p in c.explore && p in All(c);
      k := p.key;
    }
  }

  lemma AllTaken(d: seq<Item>, s: seq<Item>, x: Item)
    requires DistinctKeys(s) && (forall y :: y in s ==> y in d) && |s| == |d| && x in d
    ensures x in s
  {
    if x !in s {
      var i :| 0 <= i < |d| && d[i] == x;
      var d' := d[..i] + d[i + 1..];
      forall y | y in s ensures y in d' {
        var j :| 0 <= j < |d| && d[j] == y;
        assert j != i;
        assert j < i ==> d'[j] == y;
        assert j > i ==> d'[j - 1] == y;
      }
      Pigeonhole(s, d');
    }
  }

  /** How many observations the routes are short of c + 1 each. */
  ghost function Deficit(ks: seq<nat>, obs: map<nat, nat>, c: nat): nat
    requires forall k :: k in ks ==> k in obs
  {
    if ks == [] then 0
    else
      var k := ks[|ks| - 1];
      assert k in ks;
      Deficit(ks[..|ks| - 1], obs, c) + (if obs[k] <= c then c + 1 - obs[k] else 0)
  }

  lemma {:induction false} DeficitFalls(ks: seq<nat>, obs: map<nat, nat>, picked: set<nat>, c: nat)
    requires forall k :: k in ks ==> k in obs
    ensures Deficit(ks, Observe(obs, picked), c) <= Deficit(ks, obs, c)
    ensures (exists k :: k in ks && obs[k] <= c && k in picked) ==>
        Deficit(ks, Observe(obs, picked), c) < Deficit(ks, obs, c)
    decreases |ks|
  {
    if ks != [] {
      assert ks == ks[..|ks| - 1] + [ks[|ks| - 1]];
      DeficitFalls(ks[..|ks| - 1], obs, picked, c);
    }
  }

  lemma Times(n: nat, c: nat)
    requires n > 0
    ensures n * (c + 1) == (n - 1) * (c + 1) + (c + 1)
  {}

  lemma {:induction false} DeficitBound(ks: seq<nat>, obs: map<nat, nat>, c: nat)
    requires forall k :: k in ks ==> k in obs
    ensures Deficit(ks, obs, c) <= |ks| * (c + 1)
    decreases |ks|
  {
    if ks != [] {
      DeficitBound(ks[..|ks| - 1], obs, c);
      Times(|ks|, c);
    }
  }

  lemma {:induction false} DeficitBounds(ks: seq<nat>, obs: map<nat, nat>, c: nat, r: nat)
    requires (forall k :: k in ks ==> k in obs) && r in ks && obs[r] == c
    ensures 1 <= Deficit(ks, obs, c) <= (|ks| - 1) * (c + 1) + 1
    decreases |ks|
  {
    var init, last := ks[..|ks| - 1], ks[|ks| - 1];
    assert ks == init + [last] && last in ks;
    if last == r {
      DeficitBound(init, obs, c);
    } else {
      DeficitBounds(init, obs, c, r);
      Times(|init|, c);
    }
  }

  lemma RoundWithout(m: Market, obs: map<nat, nat>, t: nat, r: nat)
    requires Proper(m) && Counted(m, obs) && r in m.keys && r !in Picked(m, obs, t)
    requires m.limit >= |m.keys| || SlotsOf(m).explore >= 1
    ensures Deficit(m.keys, Observe(obs, Picked(m, obs, t)), obs[r]) < Deficit(m.keys, obs, obs[r])
    ensures Observe(obs, Picked(m, obs, t))[r] == obs[r]
  {
    var k := SomeoneLessObserved(m, obs, t, r);
    DeficitFalls(m.keys, obs, Picked(m, obs, t), obs[r]);
  }

  /** A rule that never picks r and always picks a route no more observed than r runs out of deficit. */
  lemma {:induction false} RunWithout(keys: seq<nat>, pick: Rule, obs: map<nat, nat>, r: nat, n: nat)
    requires (forall k :: k in keys ==> k in obs) && r in keys
    requires forall o: map<nat, nat>, t: nat :: o.Keys == obs.Keys && r !in pick(o, t) ==>
        Progress(keys, o, pick(o, t), r)
    requires forall t: nat :: t < n ==> !PickedAt(pick, obs, t, r)
    ensures CountsAt(pick, obs, n)[r] == obs[r]
    ensures Deficit(keys, CountsAt(pick, obs, n), obs[r]) + n <= Deficit(keys, obs, obs[r])
    decreases n
  {
    if n > 0 {
      RunWithout(keys, pick, obs, r, n - 1);
      assert !PickedAt(pick, obs, n - 1, r);
    }
  }

  ghost predicate Progress(keys: seq<nat>, obs: map<nat, nat>, picked: set<nat>, r: nat)
    requires (forall k :: k in keys ==> k in obs) && r in keys
  {
    Observe(obs, picked)[r] == obs[r] && Deficit(keys, Observe(obs, picked), obs[r]) < Deficit(keys, obs, obs[r])
  }

  lemma {:induction false} PickedInTime(keys: seq<nat>, pick: Rule, obs: map<nat, nat>, r: nat)
    requires (forall k :: k in keys ==> k in obs) && r in keys
    requires forall o: map<nat, nat>, t: nat :: o.Keys == obs.Keys && r !in pick(o, t) ==>
        Progress(keys, o, pick(o, t), r)
    ensures exists t: nat :: t <= (|keys| - 1) * (obs[r] + 1) && PickedAt(pick, obs, t, r)
  {
    var bound := (|keys| - 1) * (obs[r] + 1);
    if forall t: nat :: t < bound + 1 ==> !PickedAt(pick, obs, t, r) {
      RunWithout(keys, pick, obs, r, bound + 1);
      DeficitBounds(keys, obs, obs[r], r);
      DeficitBounds(keys, CountsAt(pick, obs, bound + 1), obs[r], r);
      assert false;
    }
  }

  /** No starvation: whatever the scores do, a route is selected within (n - 1)(c + 1) + 1 rounds, c being the
      number of observations it starts with. */
  lemma SelectedWithinBound(m: Market, obs: map<nat, nat>, r: nat)
    requires Proper(m) && Counted(m, obs) && r in m.keys
    requires m.limit >= |m.keys| || SlotsOf(m).explore >= 1
    ensures exists t: nat :: t <= (|m.keys| - 1) * (obs[r] + 1) && PickedAt(RuleOf(m), obs, t, r)
  {
    var pick := RuleOf(m);
    forall o: map<nat, nat>, t: nat | o.Keys == obs.Keys && r !in pick(o, t)
        ensures Progress(m.keys, o, pick(o, t), r) {
      RoundWithout(m, o, t, r);
    }
    PickedInTime(m.keys, pick, obs, r);
  }

  /** Without explore slots, the lowest-scored route is left out once it has been observed. */
  lemma LowestLeftOut(d: seq<Item>, s: Slots, x: Item)
    requires DistinctKeys(d) && s.exploit + s.unseen + s.explore == s.limit < |d| && s.explore == 0
    requires x in d && x.observations > 0 && forall y :: y in d && y != x ==> Higher(y, x)
    ensures x !in All(Select(d, s))
  {
    SelectIsChosen(d, s);
    SelectionExact(d, s);
    var c := Select(d, s);
    if forall y :: y in d ==> y in All(c) { Pigeonhole(d, All(c)); }
    var y :| y in d && y !in All(c);
    assert y != x ==> Higher(y, x) && !Before(ByScore, x, y);
    assert x !in c.unseen && c.explore == [];
  }

  lemma LowestUnpicked(m: Market, obs: map<nat, nat>, r: nat, t: nat)
    requires Proper(m) && Counted(m, obs) && r in m.keys && obs[r] > 0
    requires m.limit < |m.keys| && SlotsOf(m).explore == 0 && forall k :: k != r ==> m.score(t, k) > m.score(t, r)
    ensures r !in Picked(m, obs, t)
  {
    var d, s := Items(m, obs, t), SlotsOf(m);
    ItemsFacts(m, obs, t);
    var x := Item(r, m.score(t, r), obs[r]);
    LowestLeftOut(d, s, x);
    SelectionExact(d, s);
    forall y | y in All(Select(d, s)) ensures y.key != r {
      if y.key == r { SameKeySameItem(d, x, y); }
    }
  }

  lemma {:induction false} NeverPicked(pick: Rule, obs: map<nat, nat>, r: nat, t: nat)
    requires r in obs && obs[r] > 0
    requires forall o: map<nat, nat>, u: nat :: o.Keys == obs.Keys && o[r] > 0 ==> r !in pick(o, u)
    ensures CountsAt(pick, obs, t)[r] == obs[r] && !PickedAt(pick, obs, t, r)
    decreases t
  {
    if t > 0 { NeverPicked(pick, obs, r, t - 1); }
  }

  ghost predicate Served(m: Market, obs: map<nat, nat>, r: nat) { exists t: nat :: PickedAt(RuleOf(m), obs, t, r) }

  /** Exactly when starvation is impossible, whatever the scores and the counts: all routes fit, or a slot goes
      to exploration, that is the limit times the ratio reaches 10000 or the ratio is positive and the limit
      above one. */
  lemma NoStarvationIff(keys: seq<nat>, limit: nat, bps: nat)
    requires Proper(Market(keys, limit, bps, (t, k) => 0))
    ensures (forall score, obs, r :: Counted(Market(keys, limit, bps, score), obs) && r in keys ==>
        Served(Market(keys, limit, bps, score), obs, r))
       <==> limit >= |keys| || limit * bps >= 10_000 || (bps > 0 && limit > 1)
  {
    if limit >= |keys| || limit * bps >= 10_000 || (bps > 0 && limit > 1) {
      forall score, obs, r | Counted(Market(keys, limit, bps, score), obs) && r in keys
        ensures Served(Market(keys, limit, bps, score), obs, r)
      {
        SelectedWithinBound(Market(keys, limit, bps, score), obs, r);
      }
    } else {
      var r := keys[0];
      var obs := map k | k in keys :: 1;
      var m := Market(keys, limit, bps, (t, k) => if k == r then 0 else 1);
      var pick := RuleOf(m);
      forall o: map<nat, nat>, t: nat | o.Keys == obs.Keys && o[r] > 0 ensures r !in pick(o, t) {
        LowestUnpicked(m, o, r, t);
      }
      forall t: nat ensures !PickedAt(pick, obs, t, r) { NeverPicked(pick, obs, r, t); }
      assert !Served(m, obs, r);
    }
  }
}
