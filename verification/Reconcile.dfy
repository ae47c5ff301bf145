/** The resumable reconciliation with one atomic commit (go/internal/market/engine.go) and the pool cache it
    installs into (go/internal/cache/pool_cache.go). */
module Reconcile {

  import opened Chain
  import opened Options
  import opened Routes
  import opened Enumeration

  /** How discovery of one unit ends: a token of the pair is not configured, the call failed for its own
      reasons, or it found pools. */
  datatype Outcome = NoToken | Failed | Found(pools: seq<Pool>)

  datatype Venue = Uniswap(fee: nat) | Camelot

  /** One unit of work: a pair on one venue and fee tier. */
  datatype Job = Job(pair: Pair, venue: Venue)

  /** A job with its outcome, whenever it is run. */
  datatype Unit = Unit(job: Job, outcome: Outcome)

  type PoolCache = map<nat, Pool>

  datatype Progress = Progress(jobs: seq<Unit>, next: nat, byPair: ByPair, discovered: PoolCache, failures: nat)

  /** The route builder as the commit uses it: a function of the pair table. */
  type Builder = ByPair -> seq<Route>

  function Reverse(p: Pair): Pair { Pair(p.target, p.source) }

  function AppendPools(byPair: ByPair, p: Pair, pools: seq<Pool>): ByPair {
    byPair[p := Available(byPair, p.source, p.target) + pools]
  }

  /** `discovered` after recording pools one by one; a later pool with the same address wins. */
  function Record(discovered: PoolCache, pools: seq<Pool>): PoolCache {
    if pools == [] then discovered
    else Record(discovered, pools[..|pools| - 1])[pools[|pools| - 1].address := pools[|pools| - 1]]
  }

  function Start(jobs: seq<Unit>): Progress { Progress(jobs, 0, map[], map[], 0) }

  /** Consume the next unit. */
  function Consume(p: Progress): Progress {
    if p.next >= |p.jobs| then p
    else
      var u := p.jobs[p.next];
      match u.outcome
      case NoToken => p.(next := p.next + 1)
      case Failed => p.(next := p.next + 1, failures := p.failures + 1)
      case Found(pools) =>
        p.(next := p.next + 1,
           byPair := AppendPools(AppendPools(p.byPair, u.job.pair, pools), Reverse(u.job.pair), pools),
           discovered := Record(p.discovered, pools))
  }

  // One pass over the first n units, field by field.

  function TableTo(jobs: seq<Unit>, n: nat): ByPair
    requires n <= |jobs|
  {
    if n == 0 then map[]
    else if !jobs[n - 1].outcome.Found? then TableTo(jobs, n - 1)
    else
      var u := jobs[n - 1];
      AppendPools(AppendPools(TableTo(jobs, n - 1), u.job.pair, u.outcome.pools), Reverse(u.job.pair), u.outcome.pools)
  }

  function DiscoveredTo(jobs: seq<Unit>, n: nat): PoolCache
    requires n <= |jobs|
  {
    if n == 0 then map[]
    else if !jobs[n - 1].outcome.Found? then DiscoveredTo(jobs, n - 1)
    else Record(DiscoveredTo(jobs, n - 1), jobs[n - 1].outcome.pools)
  }

  function FailuresTo(jobs: seq<Unit>, n: nat): nat
    requires n <= |jobs|
  {
    if n == 0 then 0 else FailuresTo(jobs, n - 1) + (if jobs[n - 1].outcome.Failed? then 1 else 0)
  }

  function PassTo(jobs: seq<Unit>, n: nat): Progress
    requires n <= |jobs|
  {
    Progress(jobs, n, TableTo(jobs, n), DiscoveredTo(jobs, n), FailuresTo(jobs, n))
  }

  lemma ConsumeIsPass(jobs: seq<Unit>, n: nat)
    requires n < |jobs|
    ensures Consume(PassTo(jobs, n)) == PassTo(jobs, n + 1)
  { }

  /** The commit's pool universe: discovered pools, except that a cached pool with a newer label is kept. */
  function Merge(cache: PoolCache, discovered: PoolCache): PoolCache {
    map a | a in discovered ::
      if a in cache && cache[a].updatedAt > discovered[a].updatedAt then cache[a] else discovered[a]
  }

  function ShortEnough(rs: seq<Route>, maxHops: nat): seq<Route> {
    if rs == [] then []
    else ShortEnough(rs[..|rs| - 1], maxHops) + (if |rs[|rs| - 1].hops| <= maxHops then [rs[|rs| - 1]] else [])
  }

  function LabelOf(p: Pool): nat { p.updatedAt }

  // ---------------------------------------------------------------- the engine

  datatype Engine = Engine(cache: PoolCache, routes: seq<Route>, work: Option<Progress>) {

    /** The state after a batch that consumed m units. */
    function AfterBatch(m: nat, build: Builder, maxHops: nat): Engine {
      if work.None? then this
      else
        var p := Advance(work.value, m);
        if p.next < |p.jobs| then this.(work := Some(p))
        else Engine(Merge(cache, p.discovered), ShortEnough(build(p.byPair), maxHops), None)
    }
  }

  function Advance(p: Progress, m: nat): Progress
    decreases m
  {
    if m == 0 then p else Advance(Consume(p), m - 1)
  }

  class Reconciler {
    const build: Builder
    const maxHops: nat
    var cache: PoolCache
    var routeCache: seq<Route>
    var work: Option<Progress>

    ghost function State(): Engine reads this { Engine(cache, routeCache, work) }

    constructor (build: Builder, maxHops: nat, cache: PoolCache)
      ensures this.build == build && this.maxHops == maxHops
      ensures State() == Engine(cache, [], None)
    {
      this.build, this.maxHops, this.cache, routeCache, work := build, maxHops, cache, [], None;
    }

    /** A new pass over every allowed pair of the market's assets, on every fee tier and on Camelot. */
    method StartReconciliation(symbols: seq<Symbol>, allowed: (Symbol, Symbol) -> bool, fees: seq<nat>,
                               discover: Job -> Outcome)
      requires Ascending(symbols)   // MarketAssets sorts a set
      modifies this`work
      ensures work.Some? && work.value == Start(work.value.jobs)
      ensures work.value.jobs == Units(JobsFor(symbols, allowed, fees), discover)
      ensures forall job :: multiset(JobsFor(symbols, allowed, fees))[job] == Times(symbols, allowed, fees, job)
    {
      var jobs: seq<Job> := [];
      for i := 0 to |symbols|
        invariant jobs == RowsTo(symbols, allowed, fees, i) && work == old(work)
      {
        jobs := AppendRow(jobs, symbols, allowed, fees, i);
      }
      work := Some(Start(Units(jobs, discover)));
      EachJobCounted(symbols, allowed, fees);
    }

    /** One bounded batch.  `expiresAfter` is the number of units the batch timeout lets through; the unit it
        interrupts is not consumed.  Nothing but the checkpoint changes unless the last unit is reached. */
    method AdvanceBatch(batchSize: int, expiresAfter: nat) returns (processed: nat)
      modifies this
      ensures State() == old(State()).AfterBatch(processed, build, maxHops)
      ensures processed == Min(Min(if batchSize < 1 then 1 else batchSize, expiresAfter), UnitsLeft(old(work)))
    {
      processed := 0;
      if work.None? { return; }
      var state;
      state, processed := ConsumeSome(work.value, if batchSize < 1 then 1 else batchSize, expiresAfter);
      if state.next < |state.jobs| {
        work := Some(state);
        return;
      }
      cache := Merge(cache, state.discovered);
      routeCache := KeepShort(build(state.byPair), maxHops);
      work := None;
    }
  }

  method ConsumeSome(start: Progress, size: nat, expiresAfter: nat) returns (state: Progress, processed: nat)
    ensures state == Advance(start, processed)
    ensures processed == Min(Min(size, expiresAfter), UnitsLeft(Some(start)))
  {
    state, processed := start, 0;
    while state.next < |state.jobs| && processed < size && processed < expiresAfter
      invariant processed <= size && processed <= expiresAfter
      invariant UnitsLeft(Some(state)) == UnitsLeft(Some(start)) - processed
      invariant state == Advance(start, processed)
    {
      AdvanceStep(start, processed);
      state := Consume(state);
      processed := processed + 1;
    }
  }

  method KeepShort(found: seq<Route>, maxHops: nat) returns (kept: seq<Route>)
    ensures kept == ShortEnough(found, maxHops)
  {
    kept := [];
    for i := 0 to |found|
      invariant kept == ShortEnough(found[..i], maxHops)
    {
      assert found[..i + 1][..i] == found[..i];
      if |found[i].hops| <= maxHops { kept := kept + [found[i]]; }
    }
    assert found[..|found|] == found;
  }

  function UnitsLeft(work: Option<Progress>): nat {
    if work.None? || work.value.next >= |work.value.jobs| then 0 else |work.value.jobs| - work.value.next
  }

  // ---------------------------------------------------------------- the job list

  function Units(jobs: seq<Job>, discover: Job -> Outcome): (units: seq<Unit>)
    ensures |units| == |jobs| && forall i :: 0 <= i < |jobs| ==> units[i].job == jobs[i]
  {
    seq(|jobs|, i requires 0 <= i < |jobs| => Unit(jobs[i], discover(jobs[i])))
  }

  function FeeJobs(p: Pair, fees: seq<nat>): seq<Job> {
    if fees == [] then [] else FeeJobs(p, fees[..|fees| - 1]) + [Job(p, Uniswap(fees[|fees| - 1]))]
  }

  function PairJobs(p: Pair, fees: seq<nat>): seq<Job> { FeeJobs(p, fees) + [Job(p, Camelot)] }

  method AppendPair(before: seq<Job>, p: Pair, fees: seq<nat>) returns (jobs: seq<Job>)
    ensures jobs == before + PairJobs(p, fees)
  {
    jobs := before;
    for f := 0 to |fees|
      invariant jobs == before + FeeJobs(p, fees[..f])
    {
      assert fees[..f + 1][..f] == fees[..f];
      jobs := jobs + [Job(p, Uniswap(fees[f]))];
    }
    assert fees[..|fees|] == fees;
    jobs := jobs + [Job(p, Camelot)];
  }

  /** The jobs of asset i with the assets after it, up to k. */
  function Row(symbols: seq<Symbol>, allowed: (Symbol, Symbol) -> bool, fees: seq<nat>, i: nat, k: nat): seq<Job>
    requires i < k <= |symbols|
    decreases k
  {
    if k == i + 1 then []
    else
      var p := Pair(symbols[i], symbols[k - 1]);
      Row(symbols, allowed, fees, i, k - 1)
        + (if allowed(p.source, p.target) then PairJobs(p, fees) else [])
  }

  method AppendRow(before: seq<Job>, symbols: seq<Symbol>, allowed: (Symbol, Symbol) -> bool, fees: seq<nat>, i: nat)
    returns (jobs: seq<Job>)
    requires i < |symbols|
    ensures jobs == before + Row(symbols, allowed, fees, i, |symbols|)
  {
    jobs := before;
    for k := i + 1 to |symbols|
      invariant jobs == before + Row(symbols, allowed, fees, i, k)
    {
      if allowed(symbols[i], symbols[k]) { jobs := AppendPair(jobs, Pair(symbols[i], symbols[k]), fees); }
    }
  }

  function RowsTo(symbols: seq<Symbol>, allowed: (Symbol, Symbol) -> bool, fees: seq<nat>, n: nat): seq<Job>
    requires n <= |symbols|
  {
    if n == 0 then [] else RowsTo(symbols, allowed, fees, n - 1) + Row(symbols, allowed, fees, n - 1, |symbols|)
  }

  function JobsFor(symbols: seq<Symbol>, allowed: (Symbol, Symbol) -> bool, fees: seq<nat>): seq<Job> {
    RowsTo(symbols, allowed, fees, |symbols|)
  }

  /** How often a venue is asked for one pair: once per listing of its fee tier, once for Camelot. */
  ghost function Copies(venue: Venue, fees: seq<nat>): nat {
    if venue.Camelot? then 1 else multiset(fees)[venue.fee]
  }

  /** How often a job is due: the pair is an allowed pair of two assets, in order. */
  ghost function Times(symbols: seq<Symbol>, allowed: (Symbol, Symbol) -> bool, fees: seq<nat>, job: Job): nat {
    var p := job.pair;
    if p.source in symbols && p.target in symbols && p.source < p.target && allowed(p.source, p.target)
    then Copies(job.venue, fees) else 0
  }

  lemma {:induction false} FeeJobsCount(p: Pair, fees: seq<nat>, job: Job)
    ensures multiset(FeeJobs(p, fees))[job] == if job.pair == p && job.venue.Uniswap? then multiset(fees)[job.venue.fee]
        else 0
  {
    if fees != [] {
      FeeJobsCount(p, fees[..|fees| - 1], job);
      assert fees == fees[..|fees| - 1] + [fees[|fees| - 1]];
    }
  }

  lemma PairJobsCount(p: Pair, fees: seq<nat>, job: Job)
    ensures multiset(PairJobs(p, fees))[job] == if job.pair == p then Copies(job.venue, fees) else 0
  {
    FeeJobsCount(p, fees, job);
  }

  lemma NextTarget(symbols: seq<Symbol>, i: nat, k: nat, x: Symbol)
    requires Ascending(symbols) && i + 1 < k <= |symbols|
    ensures x in symbols[i + 1..k] <==> x in symbols[i + 1..k - 1] || x == symbols[k - 1]
    ensures symbols[k - 1] !in symbols[i + 1..k - 1]
  {
    assert symbols[i + 1..k] == symbols[i + 1..k - 1] + [symbols[k - 1]];
  }

  lemma {:induction false} RowCount(symbols: seq<Symbol>, allowed: (Symbol, Symbol) -> bool, fees: seq<nat>, i: nat,
                                    k: nat, job: Job)
    requires Ascending(symbols) && i < k <= |symbols|
    ensures multiset(Row(symbols, allowed, fees, i, k))[job]
         == if job.pair.source == symbols[i] && job.pair.target in symbols[i + 1..k]
             && allowed(job.pair.source, job.pair.target)
            then Copies(job.venue, fees) else 0
    decreases k
  {
    if k > i + 1 {
      RowCount(symbols, allowed, fees, i, k - 1, job);
      PairJobsCount(Pair(symbols[i], symbols[k - 1]), fees, job);
      NextTarget(symbols, i, k, job.pair.target);
    }
  }

  lemma LaterIsGreater(symbols: seq<Symbol>, i: nat, x: Symbol)
    requires Ascending(symbols) && i < |symbols|
    ensures x in symbols[i + 1..|symbols|] <==> x in symbols && symbols[i] < x
  { }

  lemma NextSource(symbols: seq<Symbol>, i: nat, x: Symbol)
    requires Ascending(symbols) && i < |symbols|
    ensures x in symbols[..i + 1] <==> x in symbols[..i] || x == symbols[i]
    ensures symbols[i] !in symbols[..i]
  {
    assert symbols[..i + 1] == symbols[..i] + [symbols[i]];
  }

  lemma FullRowCount(symbols: seq<Symbol>, allowed: (Symbol, Symbol) -> bool, fees: seq<nat>, i: nat, job: Job)
    requires Ascending(symbols) && i < |symbols|
    ensures multiset(Row(symbols, allowed, fees, i, |symbols|))[job]
         == if job.pair.source == symbols[i] then Times(symbols, allowed, fees, job) else 0
  {
    RowCount(symbols, allowed, fees, i, |symbols|, job);
    LaterIsGreater(symbols, i, job.pair.target);
  }

  lemma {:induction false} RowsCount(symbols: seq<Symbol>, allowed: (Symbol, Symbol) -> bool, fees: seq<nat>, n: nat,
                                     job: Job)
    requires Ascending(symbols) && n <= |symbols|
    ensures multiset(RowsTo(symbols, allowed, fees, n))[job]
         == if job.pair.source in symbols[..n] then Times(symbols, allowed, fees, job) else 0
  {
    if n > 0 {
      RowsCount(symbols, allowed, fees, n - 1, job);
      FullRowCount(symbols, allowed, fees, n - 1, job);
      NextSource(symbols, n - 1, job.pair.source);
    }
  }

  lemma EachJobCounted(symbols: seq<Symbol>, allowed: (Symbol, Symbol) -> bool, fees: seq<nat>)
    requires Ascending(symbols)
    ensures forall job :: multiset(JobsFor(symbols, allowed, fees))[job] == Times(symbols, allowed, fees, job)
  {
    forall job ensures multiset(JobsFor(symbols, allowed, fees))[job] == Times(symbols, allowed, fees, job) {
      RowsCount(symbols, allowed, fees, |symbols|, job);
      assert symbols[..|symbols|] == symbols;
    }
  }

  /** Every allowed pair is looked up once on each fee tier and once on Camelot, in one direction only, and no
      other pair is; a tier configured twice is looked up twice. */
  lemma EveryJobOnce(symbols: seq<Symbol>, allowed: (Symbol, Symbol) -> bool, fees: seq<nat>, p: Pair, venue: Venue)
    requires Ascending(symbols)
    ensures var n := multiset(JobsFor(symbols, allowed, fees))[Job(p, venue)];
            && n == Times(symbols, allowed, fees, Job(p, venue))
            && (n > 0 ==> p.source < p.target && Job(Reverse(p), venue) !in JobsFor(symbols, allowed, fees))
            && ((forall x, y :: 0 <= x < y < |fees| ==> fees[x] != fees[y]) ==>
                 n == if p.source in symbols && p.target in symbols && p.source < p.target
                     && allowed(p.source, p.target)
                         && (venue.Uniswap? ==> venue.fee in fees) then 1 else 0)
  {
    EachJobCounted(symbols, allowed, fees);
    assert multiset(JobsFor(symbols, allowed, fees))[Job(Reverse(p), venue)]
        == Times(symbols, allowed, fees, Job(Reverse(p), venue));
    if forall x, y :: 0 <= x < y < |fees| ==> fees[x] != fees[y] {
      if venue.Uniswap? { DistinctCount(fees, venue.fee); }
    }
  }

  lemma {:induction false} DistinctCount(fees: seq<nat>, fee: nat)
    requires forall x, y :: 0 <= x < y < |fees| ==> fees[x] != fees[y]
    ensures multiset(fees)[fee] == if fee in fees then 1 else 0
  {
    if fees != [] {
      DistinctCount(fees[..|fees| - 1], fee);
      assert fees == fees[..|fees| - 1] + [fees[|fees| - 1]];
    }
  }

  lemma {:induction false} AdvanceStep(p: Progress, m: nat)
    ensures Advance(p, m + 1) == Consume(Advance(p, m))
    decreases m
  {
    if m > 0 { AdvanceStep(Consume(p), m - 1); }
  }

  // ---------------------------------------------------------------- batching preserves meaning

  /** Between batches the cycle may write refreshed pools into the cache. */
  datatype Event = Batch(units: nat) | Refresh(pool: Pool)

  function Apply(e: Engine, ev: Event, build: Builder, maxHops: nat): Engine {
    match ev
    case Batch(m) => e.AfterBatch(m, build, maxHops)
    case Refresh(p) => e.(cache := Put(e.cache, p.address, p, LabelOf))
  }

  function Exec(e: Engine, evs: seq<Event>, build: Builder, maxHops: nat): Engine {
    if evs == [] then e else Apply(Exec(e, evs[..|evs| - 1], build, maxHops), evs[|evs| - 1], build, maxHops)
  }

  /** The cache if only the refreshes happened. */
  function Refreshes(c: PoolCache, evs: seq<Event>): PoolCache {
    if evs == [] then c
    else
      var before := Refreshes(c, evs[..|evs| - 1]);
      if evs[|evs| - 1].Refresh? then Put(before, evs[|evs| - 1].pool.address, evs[|evs| - 1].pool, LabelOf) else before
  }

  lemma AdvanceThen(p: Progress, m: nat, mid: Progress, last: Progress)
    requires m > 0 && Advance(p, m - 1) == mid && Consume(mid) == last
    ensures Advance(p, m) == last
  {
    AdvanceStep(p, m - 1);
  }

  lemma ConsumeAtEnd(jobs: seq<Unit>)
    ensures Consume(PassTo(jobs, |jobs|)) == PassTo(jobs, |jobs|)
  {}

  lemma {:induction false} AdvanceIsPass(jobs: seq<Unit>, k: nat, m: nat)
    requires k <= |jobs|
    ensures Advance(PassTo(jobs, k), m) == PassTo(jobs, Min(k + m, |jobs|))
    decreases m
  {
    if m > 0 {
      AdvanceIsPass(jobs, k, m - 1);
      var j := Min(k + m - 1, |jobs|);
      if j < |jobs| { ConsumeIsPass(jobs, j); } else { ConsumeAtEnd(jobs); }
      AdvanceThen(PassTo(jobs, k), m, PassTo(jobs, j), PassTo(jobs, Min(k + m, |jobs|)));
    }
  }

  /** Whatever the batch sizes, timeouts and refreshes, an unfinished reconciliation is exactly a one-pass
      prefix of the units, and neither the route cache nor the pool cache has been touched by it. */
  lemma {:induction false} UnfinishedIsPrefix(jobs: seq<Unit>, c: PoolCache, rs: seq<Route>, evs: seq<Event>,
                                              build: Builder, maxHops: nat)
    requires Exec(Engine(c, rs, Some(Start(jobs))), evs, build, maxHops).work.Some?
    ensures var e := Exec(Engine(c, rs, Some(Start(jobs))), evs, build, maxHops);
            && e.work.value.next <= |jobs| && e.work.value == PassTo(jobs, e.work.value.next)
            && e.routes == rs && e.cache == Refreshes(c, evs)
  {
    if evs != [] {
      var before := evs[..|evs| - 1];
      var e := Exec(Engine(c, rs, Some(Start(jobs))), before, build, maxHops);
      UnfinishedIsPrefix(jobs, c, rs, before, build, maxHops);
      if evs[|evs| - 1].Batch? {
        var m := evs[|evs| - 1].units;
        AdvanceIsPass(jobs, e.work.value.next, m);
      }
    }
  }

  /** Batching preserves meaning: the batch that finishes the reconciliation commits exactly what one pass
      over all units gives, merged with the cache as the refreshes left it. */
  lemma CommitEqualsOnePass(jobs: seq<Unit>, c: PoolCache, rs: seq<Route>, evs: seq<Event>, m: nat, build: Builder,
                            maxHops: nat)
    requires var e := Exec(Engine(c, rs, Some(Start(jobs))), evs, build, maxHops);
             e.work.Some? && Apply(e, Batch(m), build, maxHops).work.None?
    ensures var e := Exec(Engine(c, rs, Some(Start(jobs))), evs, build, maxHops);
            Apply(e, Batch(m), build, maxHops) ==
              Engine(Merge(Refreshes(c, evs), DiscoveredTo(jobs, |jobs|)),
                  ShortEnough(build(TableTo(jobs, |jobs|)), maxHops), None)
  {
    var e := Exec(Engine(c, rs, Some(Start(jobs))), evs, build, maxHops);
    UnfinishedIsPrefix(jobs, c, rs, evs, build, maxHops);
    var k := e.work.value.next;
    AdvanceIsPass(jobs, k, m);
  }

  /** A batch commits iff it consumes the last unit. */
  lemma CommitsWhenDone(jobs: seq<Unit>, c: PoolCache, rs: seq<Route>, evs: seq<Event>, m: nat, build: Builder,
                        maxHops: nat)
    requires Exec(Engine(c, rs, Some(Start(jobs))), evs, build, maxHops).work.Some?
    ensures var e := Exec(Engine(c, rs, Some(Start(jobs))), evs, build, maxHops);
            Apply(e, Batch(m), build, maxHops).work.None? <==> e.work.value.next + m >= |jobs|
  {
    var e := Exec(Engine(c, rs, Some(Start(jobs))), evs, build, maxHops);
    UnfinishedIsPrefix(jobs, c, rs, evs, build, maxHops);
    AdvanceIsPass(jobs, e.work.value.next, m);
  }

  // ---------------------------------------------------------------- what one pass contains

  /** The pools the first n units found for the pair {a, b}, in unit order. */
  ghost function FoundFor(jobs: seq<Unit>, n: nat, a: Symbol, b: Symbol): seq<Pool>
    requires n <= |jobs|
  {
    if n == 0 then []
    else
      var u := jobs[n - 1];
      FoundFor(jobs, n - 1, a, b)
        + (if u.outcome.Found? && (u.job.pair == Pair(a, b) || u.job.pair == Pair(b, a)) then u.outcome.pools else [])
  }

  /** Each unit enters the pair table exactly once, in order and in both directions. */
  lemma {:induction false} PairTableIsInOrder(jobs: seq<Unit>, n: nat, a: Symbol, b: Symbol)
    requires n <= |jobs| && a != b
    requires forall i :: 0 <= i < |jobs| ==> jobs[i].job.pair.source != jobs[i].job.pair.target
    ensures Available(TableTo(jobs, n), a, b) == FoundFor(jobs, n, a, b)
  {
    if n > 0 {
      PairTableIsInOrder(jobs, n - 1, a, b);
      var u := jobs[n - 1];
      if u.outcome.Found? { AppendBothWays(TableTo(jobs, n - 1), u.job.pair, u.outcome.pools, a, b); }
    }
  }

  lemma AppendBothWays(t: ByPair, p: Pair, pools: seq<Pool>, a: Symbol, b: Symbol)
    requires p.source != p.target && a != b
    ensures Available(AppendPools(AppendPools(t, p, pools), Reverse(p), pools), a, b)
         == Available(t, a, b) + (if p == Pair(a, b) || p == Pair(b, a) then pools else [])
  { }

  /** Unit i found a pool with address a. */
  ghost predicate Finds(u: Unit, a: nat) { u.outcome.Found? && exists p :: p in u.outcome.pools && p.address == a }

  lemma {:induction false} RecordKeys(d: PoolCache, pools: seq<Pool>, a: nat)
    ensures a in Record(d, pools) <==> a in d || exists p :: p in pools && p.address == a
  {
    if pools != [] {
      RecordKeys(d, pools[..|pools| - 1], a);
      assert pools == pools[..|pools| - 1] + [pools[|pools| - 1]];
      if pools[|pools| - 1].address == a { assert pools[|pools| - 1] in pools; }
    }
  }

  lemma {:induction false} DiscoveredExactly(jobs: seq<Unit>, n: nat, a: nat)
    requires n <= |jobs|
    ensures a in DiscoveredTo(jobs, n) <==> exists i :: 0 <= i < n && Finds(jobs[i], a)
  {
    if n > 0 {
      DiscoveredExactly(jobs, n - 1, a);
      var u := jobs[n - 1];
      if u.outcome.Found? { RecordKeys(DiscoveredTo(jobs, n - 1), u.outcome.pools, a); }
      assert Finds(u, a) <==> (u.outcome.Found? && a in Record(map[], u.outcome.pools)) by {
        if u.outcome.Found? { RecordKeys(map[], u.outcome.pools, a); }
      }
    }
  }

  /** After the commit a pool is cached iff some successful unit found it; in particular a cached pool that
      only failed units would have found is dropped, and no surviving pool's label moves back. */
  lemma CommittedPoolsExactly(jobs: seq<Unit>, cache: PoolCache, a: nat)
    ensures var committed := Merge(cache, DiscoveredTo(jobs, |jobs|));
            && (a in committed <==> exists i :: 0 <= i < |jobs| && Finds(jobs[i], a))
            && (a in committed && a in cache ==> committed[a].updatedAt >= cache[a].updatedAt)
  {
    DiscoveredExactly(jobs, |jobs|, a);
  }

  /** Recording keeps, for each address, the last pool that has it. */
  lemma {:induction false} RecordLast(d: PoolCache, pools: seq<Pool>, j: nat)
    requires j < |pools| && forall i :: j < i < |pools| ==> pools[i].address != pools[j].address
    ensures pools[j].address in Record(d, pools) && Record(d, pools)[pools[j].address] == pools[j]
  {
    if j < |pools| - 1 { RecordLast(d, pools[..|pools| - 1], j); }
  }

  lemma {:induction false} RecordOther(d: PoolCache, pools: seq<Pool>, a: nat)
    requires a in d && forall p :: p in pools ==> p.address != a
    ensures a in Record(d, pools) && Record(d, pools)[a] == d[a]
  {
    if pools != [] {
      assert pools[|pools| - 1] in pools;
      RecordOther(d, pools[..|pools| - 1], a);
    }
  }

  /** Pool j of unit i is the last one found with its address. */
  ghost predicate LastFound(jobs: seq<Unit>, n: nat, i: nat, j: nat) {
    && i < n <= |jobs| && jobs[i].outcome.Found? && j < |jobs[i].outcome.pools|
    && var a := jobs[i].outcome.pools[j].address;
       && (forall t :: j < t < |jobs[i].outcome.pools| ==> jobs[i].outcome.pools[t].address != a)
       && (forall t :: i < t < n ==> !Finds(jobs[t], a))
  }

  lemma {:induction false} DiscoveredIsLast(jobs: seq<Unit>, n: nat, i: nat, j: nat)
    requires LastFound(jobs, n, i, j)
    ensures var p := jobs[i].outcome.pools[j];
            p.address in DiscoveredTo(jobs, n) && DiscoveredTo(jobs, n)[p.address] == p
  {
    var p, u := jobs[i].outcome.pools[j], jobs[n - 1];
    if i == n - 1 {
      RecordLast(DiscoveredTo(jobs, n - 1), u.outcome.pools, j);
    } else {
      DiscoveredIsLast(jobs, n - 1, i, j);
      assert !Finds(u, p.address);
      if u.outcome.Found? { RecordOther(DiscoveredTo(jobs, n - 1), u.outcome.pools, p.address); }
    }
  }

  /** Which pool the commit installs for an address: the last one found, with all its fields, unless the cached one
      has a strictly newer label. */
  lemma CommittedPoolIs(jobs: seq<Unit>, cache: PoolCache, i: nat, j: nat)
    requires LastFound(jobs, |jobs|, i, j)
    ensures var p, committed := jobs[i].outcome.pools[j], Merge(cache, DiscoveredTo(jobs, |jobs|));
            && p.address in committed
            && (p.address in cache && cache[p.address].updatedAt > p.updatedAt ==>
                committed[p.address] == cache[p.address])
            && (p.address !in cache || cache[p.address].updatedAt <= p.updatedAt ==> committed[p.address] == p)
  {
    DiscoveredIsLast(jobs, |jobs|, i, j);
  }

  /** Such a pool exists for every address found, so the two lemmas determine the commit. */
  lemma {:induction false} SomeLastFound(jobs: seq<Unit>, n: nat, a: nat) returns (i: nat, j: nat)
    requires n <= |jobs| && exists t :: 0 <= t < n && Finds(jobs[t], a)
    ensures LastFound(jobs, n, i, j) && jobs[i].outcome.pools[j].address == a
  {
    if Finds(jobs[n - 1], a) {
      i := n - 1;
      j := LastWith(jobs[i].outcome.pools, a);
    } else {
      i, j := SomeLastFound(jobs, n - 1, a);
    }
  }

  lemma {:induction false} LastWith(pools: seq<Pool>, a: nat) returns (j: nat)
    requires exists p :: p in pools && p.address == a
    ensures j < |pools| && pools[j].address == a && forall i :: j < i < |pools| ==> pools[i].address != a
  {
    j := |pools| - 1;
    if pools[j].address != a {
      assert pools == pools[..j] + [pools[j]];
      j := LastWith(pools[..j], a);
    }
  }

  /** The routes the commit keeps: exactly the built ones with at most maxHops hops, in the order built. */
  lemma {:induction false} ShortRoutesInOrder(rs: seq<Route>, maxHops: nat) returns (at: seq<nat>)
    ensures Ascending(at) && |at| == |ShortEnough(rs, maxHops)|
    ensures forall i :: 0 <= i < |at| ==> at[i] < |rs| && ShortEnough(rs, maxHops)[i] == rs[at[i]]
    ensures forall j :: j in at <==> 0 <= j < |rs| && |rs[j].hops| <= maxHops
  {
    at := [];
    if rs != [] {
      at := ShortRoutesInOrder(rs[..|rs| - 1], maxHops);
      if |rs[|rs| - 1].hops| <= maxHops { at := at + [|rs| - 1]; }
    }
  }

  /** The failures reported are the units whose discovery failed. */
  lemma {:induction false} FailuresAreFailed(jobs: seq<Unit>, n: nat)
    requires n <= |jobs|
    ensures FailuresTo(jobs, n) == |set i | 0 <= i < n && jobs[i].outcome.Failed?|
  {
    if n > 0 {
      FailuresAreFailed(jobs, n - 1);
      var before, now := set i | 0 <= i < n - 1 && jobs[i].outcome.Failed?, set i | 0 <= i < n
          && jobs[i].outcome.Failed?;
      assert now == before + (if jobs[n - 1].outcome.Failed? then {n - 1} else {});
    }
  }

  /** A failed unit does lose its pools, although the code's comment says their cache entries are preserved. */
  lemma FailedUnitDropsPool(job: Job, pool: Pool)
    ensures var jobs := [Unit(job, Failed)];
            pool.address !in Merge(map[pool.address := pool], DiscoveredTo(jobs, |jobs|))
  {
    CommittedPoolsExactly([Unit(job, Failed)], map[pool.address := pool], pool.address);
  }

  /** Refreshes between batches never move a label back either. */
  lemma {:induction false} RefreshesKeepLabels(c: PoolCache, evs: seq<Event>, a: nat)
    requires a in c
    ensures a in Refreshes(c, evs) && Refreshes(c, evs)[a].updatedAt >= c[a].updatedAt
  {
    if evs != [] { RefreshesKeepLabels(c, evs[..|evs| - 1], a); }
  }
}
