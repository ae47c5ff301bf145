/** The quote cache over the synchronized pool cache (go/internal/market/engine.go with
    go/internal/opportunity/engine.go): scanning, refreshing, hydrating routes and quoting interleave freely.

    Requests take label and content from the pools the routes were last hydrated with, as `refreshRoutes` does. */
module Transparency {
  import opened Options
  import opened Chain
  import MarketSync
  import QuoteCache

  /** `view` holds the pools the routes carry. */
  datatype Joint = Joint(sync: MarketSync.Sync, view: MarketSync.Cache, quotes: QuoteCache.System)

  datatype Step =
    | Market(market: MarketSync.Step)                     // any step of the scanner or the cycle
    | Hydrate                                             // refreshRoutes over a cache snapshot
    | Prepare(block: Block, dirty: set<Address>)          // PrepareQuoteCache with the persistent cache on
    | Ask(tid: QuoteCache.Tid, args: QuoteCache.Args)     // after that, a route asks for a quote of one of its pools
    | Quote(quote: QuoteCache.Step)                       // another step of a goroutine in `quote`, or SetQuoteBudget

  /** Routes carry only pools with liquidity. */
  function Liquid(pools: MarketSync.Cache): MarketSync.Cache {
    map a | a in pools && pools[a].content.liquidity > 0 :: pools[a]
  }

  /** The request a route makes for a pool it carries. */
  function RequestFor(view: MarketSync.Cache, args: QuoteCache.Args): QuoteCache.Request
    requires args.pool in view
  {
    QuoteCache.Request(Some(args), view[args.pool].updatedAt, view[args.pool].content)
  }

  /** One atomic section; a step that is not enabled does nothing. */
  ghost function Apply(q: QuoteCache.Quoter, log: EventLog, w: World, s: Joint, step: Step): Joint {
    match step
    case Market(m) => s.(sync := MarketSync.Apply(log, w, s.sync, m))
    case Hydrate => s.(view := Liquid(s.sync.cache))
    case Prepare(b, dirty) => s.(quotes := QuoteCache.Apply(q, s.quotes, QuoteCache.Prepare(b, dirty, true)))
    case Ask(tid, args) =>
      if args.pool !in s.view || !s.quotes.st.persistent then s
      else s.(quotes := QuoteCache.Apply(q, s.quotes, QuoteCache.Arrive(tid, RequestFor(s.view, args))))
    case Quote(step) => if step.Arrive? || step.Prepare? then s else s.(quotes := QuoteCache.Apply(q, s.quotes, step))
  }

  ghost function Exec(q: QuoteCache.Quoter, log: EventLog, w: World, s: Joint, steps: seq<Step>): Joint {
    if steps == [] then s else Apply(q, log, w, Exec(q, log, w, s, steps[..|steps| - 1]), steps[|steps| - 1])
  }

  /** A key stands for what the chain held at its version. */
  ghost function OnChain(w: World): QuoteCache.Meaning { (k: QuoteCache.Key) => w(k.args.pool, k.version) }

  /** A pool with liquidity has a positive label, which names a block at which the chain held the content (0 is the
      blank address, which is never cached). */
  ghost predicate Labelled(w: World, pools: MarketSync.Cache) {
    forall a :: a in pools && a != 0 && pools[a].content.liquidity > 0 ==>
      pools[a].updatedAt > 0 && pools[a].content == w(a, pools[a].updatedAt)
  }

  ghost predicate Inv(q: QuoteCache.Quoter, w: World, s: Joint) {
    && MarketSync.Consistent(w, s.sync) && Labelled(w, s.sync.cache)
    && Labelled(w, s.view) && Liquid(s.view) == s.view && QuoteCache.Good(q, OnChain(w), s.quotes)
  }

  /** A pool that changes in a refresh takes the state block, which is later than its last read. */
  lemma MarketKeepsLabelled(log: EventLog, w: World, s: MarketSync.Sync, step: MarketSync.Step)
    requires MarketSync.Consistent(w, s) && Labelled(w, s.cache)
    ensures Labelled(w, MarketSync.Apply(log, w, s, step).cache)
  {
    if step.Refresh? && step.a in s.cache && s.cycle.Refreshing? {
      var p := s.cache[step.a];
      assert MarketSync.ConsistentPool(w, step.a, p, s.cycle.stateBlock);
      assert p.content != w(step.a, s.cycle.stateBlock) ==> p.readAt < s.cycle.stateBlock;
    }
  }

  /** The label a route's pool carries determines its content, so the request means what its key says. */
  lemma RequestsAreMeant(w: World, view: MarketSync.Cache, st: QuoteCache.Store, args: QuoteCache.Args)
    requires Labelled(w, view) && args.pool in Liquid(view) && st.persistent
    ensures QuoteCache.Means(OnChain(w), st.KeyOf(RequestFor(view, args)), RequestFor(view, args))
  { }

  lemma ApplyKeepsInv(q: QuoteCache.Quoter, log: EventLog, w: World, s: Joint, step: Step)
    requires Inv(q, w, s)
    ensures Inv(q, w, Apply(q, log, w, s, step))
  {
    match step
    case Market(m) =>
      MarketSync.ApplyKeepsConsistent(log, w, s.sync, m);
      MarketKeepsLabelled(log, w, s.sync, m);
    case Hydrate =>
    case Prepare(b, dirty) => QuoteCache.ApplyKeepsGood(q, OnChain(w), s.quotes, QuoteCache.Prepare(b, dirty, true));
    case Ask(tid, args) =>
      if args.pool in s.view && s.quotes.st.persistent {
        RequestsAreMeant(w, s.view, s.quotes.st, args);
        QuoteCache.ApplyKeepsGood(q, OnChain(w), s.quotes, QuoteCache.Arrive(tid, RequestFor(s.view, args)));
      }
    case Quote(inner) =>
      if !inner.Arrive? && !inner.Prepare? { QuoteCache.ApplyKeepsGood(q, OnChain(w), s.quotes, inner); }
  }

  lemma {:induction false} RunsKeepInv(q: QuoteCache.Quoter, log: EventLog, w: World, s: Joint, steps: seq<Step>)
    requires Inv(q, w, s)
    ensures Inv(q, w, Exec(q, log, w, s, steps))
  {
    if steps != [] {
      RunsKeepInv(q, log, w, s, steps[..|steps| - 1]);
      ApplyKeepsInv(q, log, w, Exec(q, log, w, s, steps[..|steps| - 1]), steps[|steps| - 1]);
    }
  }

  /** The start of a run: routes hydrated from the pool cache, and an empty quote cache. */
  ghost function Start(sync: MarketSync.Sync): Joint { Joint(sync, Liquid(sync.cache), QuoteCache.Initial()) }

  ghost predicate PositiveLabels(pools: MarketSync.Cache) {
    forall a :: a in pools && a != 0 && pools[a].content.liquidity > 0 ==> pools[a].updatedAt > 0
  }

  lemma StartInv(q: QuoteCache.Quoter, w: World, sync: MarketSync.Sync)
    requires MarketSync.Consistent(w, sync) && PositiveLabels(sync.cache)
    ensures Inv(q, w, Start(sync))
  {
    QuoteCache.InitialGood(q, OnChain(w));
    HydratedInv(q, w, sync, QuoteCache.Initial());
  }

  lemma HydratedInv(q: QuoteCache.Quoter, w: World, sync: MarketSync.Sync, quotes: QuoteCache.System)
    requires MarketSync.Consistent(w, sync) && PositiveLabels(sync.cache) && QuoteCache.Good(q, OnChain(w), quotes)
    ensures Inv(q, w, Joint(sync, Liquid(sync.cache), quotes))
  {
    ConsistentIsLabelled(w, sync);
    LiquidTwice(w, sync.cache);
  }

  lemma ConsistentIsLabelled(w: World, sync: MarketSync.Sync)
    requires MarketSync.Consistent(w, sync) && PositiveLabels(sync.cache)
    ensures Labelled(w, sync.cache)
  { }

  lemma LiquidTwice(w: World, pools: MarketSync.Cache)
    ensures Liquid(Liquid(pools)) == Liquid(pools)
    ensures Labelled(w, pools) ==> Labelled(w, Liquid(pools))
  { }

  // ---------------------------------------------------------------- cached answers are current

  /** What a request for a pool would be answered from the cache now. */
  ghost function CachedAnswer(s: Joint, args: QuoteCache.Args): Option<QuoteCache.Answer>
    requires args.pool in s.view
  {
    var key := s.quotes.st.KeyOf(RequestFor(s.view, args));
    if key.Some? && s.quotes.st.Find(key.value).Hit? then Some(s.quotes.st.Find(key.value).answer) else None
  }

  lemma CachedAnswerIs(q: QuoteCache.Quoter, w: World, s: Joint, args: QuoteCache.Args)
    requires Inv(q, w, s) && s.quotes.st.persistent && args.pool in s.view && CachedAnswer(s, args).Some?
    ensures CachedAnswer(s, args).value == q(s.view[args.pool].content, args)
  {
    RequestsAreMeant(w, s.view, s.quotes.st, args);
  }

  lemma SameLabelSameContent(q: QuoteCache.Quoter, w: World, s: Joint, a: Address)
    requires Inv(q, w, s) && a != 0 && a in s.view && a in s.sync.cache
        && s.view[a].updatedAt == s.sync.cache[a].updatedAt
    ensures s.view[a].content == s.sync.cache[a].content
  { }

  /** Cache transparency over every interleaving of scans, refreshes, acks, hydrations, preparations and quotes:
      everybody who hits or waits is served what the quoter gives for his own request; and for any pool, what the
      cache would answer now is what the quoter gives for the pool as the routes see it, and as the pool cache
      holds it when the labels agree. */
  lemma CachedAnswersAreCurrent(q: QuoteCache.Quoter, log: EventLog, w: World, sync: MarketSync.Sync, steps: seq<Step>,
                                t: Joint)
    requires MarketSync.Consistent(w, sync) && PositiveLabels(sync.cache) && t == Exec(q, log, w, Start(sync), steps)
    ensures QuoteCache.AllCurrent(q, t.quotes)
    ensures t.quotes.st.persistent ==>
              forall args: QuoteCache.Args :: args.pool in t.view && CachedAnswer(t, args).Some? ==>
                && CachedAnswer(t, args).value == q(t.view[args.pool].content, args)
                && (args.pool in t.sync.cache && t.sync.cache[args.pool].updatedAt == t.view[args.pool].updatedAt ==>
                      CachedAnswer(t, args).value == q(t.sync.cache[args.pool].content, args))
  {
    StartInv(q, w, sync);
    RunsKeepInv(q, log, w, Start(sync), steps);
    QuoteCache.GoodAllCurrent(q, OnChain(w), t.quotes);
    if t.quotes.st.persistent {
      forall args: QuoteCache.Args | args.pool in t.view && CachedAnswer(t, args).Some?
        ensures CachedAnswer(t, args).value == q(t.view[args.pool].content, args)
        ensures args.pool in t.sync.cache && t.sync.cache[args.pool].updatedAt == t.view[args.pool].updatedAt ==>
                  t.view[args.pool].content == t.sync.cache[args.pool].content
      {
        CachedAnswerIs(q, w, t, args);
        if args.pool in t.sync.cache && t.sync.cache[args.pool].updatedAt == t.view[args.pool].updatedAt {
          SameLabelSameContent(q, w, t, args.pool);
        }
      }
    }
  }

  // ---------------------------------------------------------------- from the chain to the answer

  /** The steps of the scanner and the cycle, in order. */
  ghost function MarketSteps(steps: seq<Step>): seq<MarketSync.Step> {
    if steps == [] then []
    else
      var before, last := MarketSteps(steps[..|steps| - 1]), steps[|steps| - 1];
      if last.Market? then before + [last.market] else before
  }

  lemma {:induction false} MarketIsItsOwnRun(q: QuoteCache.Quoter, log: EventLog, w: World, s: Joint, steps: seq<Step>)
    ensures Exec(q, log, w, s, steps).sync == MarketSync.Exec(log, w, s.sync, MarketSteps(steps))
  {
    if steps != [] {
      var before, last := steps[..|steps| - 1], steps[|steps| - 1];
      MarketIsItsOwnRun(q, log, w, s, before);
      MarketUnmoved(q, log, w, Exec(q, log, w, s, before), last);
      if last.Market? {
        var ms := MarketSteps(before) + [last.market];
        assert ms[..|ms| - 1] == MarketSteps(before);
      }
    }
  }

  lemma MarketUnmoved(q: QuoteCache.Quoter, log: EventLog, w: World, s: Joint, step: Step)
    ensures Apply(q, log, w, s, step).sync == if step.Market? then MarketSync.Apply(log, w, s.sync, step.market)
        else s.sync
  { }

  /** End to end: over every interleaving whose acks are timely, what the cache answers for an unmarked pool that
      the routes carry with its cached label is what the quoter gives for the chain at the scan watermark (or at
      the newer block the pool was read at). */
  lemma AnswersReflectChain(q: QuoteCache.Quoter, log: EventLog, w: World, sync: MarketSync.Sync, steps: seq<Step>,
                            t: Joint, args: QuoteCache.Args)
    requires EventsExplain(log, w) && MarketSync.Consistent(w, sync) && MarketSync.Safe(log, sync)
        && PositiveLabels(sync.cache)
    requires MarketSync.TimelyAcks(log, w, sync, MarketSteps(steps)) && t == Exec(q, log, w, Start(sync), steps)
    requires t.quotes.st.persistent && args.pool in t.view && args.pool in t.sync.cache && args.pool !in t.sync.pending
    requires t.view[args.pool].updatedAt == t.sync.cache[args.pool].updatedAt && CachedAnswer(t, args).Some?
    ensures var p := t.sync.cache[args.pool];
            CachedAnswer(t, args).value
                == q(w(args.pool, if p.readAt > t.sync.scan then p.readAt else t.sync.scan), args)
  {
    CachedAnswersAreCurrent(q, log, w, sync, steps, t);
    MarketIsItsOwnRun(q, log, w, Start(sync), steps);
    MarketSync.SyncSafety(log, w, sync, MarketSteps(steps));
  }

  // ---------------------------------------------------------------- labels are needed

  /** In some run the quoter's answers and the cache's differ. */
  ghost predicate ServesStale(q: QuoteCache.Quoter, log: EventLog, w: World, sync: MarketSync.Sync, steps: seq<Step>) {
    !QuoteCache.AllCurrent(q, Exec(q, log, w, Start(sync), steps).quotes)
  }

  // ---------------------------------------------------------------- the order of a cycle

  /** Where the decision cycle stands.  `left` are the dirty pools not found unchanged so far, `skipped` those
      whose refresh failed. */
  datatype Phase =
    | Resting
    | Reading(left: set<Address>)
    | Acked(block: Block, left: set<Address>, skipped: set<Address>)
    | Hydrated(block: Block, left: set<Address>, skipped: set<Address>)
    | Quoting(skipped: set<Address>)

  /** The dirty pools the cycle still waits for. */
  ghost function Unanswered(s: MarketSync.Sync): set<Address>
    requires s.cycle.Refreshing?
  {
    set a | a in s.cycle.dirty && a in s.cache && a !in s.cycle.resolved && a !in s.cycle.unresolved
  }

  /** The next phase, or None when the cycle does not do this step there: a cycle reads all its dirty pools or is
      cancelled, acknowledges, hydrates the routes, prepares the quote cache for its state block with the pools
      left dirty, and quotes routes without the pools it could not read. */
  ghost function Next(w: World, s: Joint, ph: Phase, step: Step): Option<Phase> {
    match step
    case Market(m) => NextMarket(w, s.sync, ph, m)
    case Hydrate => if ph.Acked? then Some(Hydrated(ph.block, ph.left, ph.skipped)) else None
    case Prepare(b, dirty) => if ph.Hydrated? && b == ph.block && dirty == ph.left then Some(Quoting(ph.skipped))
        else None
    case Ask(_, args) => if ph.Quoting? && args.pool !in ph.skipped then Some(ph) else None
    case Quote(_) => if ph.Quoting? then Some(ph) else None
  }

  ghost function NextMarket(w: World, s: MarketSync.Sync, ph: Phase, m: MarketSync.Step): Option<Phase> {
    match m
    case Scan(_) => Some(ph)
    case Begin(b) =>
      if (ph.Resting? || ph.Quoting?) && s.cycle.Idle? && s.floor <= b then Some(Reading(s.pending)) else None
    case Refresh(a, ok) =>
      if !(ph.Reading? && s.cycle.Refreshing? && a in Unanswered(s)) then None
      else if ok && w(a, s.cycle.stateBlock) == s.cache[a].content then Some(Reading(ph.left - {a}))
      else Some(ph)
    case Ack =>
      if ph.Reading? && s.cycle.Refreshing? && Unanswered(s) == {}
      then Some(Acked(s.cycle.stateBlock, ph.left, s.cycle.unresolved)) else None
    case Cancel => if ph.Reading? then Some(Resting) else None
  }

  ghost function PhaseAfter(q: QuoteCache.Quoter, log: EventLog, w: World, sync: MarketSync.Sync, steps: seq<Step>)
    : Option<Phase>
  {
    if steps == [] then Some(Resting)
    else
      var before := steps[..|steps| - 1];
      var ph := PhaseAfter(q, log, w, sync, before);
      if ph.None? then None else Next(w, Exec(q, log, w, Start(sync), before), ph.value, steps[|steps| - 1])
  }

  /** The steps come in the order in which the cycle does them. */
  ghost predicate InCycleOrder(q: QuoteCache.Quoter, log: EventLog, w: World, sync: MarketSync.Sync, steps: seq<Step>) {
    PhaseAfter(q, log, w, sync, steps).Some?
  }

  // ---------------------------------------------------------------- a stale answer in cycle order

  /** What a run is about. */
  datatype Scene = Scene(q: QuoteCache.Quoter, log: EventLog, w: World, sync: MarketSync.Sync)

  ghost predicate Leads(c: Scene, steps: seq<Step>, s: Joint, ph: Phase) {
    Exec(c.q, c.log, c.w, Start(c.sync), steps) == s && PhaseAfter(c.q, c.log, c.w, c.sync, steps) == Some(ph)
  }

  lemma Then(c: Scene, steps: seq<Step>, s: Joint, ph: Phase, step: Step, s': Joint, ph': Phase)
    requires Leads(c, steps, s, ph) && s' == Apply(c.q, c.log, c.w, s, step) && Next(c.w, s, ph, step) == Some(ph')
    ensures Leads(c, steps + [step], s', ph')
  {
    assert (steps + [step])[..|steps|] == steps;
  }

  /** The reads of all pools in `todo` fail. */
  lemma {:induction false} FailAll(c: Scene, past: seq<Step>, s: Joint, ph: Phase, todo: set<Address>)
    returns (steps: seq<Step>, s': Joint)
    requires Leads(c, past, s, ph) && ph.Reading? && s.sync.cycle.Refreshing? && todo <= Unanswered(s.sync)
    ensures Leads(c, steps, s', ph)
    ensures s' == s.(sync := s.sync.(cycle := s.sync.cycle.(unresolved := s.sync.cycle.unresolved + todo)))
    decreases |todo|
  {
    if todo == {} {
      assert s.sync.cycle.unresolved + todo == s.sync.cycle.unresolved;
      return past, s;
    }
    var x :| x in todo;
    var s1 := s.(sync := s.sync.(cycle := s.sync.cycle.(unresolved := s.sync.cycle.unresolved + {x})));
    Then(c, past, s, ph, Market(MarketSync.Refresh(x, false)), s1, ph);
    steps, s' := FailAll(c, past + [Market(MarketSync.Refresh(x, false))], s1, ph, todo - {x});
    assert s1.sync.cycle.unresolved + (todo - {x}) == s.sync.cycle.unresolved + todo;
  }

  /** The rest of a cycle up to its quotes, when every pool not read yet cannot be read. */
  lemma FinishCycle(c: Scene, past: seq<Step>, s: Joint, ph: Phase) returns (steps: seq<Step>, s': Joint, ph': Phase)
    requires Leads(c, past, s, ph) && ph.Reading? && s.sync.cycle.Refreshing?
    requires s.sync.cycle.resolved !! s.sync.cycle.unresolved
    ensures Leads(c, steps, s', ph') && ph' == Quoting(s.sync.cycle.unresolved + Unanswered(s.sync))
    ensures s'.sync == s.sync.(pending := s.sync.pending - s.sync.cycle.resolved, cycle := MarketSync.Idle,
                               floor := s.sync.cycle.stateBlock)
    ensures s'.view == Liquid(s.sync.cache)
    ensures s'.quotes == QuoteCache.Apply(c.q, s.quotes, QuoteCache.Prepare(s.sync.cycle.stateBlock, ph.left, true))
  {
    var b, left := s.sync.cycle.stateBlock, ph.left;
    var skipped := s.sync.cycle.unresolved + Unanswered(s.sync);
    var s1;
    steps, s1 := FailAll(c, past, s, ph, Unanswered(s.sync));
    assert Unanswered(s1.sync) == {};
    assert s1.sync.cycle.resolved - s1.sync.cycle.unresolved == s.sync.cycle.resolved;
    var s2 := s1.(sync := MarketSync.Apply(c.log, c.w, s1.sync, MarketSync.Ack));
    Then(c, steps, s1, ph, Market(MarketSync.Ack), s2, Acked(b, left, skipped));
    steps := steps + [Market(MarketSync.Ack)];
    var s3 := s2.(view := Liquid(s2.sync.cache));
    Then(c, steps, s2, Acked(b, left, skipped), Hydrate, s3, Hydrated(b, left, skipped));
    steps, ph' := steps + [Hydrate], Quoting(skipped);
    s' := s3.(quotes := QuoteCache.Apply(c.q, s3.quotes, QuoteCache.Prepare(b, left, true)));
    Then(c, steps, s3, Hydrated(b, left, skipped), Prepare(b, left), s', ph');
    steps := steps + [Prepare(b, left)];
  }

  /** A cycle begins at block b and reads pool a, which is marked. */
  lemma BeginAndRead(c: Scene, past: seq<Step>, s: Joint, ph: Phase, a: Address, b: Block)
    returns (steps: seq<Step>, s': Joint, ph': Phase)
    requires Leads(c, past, s, ph) && (ph.Resting? || ph.Quoting?) && s.sync.cycle.Idle? && s.sync.floor <= b
    requires a in s.sync.pending && a in s.sync.cache && s.sync.cache[a].updatedAt <= b
    ensures Leads(c, steps, s', ph') && s'.quotes == s.quotes
    ensures var p := s.sync.cache[a];
            s'.sync == s.sync.(cache := s.sync.cache[a := MarketSync.Refreshed(p, c.w(a, b), b)],
                               cycle := MarketSync.Refreshing(b, s.sync.pending, {a}, {}))
    ensures ph' == Reading(if c.w(a, b) == s.sync.cache[a].content then s.sync.pending - {a} else s.sync.pending)
  {
    var s1 := s.(sync := s.sync.(cycle := MarketSync.Refreshing(b, s.sync.pending, {}, {})));
    Then(c, past, s, ph, Market(MarketSync.Begin(b)), s1, Reading(s.sync.pending));
    steps := past + [Market(MarketSync.Begin(b))];
    s' := s1.(sync := MarketSync.Apply(c.log, c.w, s1.sync, MarketSync.Refresh(a, true)));
    assert {} + {a} == {a};
    ph' := Reading(if c.w(a, b) == s.sync.cache[a].content then s.sync.pending - {a} else s.sync.pending);
    Then(c, steps, s1, Reading(s.sync.pending), Market(MarketSync.Refresh(a, true)), s', ph');
    steps := steps + [Market(MarketSync.Refresh(a, true))];
  }

  /** Pool a is cached without a label, nothing is quoted yet, and the scanner and the cycle are before block b. */
  ghost predicate Unlabelled(s: Joint, a: Address, content: Content, b: Block) {
    && s.sync.cycle.Idle? && s.sync.scan < b && s.sync.floor < b && QuoteCache.Empty(s.quotes)
    && a in s.sync.cache && s.sync.cache[a].updatedAt == 0 && s.sync.cache[a].content == content
  }

  /** A marked pool: a cycle in an earlier block finds it unchanged. */
  lemma Unmark(c: Scene, past: seq<Step>, s: Joint, ph: Phase, a: Address, d: Block)
    returns (steps: seq<Step>, s': Joint, ph': Phase)
    requires Leads(c, past, s, ph) && ph.Resting? && s.sync.cycle.Idle? && s.sync.floor <= d
    requires a in s.sync.pending && a in s.sync.cache && s.sync.cache[a].updatedAt <= d
    requires c.w(a, d) == s.sync.cache[a].content && QuoteCache.Empty(s.quotes)
    ensures Leads(c, steps, s', ph') && ph'.Quoting? && QuoteCache.Empty(s'.quotes)
    ensures s'.sync == s.sync.(cache := s.sync.cache[a := s.sync.cache[a].(readAt := d)],
                               pending := s.sync.pending - {a}, floor := d)
  {
    var s1, ph1;
    steps, s1, ph1 := BeginAndRead(c, past, s, ph, a, d);
    assert MarketSync.Refreshed(s.sync.cache[a], c.w(a, d), d) == s.sync.cache[a].(readAt := d);
    QuoteCache.EmptyPrepared(c.q, s1.quotes, d, ph1.left);
    steps, s', ph' := FinishCycle(c, steps, s1, ph1);
  }

  lemma StartUnmarked(c: Scene, a: Address, content: Content, b: Block)
    returns (steps: seq<Step>, s: Joint, ph: Phase)
    requires Unlabelled(Start(c.sync), a, content, b) && c.w(a, b - 1) == content
    ensures Leads(c, steps, s, ph) && (ph.Resting? || ph.Quoting?)
    ensures Unlabelled(s, a, content, b) && a !in s.sync.pending
  {
    steps, s, ph := [], Start(c.sync), Resting;
    if a in s.sync.pending { steps, s, ph := Unmark(c, steps, s, ph, a, b - 1); }
  }

  /** The cycle of block b gets to its quotes without knowing that the pool has changed. */
  lemma PrepareUnlabelled(c: Scene, past: seq<Step>, s: Joint, ph: Phase, a: Address, content: Content, b: Block)
    returns (steps: seq<Step>, s': Joint, ph': Phase)
    requires Leads(c, past, s, ph) && (ph.Resting? || ph.Quoting?) && content.liquidity > 0
    requires Unlabelled(s, a, content, b) && a !in s.sync.pending
    ensures Leads(c, steps, s', ph') && ph'.Quoting? && a !in ph'.skipped
    ensures s'.sync == s.sync.(floor := b) && a in s'.view && s'.view[a] == s.sync.cache[a]
    ensures QuoteCache.Empty(s'.quotes) && QuoteCache.InGeneration(s'.quotes, b)
  {
    var s1 := s.(sync := s.sync.(cycle := MarketSync.Refreshing(b, s.sync.pending, {}, {})));
    Then(c, past, s, ph, Market(MarketSync.Begin(b)), s1, Reading(s.sync.pending));
    steps, s', ph' := FinishCycle(c, past + [Market(MarketSync.Begin(b))], s1, Reading(s.sync.pending));
    assert s.sync.pending - {} == s.sync.pending;
    QuoteCache.EmptyPrepared(c.q, s.quotes, b, s.sync.pending);
  }

  /** Quoted there, the pool's key carries b. */
  lemma QuoteUnlabelled(c: Scene, past: seq<Step>, s: Joint, ph: Phase, args: QuoteCache.Args, b: Block)
    returns (steps: seq<Step>, s': Joint)
    requires Leads(c, past, s, ph) && ph.Quoting? && args.pool !in ph.skipped && args.pool != 0
    requires args.pool in s.view && s.view[args.pool].updatedAt == 0
    requires QuoteCache.Empty(s.quotes) && QuoteCache.InGeneration(s.quotes, b)
    ensures Leads(c, steps, s', ph) && s'.sync == s.sync
    ensures QuoteCache.Holding(s'.quotes, QuoteCache.Key(b, args), c.q(s.view[args.pool].content, args))
  {
    var r := RequestFor(s.view, args);
    QuoteCache.QuoteOnEmpty(c.q, s.quotes, b, r, QuoteCache.Key(b, args));
    var s1 := s.(quotes := QuoteCache.Apply(c.q, s.quotes, QuoteCache.Arrive(0, r)));
    Then(c, past, s, ph, Ask(0, args), s1, ph);
    steps := past + [Ask(0, args)];
    var s2 := s1.(quotes := QuoteCache.Apply(c.q, s1.quotes, QuoteCache.Look(0)));
    Then(c, steps, s1, ph, Quote(QuoteCache.Look(0)), s2, ph);
    steps := steps + [Quote(QuoteCache.Look(0))];
    s' := s2.(quotes := QuoteCache.Apply(c.q, s2.quotes, QuoteCache.Finish(0)));
    Then(c, steps, s2, ph, Quote(QuoteCache.Finish(0)), s', ph);
    steps := steps + [Quote(QuoteCache.Finish(0))];
  }

  /** The scanner marks the pool, and a cycle at b reads its new content and is cancelled before its ack. */
  lemma ReadAndCancel(c: Scene, past: seq<Step>, s: Joint, ph: Phase, a: Address, b: Block)
    returns (steps: seq<Step>, s': Joint, ph': Phase)
    requires Leads(c, past, s, ph) && ph.Quoting? && s.sync.cycle.Idle? && s.sync.scan < b && s.sync.floor == b
    requires a in s.sync.cache && s.sync.cache[a].updatedAt == 0
    requires Event(a, b) in c.log && c.w(a, b) != s.sync.cache[a].content
    ensures Leads(c, steps, s', ph') && ph'.Resting? && s'.quotes == s.quotes
    ensures s'.sync.cycle.Idle? && s'.sync.floor == b && a in s'.sync.pending
    ensures a in s'.sync.cache && s'.sync.cache[a] == MarketSync.Pool(b, c.w(a, b), b)
  {
    var s1 := s.(sync := MarketSync.Apply(c.log, c.w, s.sync, MarketSync.Scan(b)));
    assert Event(a, b).addr in Touched(c.log, s.sync.cache.Keys, s.sync.scan + 1, b);
    Then(c, past, s, ph, Market(MarketSync.Scan(b)), s1, ph);
    var s2;
    steps, s2, ph' := BeginAndRead(c, past + [Market(MarketSync.Scan(b))], s1, ph, a, b);
    s' := s2.(sync := MarketSync.Apply(c.log, c.w, s2.sync, MarketSync.Cancel));
    Then(c, steps, s2, ph', Market(MarketSync.Cancel), s', Resting);
    steps, ph' := steps + [Market(MarketSync.Cancel)], Resting;
  }

  /** The next cycle at b finds the pool unchanged, so its quotes are not invalidated, and asks for it. */
  lemma AskAgain(c: Scene, past: seq<Step>, s: Joint, ph: Phase, args: QuoteCache.Args, answer: QuoteCache.Answer,
                 b: Block)
    returns (steps: seq<Step>)
    requires Leads(c, past, s, ph) && ph.Resting? && s.sync.cycle.Idle? && s.sync.floor == b > 0 && args.pool != 0
    requires args.pool in s.sync.pending && args.pool in s.sync.cache && c.w(args.pool, b).liquidity > 0
    requires s.sync.cache[args.pool] == MarketSync.Pool(b, c.w(args.pool, b), b)
    requires QuoteCache.Holding(s.quotes, QuoteCache.Key(b, args), answer) && answer != c.q(c.w(args.pool, b), args)
    ensures InCycleOrder(c.q, c.log, c.w, c.sync, steps) && ServesStale(c.q, c.log, c.w, c.sync, steps)
  {
    var a, k := args.pool, QuoteCache.Key(b, args);
    var s1, ph1 := s, ph;
    steps, s1, ph1 := BeginAndRead(c, past, s, ph, a, b);
    QuoteCache.HoldingPrepared(c.q, s1.quotes, k, answer, b, ph1.left);
    var s2, ph2;
    steps, s2, ph2 := FinishCycle(c, steps, s1, ph1);
    var y := RequestFor(s2.view, args);
    QuoteCache.HoldingHits(c.q, s2.quotes, k, answer, y);
    var s3 := s2.(quotes := QuoteCache.Apply(c.q, s2.quotes, QuoteCache.Arrive(1, y)));
    Then(c, steps, s2, ph2, Ask(1, args), s3, ph2);
    steps := steps + [Ask(1, args)];
  }

  /** The failing run, in cycle order: the pool is quoted in block b before the scanner has marked it; a cycle at b
      reads its new content under the label b and is cancelled; the next one at b finds it unchanged, keeps the
      entry, and serves the old answer for the new content. */
  lemma UnlabelledServesStale(log: EventLog, w: World, sync: MarketSync.Sync, args: QuoteCache.Args, b: Block)
    returns (steps: seq<Step>)
    requires args.pool in sync.cache && args.pool != 0 && sync.cycle.Idle? && sync.scan < b && sync.floor < b
    requires sync.cache[args.pool].updatedAt == 0 && sync.cache[args.pool].content.liquidity > 0
    requires Event(args.pool, b) in log && w(args.pool, b).liquidity > 0
    requires w(args.pool, b - 1) == sync.cache[args.pool].content != w(args.pool, b)
    ensures InCycleOrder(QuoteCache.Telling(sync.cache[args.pool].content), log, w, sync, steps)
    ensures ServesStale(QuoteCache.Telling(sync.cache[args.pool].content), log, w, sync, steps)
  {
    var a, content := args.pool, sync.cache[args.pool].content;
    var c := Scene(QuoteCache.Telling(content), log, w, sync);
    var s, ph;
    steps, s, ph := StartUnmarked(c, a, content, b);
    steps, s, ph := PrepareUnlabelled(c, steps, s, ph, a, content, b);
    steps, s := QuoteUnlabelled(c, steps, s, ph, args, b);
    steps, s, ph := ReadAndCancel(c, steps, s, ph, a, b);
    steps := AskAgain(c, steps, s, ph, args, c.q(content, args), b);
  }

  /** The condition on labels is exact, whether all interleavings are allowed or only those in cycle order: from an
      idle synchronizer, no run over any chain that explains its events serves a stale answer iff every cached pool
      with liquidity starts with a positive label. */
  lemma TransparentIffLabelled(w0: World, sync: MarketSync.Sync)
    requires MarketSync.Consistent(w0, sync) && sync.cycle.Idle?
    ensures (forall q, log, w, steps | EventsExplain(log, w) && MarketSync.Consistent(w, sync) ::
               !ServesStale(q, log, w, sync, steps))
       <==> PositiveLabels(sync.cache)
    ensures (forall q, log, w, steps | EventsExplain(log, w) && MarketSync.Consistent(w, sync)
                                       && InCycleOrder(q, log, w, sync, steps) ::
               !ServesStale(q, log, w, sync, steps))
       <==> PositiveLabels(sync.cache)
  {
    if PositiveLabels(sync.cache) {
      forall q, log, w, steps | EventsExplain(log, w) && MarketSync.Consistent(w, sync)
        ensures !ServesStale(q, log, w, sync, steps)
      {
        CachedAnswersAreCurrent(q, log, w, sync, steps, Exec(q, log, w, Start(sync), steps));
      }
    } else {
      var a :| a in sync.cache && a != 0 && sync.cache[a].content.liquidity > 0 && sync.cache[a].updatedAt == 0;
      var p := sync.cache[a];
      var b, after := sync.scan + sync.floor + 1, Content(p.content.liquidity + 1, p.content.sqrtPrice);
      var log, w := {Event(a, b)}, MarketSync.OneChange(sync.cache, a, b, after);
      MarketSync.OneChangeIsConsistent(w0, sync, a, b, after);
      var steps := UnlabelledServesStale(log, w, sync, QuoteCache.Args(a, 0, 0, 0, 0, 0), b);
    }
  }
}
