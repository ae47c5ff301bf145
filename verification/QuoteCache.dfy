/** The versioned, single-flight, budgeted quote cache (go/internal/opportunity/engine.go).

    `Store` holds the fields guarded by the quote mutex and its functions are the locked sections; the class
    `QuoteEngine` updates the fields in place.  `System` adds the goroutines that are inside `quote`. */
module QuoteCache {

  import opened Options
  import opened Chain

  /** What a quote depends on besides the pool's mutable content. */
  datatype Args = Args(pool: Address, dex: nat, fee: nat, tokenIn: Address, tokenOut: Address, amount: int)

  /** A request names a pool as the route sees it: content and last-updated label.  Blank pool addresses are 0. */
  datatype Request = Request(args: Option<Args>, updatedAt: Block, content: Content)

  datatype Answer = Quoted(amountOut: nat, gas: nat) | QuoteError(code: nat)

  /** The quoter as a deterministic function of pool content and request, errors included. */
  type Quoter = (Content, Args) -> Answer

  datatype Key = Key(version: Block, args: Args)

  /** A cache entry; in Go an in-flight entry has a non-nil `ready` channel. */
  datatype Entry = InFlight(key: Key) | Done(key: Key, answer: Answer)

  const CAPACITY: nat := 32_768

  /** What the locked lookup decides for a request. */
  datatype Lookup = Hit(answer: Answer) | Join(id: nat) | Dropped | Miss(id: nat)

  /** The entries of clean pools, and the keys of dirty ones. */
  function Clean(cache: map<Key, nat>, dirty: set<Address>): map<Key, nat> {
    map k | k in cache && k.args.pool !in dirty :: cache[k]
  }

  function Stale(cache: map<Key, nat>, dirty: set<Address>): set<Key> { set k | k in cache && k.args.pool in dirty }

  /** `quoteKey` in a generation: None when the request cannot be cached. */
  function KeyAt(block: Block, persistent: bool, req: Request): Option<Key> {
    if req.args.None? || req.args.value.pool == 0 then None
    else Some(Key(if persistent && req.updatedAt > 0 then req.updatedAt else block, req.args.value))
  }

  datatype Store = Store(block: Block, persistent: bool, cache: map<Key, nat>, entries: seq<Entry>,
                         hits: nat, dedup: nat, misses: nat, invalidations: nat,
                         budget: int, used: nat, dropped: nat) {

    ghost predicate Valid() { forall k :: k in cache ==> cache[k] < |entries| && entries[cache[k]].key == k }

    function KeyOf(req: Request): Option<Key> { KeyAt(block, persistent, req) }

    function Prepare(block': Block, dirty: set<Address>, persistent': bool): Store {
      var started := this.(block := block', persistent := persistent', hits := 0, dedup := 0, misses := 0,
                         invalidations := 0, used := 0, dropped := 0);
      if !persistent' then started.(cache := map[])
      else
        var kept := Clean(cache, dirty);
        if |kept| > CAPACITY then started.(cache := map[], invalidations := |Stale(cache, dirty)| + |kept|)
        else started.(cache := kept, invalidations := |Stale(cache, dirty)|)
    }

    function SetBudget(limit: int): Store { this.(budget := limit, used := 0, dropped := 0) }

    function Find(k: Key): Lookup {
      if k in cache && cache[k] < |entries| then
        (if entries[cache[k]].InFlight? then Join(cache[k]) else Hit(entries[cache[k]].answer))
      else if budget > 0 && used >= budget then Dropped
      else Miss(|entries|)
    }

    /** The locked lookup: counts the request and, on a miss, registers an in-flight entry. */
    function Begin(k: Key): Store {
      match Find(k)
      case Hit(_) => this.(hits := hits + 1)
      case Join(_) => this.(dedup := dedup + 1)
      case Dropped => this.(dropped := dropped + 1)
      case Miss(id) =>
        this.(used := used + 1, misses := misses + 1, cache := cache[k := id], entries := entries + [InFlight(k)])
    }

    /** The locked completion: the entry stops being in flight and keeps the quoter's answer. */
    function Complete(id: nat, answer: Answer): Store {
      if id >= |entries| then this else this.(entries := entries[id := Done(entries[id].key, answer)])
    }
  }

  /** Drop the entries of dirty pools one by one, counting them. */
  method InvalidateDirty(cache: map<Key, nat>, dirty: set<Address>) returns (kept: map<Key, nat>, removed: nat)
    ensures kept == Clean(cache, dirty) && removed == |Stale(cache, dirty)|
  {
    kept, removed := cache, 0;
    var todo := cache.Keys;
    ghost var gone: set<Key> := {};
    while todo != {}
      invariant todo <= cache.Keys
      invariant kept == map k | k in cache && (k in todo || k.args.pool !in dirty) :: cache[k]
      invariant forall k :: k in gone <==> k in cache && k !in todo && k.args.pool in dirty
      invariant removed == |gone|
      decreases |todo|
    {
      var k :| k in todo;
      todo := todo - {k};
      if k.args.pool in dirty {
        kept := kept - {k};
        gone := gone + {k};
        removed := removed + 1;
      }
    }
    assert gone == Stale(cache, dirty);
  }

  class QuoteEngine {
    var block: Block
    var persistent: bool
    var cache: map<Key, nat>
    var entries: seq<Entry>
    var hits: nat
    var dedup: nat
    var misses: nat
    var invalidations: nat
    var budget: int
    var used: nat
    var dropped: nat

    ghost function State(): Store reads this {
      Store(block, persistent, cache, entries, hits, dedup, misses, invalidations, budget, used, dropped)
    }

    constructor ()
      ensures State() == Store(0, false, map[], [], 0, 0, 0, 0, 0, 0, 0)
    {
      block, persistent, cache, entries := 0, false, map[], [];
      hits, dedup, misses, invalidations, budget, used, dropped := 0, 0, 0, 0, 0, 0, 0;
    }

    method PrepareQuoteCache(block: Block, dirty: set<Address>, persistent: bool)
      modifies this
      ensures State() == old(State()).Prepare(block, dirty, persistent)
    {
      this.block, this.persistent := block, persistent;
      hits, dedup, misses, invalidations, used, dropped := 0, 0, 0, 0, 0, 0;
      if !persistent {
        cache := map[];
        return;
      }
      var kept, removed := InvalidateDirty(cache, dirty);
      cache, invalidations := kept, removed;
      if |cache| > CAPACITY {
        invalidations := invalidations + |cache|;
        cache := map[];
      }
    }

    method SetQuoteBudget(limit: int)
      modifies this
      ensures State() == old(State()).SetBudget(limit)
    {
      budget, used, dropped := limit, 0, 0;
    }

    method BeginQuote(k: Key) returns (found: Lookup)
      requires State().Valid()
      modifies this
      ensures found == old(State()).Find(k)
      ensures State() == old(State()).Begin(k)
    {
      if k in cache {
        var id := cache[k];
        if entries[id].InFlight? {
          dedup := dedup + 1;
          return Join(id);
        }
        hits := hits + 1;
        return Hit(entries[id].answer);
      }
      if budget > 0 && used >= budget {
        dropped := dropped + 1;
        return Dropped;
      }
      used, misses := used + 1, misses + 1;
      found := Miss(|entries|);
      cache := cache[k := |entries|];
      entries := entries + [InFlight(k)];
    }

    method CompleteQuote(id: nat, answer: Answer)
      requires id < |entries|
      modifies this
      ensures State() == old(State()).Complete(id, answer)
    {
      entries := entries[id := Done(entries[id].key, answer)];
    }
  }

  // ---------------------------------------------------------------- interleavings

  type Tid = nat

  /** A goroutine inside `quote`: key computed, inside the quoter, or waiting for another one's answer. */
  datatype Thread =
    | Keyed(req: Request, key: Key)
    | Calling(req: Request, key: Key, id: nat)
    | Waiting(req: Request, key: Key, id: nat)

  /** History since the last Prepare: `called` lists the keys the quoter ran for, `requests` counts locked
      lookups, `forgotten` the drops whose count SetBudget erased.  `charged` restarts at SetBudget too. */
  datatype System = System(st: Store, threads: map<Tid, Thread>, called: seq<Key>, charged: seq<Key>,
                           requests: nat, forgotten: nat)

  ghost function Initial(): System { System(Store(0, false, map[], [], 0, 0, 0, 0, 0, 0, 0), map[], [], [], 0, 0) }

  datatype Step =
    | Prepare(block: Block, dirty: set<Address>, persistent: bool)
    | SetBudget(limit: int)
    | Arrive(tid: Tid, req: Request)    // quoteKey's locked section
    | Look(tid: Tid)                    // the locked lookup
    | Finish(tid: Tid)                  // the quoter returned: the locked completion
    | Wake(tid: Tid)                    // a waiter sees the closed channel
    | Abandon(tid: Tid)                 // a waiter's context ends

  /** One atomic section; a step that is not enabled does nothing. */
  ghost function Apply(q: Quoter, s: System, step: Step): System {
    match step
    case Prepare(b, dirty, p) => System(s.st.Prepare(b, dirty, p), s.threads, [], [], 0, 0)
    case SetBudget(limit) =>
      s.(st := s.st.SetBudget(limit), charged := [], forgotten := s.forgotten + s.st.dropped)
    case Arrive(tid, req) =>
      if tid in s.threads || s.st.KeyOf(req).None? then s
      else s.(threads := s.threads[tid := Keyed(req, s.st.KeyOf(req).value)])
    case Look(tid) =>
      if !(tid in s.threads && s.threads[tid].Keyed?) then s
      else
        var t := s.threads[tid];
        var next := s.(st := s.st.Begin(t.key), requests := s.requests + 1);
        (match s.st.Find(t.key)
         case Hit(_) => next.(threads := s.threads - {tid})
         case Dropped => next.(threads := s.threads - {tid})
         case Join(id) => next.(threads := s.threads[tid := Waiting(t.req, t.key, id)])
         case Miss(id) =>
           next.(threads := s.threads[tid := Calling(t.req, t.key, id)],
                 called := s.called + [t.key], charged := s.charged + [t.key]))
    case Finish(tid) =>
      if !(tid in s.threads && s.threads[tid].Calling?) then s
      else s.(st := s.st.Complete(s.threads[tid].id, q(s.threads[tid].req.content, s.threads[tid].key.args)),
              threads := s.threads - {tid})
    case Wake(tid) =>
      if tid in s.threads && s.threads[tid].Waiting? && Answered(s.st, s.threads[tid].id)
      then s.(threads := s.threads - {tid}) else s
    case Abandon(tid) =>
      if tid in s.threads && s.threads[tid].Waiting? then s.(threads := s.threads - {tid}) else s
  }

  predicate Answered(st: Store, id: nat) { id < |st.entries| && st.entries[id].Done? }

  /** Threads refer to entries of their own key; each entry in flight has exactly one caller. */
  ghost predicate ThreadsValid(s: System) {
    && (forall t :: t in s.threads ==> ThreadRefers(s, s.threads[t]))
    && (forall t, u, i :: CallerOf(s, t, i) && CallerOf(s, u, i) ==> t == u)
    && (forall i {:trigger HasCaller(s, i)} :: 0 <= i < |s.st.entries| && s.st.entries[i].InFlight? ==> HasCaller(s, i))
  }

  ghost predicate HasCaller(s: System, i: nat) { exists t :: CallerOf(s, t, i) }

  /** Goroutine t is inside the quoter for entry i. */
  ghost predicate CallerOf(s: System, t: Tid, i: nat) {
    t in s.threads && s.threads[t].Calling? && s.threads[t].id == i
  }

  /** Single flight, budget and accounting. */
  ghost predicate Accounted(s: System) {
    && (forall i, j :: 0 <= i < j < |s.called| ==> s.called[i] != s.called[j])
    && (forall k :: k in s.called ==> k in s.st.cache)
    && |s.charged| == s.st.used
    && (s.st.budget > 0 ==> s.st.used <= s.st.budget)
    && |s.called| == s.st.misses
    && s.st.hits + s.st.dedup + s.st.misses + s.st.dropped + s.forgotten == s.requests
  }

  ghost predicate Inv(s: System) { s.st.Valid() && ThreadsValid(s) && Accounted(s) }

  lemma LookKeepsCallers(q: Quoter, s: System, tid: Tid)
    requires s.st.Valid() && ThreadsValid(s) && tid in s.threads && s.threads[tid].Keyed?
    ensures var s' := Apply(q, s, Look(tid));
            forall i {:trigger HasCaller(s', i)} :: 0 <= i < |s'.st.entries| && s'.st.entries[i].InFlight? ==>
                HasCaller(s', i)
  {
    var s' := Apply(q, s, Look(tid));
    forall i | 0 <= i < |s'.st.entries| && s'.st.entries[i].InFlight? ensures HasCaller(s', i) {
      if i == |s.st.entries| {
        assert CallerOf(s', tid, i);
      } else {
        assert s.st.entries[i].InFlight?;
        assert HasCaller(s, i);
      var t :| CallerOf(s, t, i);
        assert CallerOf(s', t, i);
      }
    }
  }

  lemma LookKeepsOneCaller(q: Quoter, s: System, tid: Tid)
    requires s.st.Valid() && ThreadsValid(s) && tid in s.threads && s.threads[tid].Keyed?
    ensures var s' := Apply(q, s, Look(tid)); forall t, u, i :: CallerOf(s', t, i) && CallerOf(s', u, i) ==> t == u
  {
    var s' := Apply(q, s, Look(tid));
    forall t, u, i | CallerOf(s', t, i) && CallerOf(s', u, i) ensures t == u {
      assert t != tid ==> CallerOf(s, t, i);
      assert u != tid ==> CallerOf(s, u, i);
    }
  }

  lemma BeginKeepsValid(st: Store, k: Key)
    requires st.Valid()
    ensures st.Begin(k).Valid()
  { }

  /** The locked lookup only appends entries, and what it tells is an entry of the key. */
  lemma BeginExtends(st: Store, k: Key)
    requires st.Valid()
    ensures st.entries <= st.Begin(k).entries
    ensures st.Find(k).Join? ==> st.Find(k).id < |st.entries| && st.entries[st.Find(k).id].key == k
    ensures st.Find(k).Miss? ==> st.Find(k).id == |st.entries| && st.Begin(k).entries == st.entries + [InFlight(k)]
  { }

  ghost predicate ThreadRefers(s: System, t: Thread) {
    !t.Keyed? ==>
      && t.id < |s.st.entries| && s.st.entries[t.id].key == t.key
      && (t.Calling? ==> s.st.entries[t.id].InFlight?)
  }

  lemma LookKeepsRefers(q: Quoter, s: System, tid: Tid, t: Tid)
    requires s.st.Valid() && (forall u :: u in s.threads ==> ThreadRefers(s, s.threads[u]))
    requires tid in s.threads && s.threads[tid].Keyed? && t in Apply(q, s, Look(tid)).threads
    ensures ThreadRefers(Apply(q, s, Look(tid)), Apply(q, s, Look(tid)).threads[t])
  {
    BeginExtends(s.st, s.threads[tid].key);
    if t != tid { assert ThreadRefers(s, s.threads[t]); }
  }

  lemma LookKeepsThreads(q: Quoter, s: System, tid: Tid)
    requires s.st.Valid() && ThreadsValid(s) && tid in s.threads && s.threads[tid].Keyed?
    ensures Apply(q, s, Look(tid)).st.Valid() && ThreadsValid(Apply(q, s, Look(tid)))
  {
    var s' := Apply(q, s, Look(tid));
    BeginKeepsValid(s.st, s.threads[tid].key);
    LookKeepsCallers(q, s, tid);
    LookKeepsOneCaller(q, s, tid);
    forall t | t in s'.threads ensures ThreadRefers(s', s'.threads[t]) { LookKeepsRefers(q, s, tid, t); }
  }

  lemma LookKeepsAccounts(q: Quoter, s: System, tid: Tid)
    requires s.st.Valid() && Accounted(s) && tid in s.threads && s.threads[tid].Keyed?
    ensures Accounted(Apply(q, s, Look(tid)))
  { }

  lemma FinishKeepsInv(q: Quoter, s: System, tid: Tid)
    requires Inv(s) && tid in s.threads && s.threads[tid].Calling?
    ensures Inv(Apply(q, s, Finish(tid)))
  {
    var s' := Apply(q, s, Finish(tid));
    assert CallerOf(s, tid, s.threads[tid].id);
    forall i | 0 <= i < |s'.st.entries| && s'.st.entries[i].InFlight? ensures HasCaller(s', i) {
      assert HasCaller(s, i);
      var t :| CallerOf(s, t, i);
      assert CallerOf(s', t, i);
    }
    forall t | t in s'.threads && s'.threads[t].Calling? ensures s'.st.entries[s'.threads[t].id].InFlight? {
      assert CallerOf(s, t, s.threads[t].id);
    }
    forall t, u, i | CallerOf(s', t, i) && CallerOf(s', u, i) ensures t == u {
      assert CallerOf(s, t, i) && CallerOf(s, u, i);
    }
  }

  lemma OtherStepsKeepInv(q: Quoter, s: System, step: Step)
    requires Inv(s) && !step.Look? && !step.Finish?
    ensures Inv(Apply(q, s, step))
  {
    var s' := Apply(q, s, step);
    forall i | 0 <= i < |s'.st.entries| && s'.st.entries[i].InFlight? ensures HasCaller(s', i) {
      assert HasCaller(s, i);
      var t :| CallerOf(s, t, i);
      assert CallerOf(s', t, i);
    }
    forall t, u, i | CallerOf(s', t, i) && CallerOf(s', u, i) ensures t == u {
      assert CallerOf(s, t, i) && CallerOf(s, u, i);
    }
  }

  lemma ApplyKeepsInv(q: Quoter, s: System, step: Step)
    requires Inv(s)
    ensures Inv(Apply(q, s, step))
  {
    if step.Look? {
      if step.tid in s.threads && s.threads[step.tid].Keyed? {
        LookKeepsThreads(q, s, step.tid);
        LookKeepsAccounts(q, s, step.tid);
      }
    } else if step.Finish? {
      if step.tid in s.threads && s.threads[step.tid].Calling? { FinishKeepsInv(q, s, step.tid); }
    } else {
      OtherStepsKeepInv(q, s, step);
    }
  }

  ghost function Exec(q: Quoter, s: System, steps: seq<Step>): System {
    if steps == [] then s else Apply(q, Exec(q, s, steps[..|steps| - 1]), steps[|steps| - 1])
  }

  lemma {:induction false} RunsKeepInv(q: Quoter, s: System, steps: seq<Step>)
    requires Inv(s)
    ensures Inv(Exec(q, s, steps))
  {
    if steps != [] {
      var t := Exec(q, s, steps[..|steps| - 1]);
      RunsKeepInv(q, s, steps[..|steps| - 1]);
      ApplyKeepsInv(q, t, steps[|steps| - 1]);
    }
  }

  /** `s` is what some interleaving of steps leads to. */
  ghost predicate Reachable(q: Quoter, s: System) { exists steps :: s == Exec(q, Initial(), steps) }

  lemma ReachableInv(q: Quoter, s: System)
    requires Reachable(q, s)
    ensures Inv(s)
  {
    var steps :| s == Exec(q, Initial(), steps);
    RunsKeepInv(q, Initial(), steps);
  }

  /** Over every interleaving, since the last Prepare the quoter ran at most once per key, within the budget
      whenever one is set, and every keyed request is counted exactly once. */
  lemma SingleFlightWithinBudget(q: Quoter, s: System)
    requires Reachable(q, s)
    ensures forall i, j :: 0 <= i < j < |s.called| ==> s.called[i] != s.called[j]
    ensures s.st.budget > 0 ==> |s.charged| <= s.st.budget
    ensures s.st.hits + s.st.dedup + s.st.misses + s.st.dropped + s.forgotten == s.requests
  {
    ReachableInv(q, s);
  }

  /** What a keyed request meets: a finished entry is a hit, an entry in flight is joined, and with no entry the
      request is dropped or calls the quoter; exactly that counter moves. */
  lemma LookMeets(q: Quoter, s: System, tid: Tid)
    requires Reachable(q, s) && tid in s.threads && s.threads[tid].Keyed?
    ensures var k, s' := s.threads[tid].key, Apply(q, s, Look(tid));
            if k in s.st.cache then
              var id := s.st.cache[k];
              && id < |s.st.entries| && s'.called == s.called
              && (Answered(s.st, id) ==> s'.st == s.st.(hits := s.st.hits + 1) && s'.threads == s.threads - {tid})
              && (!Answered(s.st, id) ==>
                   && s'.st == s.st.(dedup := s.st.dedup + 1)
                   && s'.threads == s.threads[tid := Waiting(s.threads[tid].req, k, id)])
            else
              && (s.st.budget > 0 && s.st.used >= s.st.budget ==>
                   s'.st == s.st.(dropped := s.st.dropped + 1) && s'.threads == s.threads - {tid})
              && (s.st.budget <= 0 || s.st.used < s.st.budget ==>
                   && CallerOf(s', tid, |s.st.entries|) && s'.st.misses == s.st.misses + 1
                   && s'.called == s.called + [k] && s'.st.cache == s.st.cache[k := |s.st.entries|])
  {
    ReachableInv(q, s);
  }

  // ---------------------------------------------------------------- the budget of a step

  /** The step makes a keyed request call the quoter. */
  ghost predicate BeginsCall(q: Quoter, s: System, step: Step) {
    && step.Look? && step.tid in s.threads && s.threads[step.tid].Keyed?
    && step.tid in Apply(q, s, step).threads && Apply(q, s, step).threads[step.tid].Calling?
  }

  ghost function CallsBegun(q: Quoter, s: System, steps: seq<Step>): nat {
    if steps == [] then 0
    else
      var before := steps[..|steps| - 1];
      CallsBegun(q, s, before) + (if BeginsCall(q, Exec(q, s, before), steps[|steps| - 1]) then 1 else 0)
  }

  ghost predicate SameBudget(steps: seq<Step>) {
    forall i :: 0 <= i < |steps| ==> !steps[i].SetBudget? && !steps[i].Prepare?
  }

  lemma CallIsCharged(q: Quoter, s: System, step: Step)
    requires !step.SetBudget? && !step.Prepare?
    ensures var s' := Apply(q, s, step);
            && s'.st.budget == s.st.budget && s'.st.used == s.st.used + (if BeginsCall(q, s, step) then 1 else 0)
            && (BeginsCall(q, s, step) ==> s.st.budget <= 0 || s.st.used < s.st.budget)
  { }

  lemma {:induction false} StretchIsCharged(q: Quoter, s: System, l: int, steps: seq<Step>)
    requires SameBudget(steps)
    ensures var start := Apply(q, s, SetBudget(l));
            && Exec(q, start, steps).st.budget == l && Exec(q, start, steps).st.used == CallsBegun(q, start, steps)
            && (l > 0 ==> CallsBegun(q, start, steps) <= l)
  {
    if steps != [] {
      var before := steps[..|steps| - 1];
      assert forall i :: 0 <= i < |before| ==> before[i] == steps[i];
      StretchIsCharged(q, s, l, before);
      CallIsCharged(q, Exec(q, Apply(q, s, SetBudget(l)), before), steps[|steps| - 1]);
    }
  }

  /** The budget is that of the step: in any stretch from SetBudget(l) on, up to the next SetBudget or Prepare, at
      most l calls of the quoter begin when l is positive; a keyed request that finds no entry is dropped iff l is
      positive and l calls have begun, and otherwise calls the quoter. */
  lemma BudgetHolds(q: Quoter, s: System, l: int, steps: seq<Step>, tid: Tid)
    requires SameBudget(steps)
    ensures l > 0 ==> CallsBegun(q, Apply(q, s, SetBudget(l)), steps) <= l
    ensures var start := Apply(q, s, SetBudget(l));
            var t := Exec(q, start, steps);
            tid in t.threads && t.threads[tid].Keyed? && t.threads[tid].key !in t.st.cache ==>
              var t' := Apply(q, t, Look(tid));
              if l > 0 && CallsBegun(q, start, steps) == l
              then tid !in t'.threads && t'.st == t.st.(dropped := t.st.dropped + 1)
              else BeginsCall(q, t, Look(tid))
  {
    StretchIsCharged(q, s, l, steps);
  }

  // ---------------------------------------------------------------- a new generation

  /** What PrepareQuoteCache leaves, entry by entry: nothing without persistence; otherwise no entry of a dirty pool,
      every other entry unless they are more than the capacity, and the number removed is counted. */
  lemma PreparedEntries(st: Store, block: Block, dirty: set<Address>, persistent: bool)
    ensures var st' := st.Prepare(block, dirty, persistent);
            var kept := set k | k in st.cache && k.args.pool !in dirty;
            && st'.block == block && st'.persistent == persistent && st'.entries == st.entries
                && st'.budget == st.budget
            && st'.hits == st'.dedup == st'.misses == st'.used == st'.dropped == 0
            && (!persistent ==> st'.cache == map[] && st'.invalidations == 0)
            && (persistent ==>
                 && (forall k :: k in st'.cache ==>
                     k in st.cache && st'.cache[k] == st.cache[k] && k.args.pool !in dirty)
                 && (|kept| <= CAPACITY ==> forall k :: k in st.cache && k.args.pool !in dirty ==> k in st'.cache)
                 && (|kept| > CAPACITY ==> st'.cache == map[])
                 && st'.invalidations == |st.cache| - |st'.cache|)
  {
    var kept := set k | k in st.cache && k.args.pool !in dirty;
    assert Clean(st.cache, dirty).Keys == kept;
    assert st.cache.Keys == kept + Stale(st.cache, dirty);
    assert |st.cache.Keys| == |kept| + |Stale(st.cache, dirty)|;
  }

  /** A waiter is never stranded: while the entry it waits for is in flight, exactly one goroutine is inside
      the quoter for it. */
  lemma WaiterHasOneCaller(q: Quoter, s: System, t: Tid)
    requires Reachable(q, s) && t in s.threads && s.threads[t].Waiting? && !Answered(s.st, s.threads[t].id)
    ensures HasCaller(s, s.threads[t].id)
    ensures forall c, d :: CallerOf(s, c, s.threads[t].id) && CallerOf(s, d, s.threads[t].id) ==> c == d
  {
    ReachableInv(q, s);
  }

  /** An answer, once given, never changes: everybody who joined an entry gets the same one. */
  lemma {:induction false} AnswersAreFinal(q: Quoter, s: System, steps: seq<Step>, i: nat)
    requires Inv(s) && Answered(s.st, i)
    ensures Answered(Exec(q, s, steps).st, i) && Exec(q, s, steps).st.entries[i] == s.st.entries[i]
  {
    if steps != [] {
      AnswersAreFinal(q, s, steps[..|steps| - 1], i);
      RunsKeepInv(q, s, steps[..|steps| - 1]);
      ApplyKeepsAnswer(q, Exec(q, s, steps[..|steps| - 1]), steps[|steps| - 1], i);
    }
  }

  lemma ApplyKeepsAnswer(q: Quoter, s: System, step: Step, i: nat)
    requires Inv(s) && Answered(s.st, i)
    ensures Answered(Apply(q, s, step).st, i) && Apply(q, s, step).st.entries[i] == s.st.entries[i]
  { }

  // ---------------------------------------------------------------- transparency

  /** The content a key stands for. */
  type Meaning = Key -> Content

  ghost predicate Means(c: Meaning, key: Option<Key>, req: Request) { key.Some? ==> req.content == c(key.value) }

  /** Every answer in the cache, and every answer still to come, is what the quoter gives for the content
      the key stands for. */
  ghost predicate Transparent(q: Quoter, c: Meaning, s: System) {
    && (forall i :: 0 <= i < |s.st.entries| && s.st.entries[i].Done? ==>
          s.st.entries[i].answer == q(c(s.st.entries[i].key), s.st.entries[i].key.args))
    && (forall t :: t in s.threads ==> Carries(c, s.threads[t]))
  }

  ghost predicate Carries(c: Meaning, t: Thread) { t.req.content == c(t.key) && t.req.args == Some(t.key.args) }

  ghost predicate MeantStep(c: Meaning, s: System, step: Step) {
    step.Arrive? ==> Means(c, s.st.KeyOf(step.req), step.req)
  }

  lemma LookKeepsTransparent(q: Quoter, c: Meaning, s: System, tid: Tid)
    requires Inv(s) && Transparent(q, c, s)
    ensures Transparent(q, c, Apply(q, s, Look(tid)))
  {
    var s' := Apply(q, s, Look(tid));
    forall t | t in s'.threads ensures Carries(c, s'.threads[t]) { assert t in s.threads && Carries(c, s.threads[t]); }
  }

  lemma FinishKeepsTransparent(q: Quoter, c: Meaning, s: System, tid: Tid)
    requires Inv(s) && Transparent(q, c, s)
    ensures Transparent(q, c, Apply(q, s, Finish(tid)))
  {
    var s' := Apply(q, s, Finish(tid));
    forall t | t in s'.threads ensures Carries(c, s'.threads[t]) { assert t in s.threads && Carries(c, s.threads[t]); }
    if tid in s.threads { assert Carries(c, s.threads[tid]); }
  }

  lemma ApplyKeepsTransparent(q: Quoter, c: Meaning, s: System, step: Step)
    requires Inv(s) && Transparent(q, c, s) && MeantStep(c, s, step)
    ensures Transparent(q, c, Apply(q, s, step))
  {
    if step.Look? {
      LookKeepsTransparent(q, c, s, step.tid);
    } else if step.Finish? {
      FinishKeepsTransparent(q, c, s, step.tid);
    } else {
      var s' := Apply(q, s, step);
      assert s'.st.entries == s.st.entries;
      forall t | t in s'.threads ensures Carries(c, s'.threads[t]) {
        assert t in s.threads ==> Carries(c, s.threads[t]);
      }
    }
  }

  ghost predicate Good(q: Quoter, c: Meaning, s: System) { Inv(s) && Transparent(q, c, s) }

  lemma ApplyKeepsGood(q: Quoter, c: Meaning, s: System, step: Step)
    requires Good(q, c, s) && MeantStep(c, s, step)
    ensures Good(q, c, Apply(q, s, step))
  {
    ApplyKeepsInv(q, s, step);
    ApplyKeepsTransparent(q, c, s, step);
  }

  /** A goroutine that would hit, or that waits for an answer already given, gets what the quoter gives for
      its own request. */
  ghost predicate Current(q: Quoter, s: System, t: Tid)
    requires t in s.threads
  {
    && s.threads[t].req.args.Some?
    && (s.threads[t].Keyed? && s.st.Find(s.threads[t].key).Hit? ==>
          s.st.Find(s.threads[t].key).answer == q(s.threads[t].req.content, s.threads[t].req.args.value))
    && (s.threads[t].Waiting? && Answered(s.st, s.threads[t].id) ==>
          s.st.entries[s.threads[t].id].answer == q(s.threads[t].req.content, s.threads[t].req.args.value))
  }

  ghost predicate AllCurrent(q: Quoter, s: System) { forall t :: t in s.threads ==> Current(q, s, t) }

  lemma GoodIsCurrent(q: Quoter, c: Meaning, s: System, t: Tid)
    requires Good(q, c, s) && t in s.threads
    ensures Current(q, s, t)
  {
    assert Carries(c, s.threads[t]);
  }

  // ---------------------------------------------------------------- the exact condition in one generation

  /** The run of one generation: prepared once, and every request is one of `rs`. */
  ghost predicate Generation(steps: seq<Step>, block: Block, persistent: bool, rs: iset<Request>) {
    && steps != [] && steps[0].Prepare? && steps[0].block == block && steps[0].persistent == persistent
    && forall i :: 0 < i < |steps| ==> Within(steps[i], rs)
  }

  ghost predicate Within(step: Step, rs: iset<Request>) { !step.Prepare? && (step.Arrive? ==> step.req in rs) }

  /** Requests with one key carry one content. */
  ghost predicate Agree(block: Block, persistent: bool, rs: iset<Request>) {
    forall x, y :: x in rs && y in rs && KeyAt(block, persistent, x).Some?
        && KeyAt(block, persistent, x) == KeyAt(block, persistent, y)
      ==> x.content == y.content
  }

  /** Then a key stands for the content of the requests that have it. */
  ghost function Common(block: Block, persistent: bool, rs: iset<Request>): Meaning {
    (k: Key) =>
      if exists r :: r in rs && KeyAt(block, persistent, r) == Some(k)
      then var r :| r in rs && KeyAt(block, persistent, r) == Some(k); r.content else Content(0, 0)
  }

  lemma CommonMeans(block: Block, persistent: bool, rs: iset<Request>, req: Request)
    requires Agree(block, persistent, rs) && req in rs
    ensures Means(Common(block, persistent, rs), KeyAt(block, persistent, req), req)
  { }

  lemma KeepsGeneration(q: Quoter, s: System, step: Step)
    requires !step.Prepare?
    ensures Apply(q, s, step).st.block == s.st.block && Apply(q, s, step).st.persistent == s.st.persistent
  { }

  lemma InitialGood(q: Quoter, c: Meaning)
    ensures Good(q, c, Initial())
  { }

  lemma PrepareSets(q: Quoter, s: System, step: Step)
    requires step.Prepare?
    ensures Apply(q, s, step).st.block == step.block && Apply(q, s, step).st.persistent == step.persistent
  { }

  lemma PreparedIsGood(q: Quoter, c: Meaning, s: System, step: Step)
    requires Good(q, c, s) && step.Prepare?
    ensures Good(q, c, Apply(q, s, step))
    ensures Apply(q, s, step).st.block == step.block && Apply(q, s, step).st.persistent == step.persistent
  {
    ApplyKeepsGood(q, c, s, step);
    PrepareSets(q, s, step);
  }

  /** What holds throughout a generation. */
  ghost predicate GoodAt(q: Quoter, block: Block, persistent: bool, rs: iset<Request>, s: System) {
    s.st.block == block && s.st.persistent == persistent && Good(q, Common(block, persistent, rs), s)
  }

  lemma StepStaysGood(q: Quoter, block: Block, persistent: bool, rs: iset<Request>, s: System, step: Step)
    requires Agree(block, persistent, rs) && GoodAt(q, block, persistent, rs, s) && Within(step, rs)
    ensures GoodAt(q, block, persistent, rs, Apply(q, s, step))
  {
    if step.Arrive? { CommonMeans(block, persistent, rs, step.req); }
    ApplyKeepsGood(q, Common(block, persistent, rs), s, step);
    KeepsGeneration(q, s, step);
  }

  lemma {:induction false} GenerationGood(q: Quoter, start: System, steps: seq<Step>, block: Block, persistent: bool,
                                          rs: iset<Request>)
    requires Generation(steps, block, persistent, rs) && Agree(block, persistent, rs)
    requires Good(q, Common(block, persistent, rs), start)
    ensures GoodAt(q, block, persistent, rs, Exec(q, start, steps))
  {
    var before, last := steps[..|steps| - 1], steps[|steps| - 1];
    var s := Exec(q, start, before);
    if |steps| == 1 {
      PreparedIsGood(q, Common(block, persistent, rs), s, last);
    } else {
      assert forall i :: 0 <= i < |before| ==> before[i] == steps[i];
      GenerationGood(q, start, before, block, persistent, rs);
      StepStaysGood(q, block, persistent, rs, s, last);
    }
  }

  /** The run ends in a state where everybody is served currently. */
  ghost predicate CurrentRun(q: Quoter, steps: seq<Step>) { AllCurrent(q, Exec(q, Initial(), steps)) }

  lemma GoodAllCurrent(q: Quoter, c: Meaning, s: System)
    requires Good(q, c, s)
    ensures AllCurrent(q, s)
  {
    forall t | t in s.threads ensures Current(q, s, t) { GoodIsCurrent(q, c, s, t); }
  }

  lemma GoodRunIsCurrent(q: Quoter, start: System, steps: seq<Step>, block: Block, persistent: bool, rs: iset<Request>)
    requires Generation(steps, block, persistent, rs) && Agree(block, persistent, rs)
    requires Good(q, Common(block, persistent, rs), start)
    ensures AllCurrent(q, Exec(q, start, steps))
  {
    GenerationGood(q, start, steps, block, persistent, rs);
    GoodAllCurrent(q, Common(block, persistent, rs), Exec(q, start, steps));
  }

  lemma AgreeingRunIsCurrent(q: Quoter, steps: seq<Step>, block: Block, persistent: bool, rs: iset<Request>)
    requires Generation(steps, block, persistent, rs) && Agree(block, persistent, rs)
    ensures CurrentRun(q, steps)
  {
    InitialGood(q, Common(block, persistent, rs));
    GoodRunIsCurrent(q, Initial(), steps, block, persistent, rs);
  }

  /** The trace reaches the state. */
  ghost predicate Leads(q: Quoter, steps: seq<Step>, s: System) { Exec(q, Initial(), steps) == s }

  lemma Then(q: Quoter, steps: seq<Step>, s: System, step: Step, s': System)
    requires Leads(q, steps, s) && s' == Apply(q, s, step)
    ensures Leads(q, steps + [step], s')
  {
    assert (steps + [step])[..|steps|] == steps;
  }

  // The first request of a generation: prepared, keyed, in flight, quoted.

  ghost function Prepared(block: Block, persistent: bool): System {
    System(Store(block, persistent, map[], [], 0, 0, 0, 0, 0, 0, 0), map[], [], [], 0, 0)
  }

  ghost function Asked(block: Block, persistent: bool, r: Request, k: Key): System {
    Prepared(block, persistent).(threads := map[0 := Keyed(r, k)])
  }

  ghost function Flying(block: Block, persistent: bool, r: Request, k: Key): System {
    System(Store(block, persistent, map[k := 0], [InFlight(k)], 0, 0, 1, 0, 0, 1, 0), map[0 := Calling(r, k, 0)], [k],
        [k], 1, 0)
  }

  ghost function Filled(block: Block, persistent: bool, k: Key, answer: Answer): System {
    System(Store(block, persistent, map[k := 0], [Done(k, answer)], 0, 0, 1, 0, 0, 1, 0), map[], [k], [k], 1, 0)
  }

  lemma QuoteFirstSteps(q: Quoter, block: Block, persistent: bool, r: Request, k: Key)
    requires KeyAt(block, persistent, r) == Some(k)
    ensures Apply(q, Initial(), Prepare(block, {}, persistent)) == Prepared(block, persistent)
    ensures Apply(q, Prepared(block, persistent), Arrive(0, r)) == Asked(block, persistent, r, k)
    ensures Apply(q, Asked(block, persistent, r, k), Look(0)) == Flying(block, persistent, r, k)
    ensures Apply(q, Flying(block, persistent, r, k), Finish(0)) == Filled(block, persistent, k, q(r.content, k.args))
  {
    assert Clean(map[], {}) == map[] && Stale(map[], {}) == {};
    assert [] + [InFlight(k)] == [InFlight(k)] && [] + [k] == [k];
    assert map[0 := Calling(r, k, 0)] - {0} == map[];
    assert [InFlight(k)][0 := Done(k, q(r.content, k.args))] == [Done(k, q(r.content, k.args))];
  }

  lemma QuoteFirst(q: Quoter, block: Block, persistent: bool, r: Request)
    requires KeyAt(block, persistent, r).Some?
    ensures var k := KeyAt(block, persistent, r).value;
            Leads(q, [Prepare(block, {}, persistent), Arrive(0, r), Look(0), Finish(0)],
                Filled(block, persistent, k, q(r.content, k.args)))
  {
    var k, prepare := KeyAt(block, persistent, r).value, Prepare(block, {}, persistent);
    QuoteFirstSteps(q, block, persistent, r, k);
    Then(q, [], Initial(), prepare, Prepared(block, persistent));
    Then(q, [] + [prepare], Prepared(block, persistent), Arrive(0, r), Asked(block, persistent, r, k));
    Then(q, [] + [prepare] + [Arrive(0, r)], Asked(block, persistent, r, k), Look(0), Flying(block, persistent, r, k));
    Then(q, [] + [prepare] + [Arrive(0, r)] + [Look(0)], Flying(block, persistent, r, k), Finish(0),
         Filled(block, persistent, k, q(r.content, k.args)));
    assert [] + [prepare] + [Arrive(0, r)] + [Look(0)] + [Finish(0)] == [prepare, Arrive(0, r), Look(0), Finish(0)];
  }

  /** Tells one content from all others. */
  function Telling(c: Content): Quoter { (x: Content, args: Args) => Quoted(if x == c then 0 else 1, 0) }

  /** Two requests with one key and different contents: the second one hits the answer of the first. */
  lemma SecondHits(q: Quoter, block: Block, persistent: bool, y: Request, k: Key, answer: Answer)
    requires KeyAt(block, persistent, y) == Some(k) && answer != q(y.content, k.args)
    ensures var s := Apply(q, Filled(block, persistent, k, answer), Arrive(1, y));
            s == Filled(block, persistent, k, answer).(threads := map[1 := Keyed(y, k)]) && !AllCurrent(q, s)
  {
    var s := Apply(q, Filled(block, persistent, k, answer), Arrive(1, y));
    assert s.st.Find(k) == Hit(answer);
    assert 1 in s.threads && !Current(q, s, 1);
  }

  // The same from any idle engine, however it was prepared.

  ghost predicate Empty(s: System) {
    s.threads == map[] && s.st.cache == map[] && s.st.entries == [] && s.st.budget <= 0
  }

  /** The one entry answers k. */
  ghost predicate Holding(s: System, k: Key, answer: Answer) {
    s.threads == map[] && s.st.cache == map[k := 0] && s.st.entries == [Done(k, answer)]
  }

  ghost predicate InGeneration(s: System, block: Block) { s.st.block == block && s.st.persistent }

  lemma EmptyPrepared(q: Quoter, s: System, block: Block, dirty: set<Address>)
    requires Empty(s)
    ensures var s' := Apply(q, s, Prepare(block, dirty, true)); Empty(s') && InGeneration(s', block)
  {
    assert Clean(map[], dirty) == map[];
  }

  lemma QuoteOnEmpty(q: Quoter, s: System, block: Block, r: Request, k: Key)
    requires Empty(s) && InGeneration(s, block) && s.st.KeyOf(r) == Some(k)
    ensures var s' := Apply(q, Apply(q, Apply(q, s, Arrive(0, r)), Look(0)), Finish(0));
            Holding(s', k, q(r.content, k.args)) && InGeneration(s', block)
  {
    var s1 := Apply(q, s, Arrive(0, r));
    assert s1.threads == map[0 := Keyed(r, k)] && s1.st.Find(k) == Miss(0);
    var s2 := Apply(q, s1, Look(0));
    assert s2.threads == map[0 := Calling(r, k, 0)] && s2.st.entries == [InFlight(k)] && s2.st.cache == map[k := 0];
    var s3 := Apply(q, s2, Finish(0));
    assert s3.threads == map[] && s3.st.entries == [Done(k, q(r.content, k.args))];
  }

  lemma HoldingPrepared(q: Quoter, s: System, k: Key, answer: Answer, block: Block, dirty: set<Address>)
    requires Holding(s, k, answer) && k.args.pool !in dirty
    ensures var s' := Apply(q, s, Prepare(block, dirty, true)); Holding(s', k, answer) && InGeneration(s', block)
  {
    assert Clean(map[k := 0], dirty) == map[k := 0];
    assert |map[k := 0]| == 1;
  }

  lemma HoldingHits(q: Quoter, s: System, k: Key, answer: Answer, y: Request)
    requires Holding(s, k, answer) && s.st.KeyOf(y) == Some(k) && answer != q(y.content, k.args)
    ensures !AllCurrent(q, Apply(q, s, Arrive(1, y)))
  {
    var s' := Apply(q, s, Arrive(1, y));
    assert 1 in s'.threads && s'.st.Find(k) == Hit(answer);
    assert !Current(q, s', 1);
  }

  lemma StaleHit(block: Block, persistent: bool, x: Request, y: Request) returns (steps: seq<Step>)
    requires KeyAt(block, persistent, x).Some? && KeyAt(block, persistent, x) == KeyAt(block, persistent, y)
        && x.content != y.content
    ensures Generation(steps, block, persistent, iset{x, y}) && !CurrentRun(Telling(x.content), steps)
  {
    var q, k := Telling(x.content), KeyAt(block, persistent, x).value;
    var before := [Prepare(block, {}, persistent), Arrive(0, x), Look(0), Finish(0)];
    var filled := Filled(block, persistent, k, q(x.content, k.args));
    QuoteFirst(q, block, persistent, x);
    SecondHits(q, block, persistent, y, k, q(x.content, k.args));
    Then(q, before, filled, Arrive(1, y), Apply(q, filled, Arrive(1, y)));
    steps := before + [Arrive(1, y)];
  }

  /** The exact condition: in one generation every hit and every waiter's answer is current, for every quoter and
      in every interleaving, iff requests with the same key carry the same content. */
  lemma CurrentIffKeysDetermineContent(block: Block, persistent: bool, rs: iset<Request>)
    ensures (forall q, steps | Generation(steps, block, persistent, rs) :: CurrentRun(q, steps))
       <==> Agree(block, persistent, rs)
  {
    if Agree(block, persistent, rs) {
      forall q, steps | Generation(steps, block, persistent, rs) ensures CurrentRun(q, steps) {
        AgreeingRunIsCurrent(q, steps, block, persistent, rs);
      }
    } else {
      var x, y :| x in rs && y in rs && KeyAt(block, persistent, x).Some?
        && KeyAt(block, persistent, x) == KeyAt(block, persistent, y) && x.content != y.content;
      var steps := StaleHit(block, persistent, x, y);
      assert forall i :: 0 < i < |steps| ==> Within(steps[i], iset{x, y}) && Within(steps[i], rs);
      assert Generation(steps, block, persistent, rs);
    }
  }

  /** A pool without a label, or any pool without the persistent cache, is keyed by the cycle's block: once its
      content changes within a generation, some run serves the old answer. */
  lemma UnlabelledPoolServesStaleAnswer(block: Block, persistent: bool, args: Args, before: Request, after: Request)
    requires args.pool != 0 && before.args == after.args == Some(args) && before.content != after.content
    requires !persistent || before.updatedAt == after.updatedAt == 0
    ensures exists q, steps :: Generation(steps, block, persistent, iset{before, after}) && !CurrentRun(q, steps)
  {
    CurrentIffKeysDetermineContent(block, persistent, iset{before, after});
    assert before in iset{before, after} && after in iset{before, after};
  }
}
