/** The live-pair admission machine (go/internal/pairintel/memory.go): scoring windows with hysteresis, two
    caps, cooldown, eviction, and the pool-to-pair index.

    Floating-point scoring is an input: every scoring produces an arbitrary `Assessment`.  Times are integers. */
module Admission {

  import opened Options

  type Token = nat
  type PoolId = nat
  type Dex = nat

  datatype Key = Key(token0: Token, token1: Token)

  datatype Status = Observed | Shadow | Admitted | Cooled

  datatype Assessment = Assessment(score: int, confidence: int, quoteSuccess: int, depth: int, failure: int,
                                   illiquidity: int)

  datatype Pair = Pair(venues: map<PoolId, Dex>, firstObserved: int, status: Status, cooldownUntil: int,
                       assessment: Assessment, recent: seq<int>, below: nat)

  /** The configuration and what is fixed during a run: the core tokens and the pair of every pool. */
  datatype Config = Config(core: set<Token>, home: PoolId -> Key,
                           maxLivePairs: nat, maxLiveDynamic: nat, minDexes: nat, ejectWindows: nat, maxTracked: nat,
                           cooldown: int, minObservation: int, minScore: int, minConfidence: int, minQuote: int,
                           minDepth: int, maxFailure: int, maxIlliquidity: int, maxDrift: int) {
    /** What NewMemory guarantees. */
    ghost predicate Normal() {
      maxLivePairs >= 1 && maxLiveDynamic >= 1 && minDexes >= 2 && ejectWindows >= 1 && maxTracked >= 1 && cooldown > 0
          && minObservation > 0
    }
  }

  datatype Memory = Memory(pairs: map<Key, Pair>, poolPairs: map<PoolId, Key>, clock: int)

  // ---------------------------------------------------------------- one window for one pair

  function LastFour(s: seq<int>): seq<int> { if |s| > 4 then s[|s| - 4..] else s }

  function Scored(p: Pair, a: Assessment): Pair { p.(assessment := a, recent := LastFour(p.recent + [a.score])) }

  function DexesOf(p: Pair): set<Dex> { set v | v in p.venues :: p.venues[v] }

  predicate CoreConnected(c: Config, k: Key) { k.token0 in c.core || k.token1 in c.core }

  predicate Steady(recent: seq<int>, maxDrift: int) {
    |recent| >= 3 && forall i, j :: 0 <= i < |recent| && 0 <= j < |recent| ==> recent[i] - recent[j] <= maxDrift
  }

  /** `liveQualifiedLocked`, on a freshly scored pair. */
  predicate Qualified(c: Config, k: Key, p: Pair, now: int) {
    && !(p.status == Cooled && now < p.cooldownUntil)
    && now - p.firstObserved >= c.minObservation
    && p.assessment.score >= c.minScore && p.assessment.confidence >= c.minConfidence
    && |DexesOf(p)| >= c.minDexes && CoreConnected(c, k)
    && p.assessment.quoteSuccess >= c.minQuote && p.assessment.depth >= c.minDepth
    && p.assessment.failure <= c.maxFailure && p.assessment.illiquidity <= c.maxIlliquidity
    && Steady(p.recent, c.maxDrift)
  }

  /** The bookkeeping of a selection window: a failing admitted pair counts the window and is cooled once it
      has failed ejectWindows in a row; a qualifying one starts over. */
  function Judged(c: Config, k: Key, p: Pair, a: Assessment, now: int): Pair {
    var q := Scored(p, a);
    if q.status == Admitted && !Qualified(c, k, q, now) then
      if q.below + 1 >= c.ejectWindows
          then q.(below := q.below + 1, status := Cooled, cooldownUntil := now + c.cooldown)
      else q.(below := q.below + 1)
    else if Qualified(c, k, q, now) then q.(below := 0) else q
  }

  /** Admitted, failing this window, and still within its grace windows. */
  predicate InGrace(c: Config, k: Key, p: Pair, a: Assessment, now: int) {
    p.status == Admitted && !Qualified(c, k, Scored(p, a), now) && p.below + 1 < c.ejectWindows
  }

  // ---------------------------------------------------------------- the selection window

  function TokensOf(k: Key): set<Token> { {k.token0, k.token1} }

  function DynamicOf(c: Config, k: Key): set<Token> { TokensOf(k) - c.core }

  function DynamicTokens(c: Config, ks: set<Key>): set<Token> { set k, t | k in ks && t in DynamicOf(c, k) :: t }

  function Preserved(c: Config, m: Memory, now: int, f: Key -> Assessment): set<Key> {
    set k | k in m.pairs && InGrace(c, k, m.pairs[k], f(k), now)
  }

  function Candidates(c: Config, m: Memory, now: int, f: Key -> Assessment): set<Key> {
    set k | k in m.pairs && Qualified(c, k, Scored(m.pairs[k], f(k)), now)
  }

  predicate Before(x: Key, y: Key) { x.token0 < y.token0 || (x.token0 == y.token0 && x.token1 < y.token1) }

  /** Higher score first, then key order. */
  predicate Ranks(f: Key -> Assessment, x: Key, y: Key) {
    f(x).score > f(y).score || (f(x).score == f(y).score && Before(x, y))
  }

  /** `order` lists the candidates once each, best first. */
  ghost predicate Ranked(order: seq<Key>, ks: set<Key>, f: Key -> Assessment) {
    && (forall k :: k in ks <==> k in order)
    && (forall i, j :: 0 <= i < j < |order| ==> Ranks(f, order[i], order[j]))
  }

  /** A candidate joins if the live set's non-core tokens still fit the asset cap with it. */
  function Joined(c: Config, k: Key, selected: set<Key>): set<Key> {
    if |DynamicTokens(c, selected + {k})| <= c.maxLiveDynamic then selected + {k} else selected
  }

  /** The greedy pass: candidates join while both caps allow it. */
  function Choose(c: Config, order: seq<Key>, i: nat, selected: set<Key>): set<Key>
    decreases |order| - i
  {
    if i >= |order| || |selected| >= c.maxLivePairs then selected
        else Choose(c, order, i + 1, Joined(c, order[i], selected))
  }

  function Selected(c: Config, m: Memory, now: int, f: Key -> Assessment, order: seq<Key>): set<Key> {
    Choose(c, order, 0, Preserved(c, m, now, f))
  }

  function Settled(p: Pair, chosen: bool): Pair {
    if chosen then p.(status := Admitted) else if p.status == Admitted then p.(status := Observed) else p
  }

  function AfterSelect(c: Config, m: Memory, now: int, f: Key -> Assessment, order: seq<Key>): Memory {
    var chosen := Selected(c, m, now, f, order);
    Memory(map k | k in m.pairs :: Settled(Judged(c, k, m.pairs[k], f(k), now), k in chosen), m.poolPairs, now)
  }

  // ---------------------------------------------------------------- observation, depth, eviction

  function Seen(c: Config, m: Memory, now: int, pool: PoolId, dex: Dex, a: Assessment): Memory {
    var k := c.home(pool);
    var p := if k in m.pairs then m.pairs[k] else Pair(map[], now, Observed, 0, a, [], 0);
    Memory(m.pairs[k := p.(venues := p.venues[pool := dex], assessment := a)], m.poolPairs[pool := k], now)
  }

  function Rank(s: Status): nat { match s case Cooled => 0 case Observed => 1 case Shadow => 2 case Admitted => 3 }

  /** The order of eviction: by state, then by score. */
  predicate Lower(p: Pair, q: Pair) {
    Rank(p.status) < Rank(q.status) || (p.status == q.status && p.assessment.score <= q.assessment.score)
  }

  /** What pruneLocked may evict: just enough pairs, lowest first. */
  ghost predicate Evictable(c: Config, m: Memory, gone: set<Key>) {
    && gone <= m.pairs.Keys
    && (if |m.pairs| <= c.maxTracked then gone == {} else |m.pairs| - |gone| == c.maxTracked)
    && forall x, y :: x in gone && y in m.pairs && y !in gone ==> Lower(m.pairs[x], m.pairs[y])
  }

  function Evicted(m: Memory, gone: set<Key>): Memory {
    Memory(m.pairs - gone, map a | a in m.poolPairs
        && !(exists k :: k in gone && k in m.pairs && a in m.pairs[k].venues) :: m.poolPairs[a], m.clock)
  }

  /** `pairByPoolLocked`: the index first, a scan only if the index has no entry. */
  ghost function PairByPool(m: Memory, pool: PoolId): Option<Key> {
    if pool in m.poolPairs then (if m.poolPairs[pool] in m.pairs then Some(m.poolPairs[pool]) else None)
    else Scan(m, pool)
  }

  ghost function Scan(m: Memory, pool: PoolId): Option<Key> {
    if exists k :: k in m.pairs && pool in m.pairs[k].venues
    then var k :| k in m.pairs && pool in m.pairs[k].venues; Some(k) else None
  }

  /** RecordDepth: the pair's failure averages are inputs; `trip` says one of them crossed its bound. */
  function Probed(c: Config, m: Memory, k: Key, now: int, trip: bool, a: Assessment): Memory
    requires k in m.pairs
  {
    var p := m.pairs[k].(assessment := a);
    m.(pairs := m.pairs[k := if trip then p.(status := Cooled, cooldownUntil := now + c.cooldown) else p], clock := now)
  }

  datatype Step =
    | Select(now: int, f: Key -> Assessment, order: seq<Key>)
    | Depth(now: int, pool: PoolId, trip: bool, a: Assessment)
    | Observe(now: int, pool: PoolId, dex: Dex, a: Assessment, gone: set<Key>)

  /** One locked operation; a step that is not enabled does nothing.  The clock never goes back. */
  ghost function Apply(c: Config, m: Memory, s: Step): Memory {
    if s.now < m.clock then m
    else match s
      case Select(now, f, order) =>
        if Ranked(order, Candidates(c, m, now, f), f) then AfterSelect(c, m, now, f, order) else m
      case Depth(now, pool, trip, a) =>
        if PairByPool(m, pool).None? then m.(clock := now) else Probed(c, m, PairByPool(m, pool).value, now, trip, a)
      case Observe(now, pool, dex, a, gone) =>
        if Evictable(c, Seen(c, m, now, pool, dex, a), gone) then Evicted(Seen(c, m, now, pool, dex, a), gone) else m
  }

  ghost function Exec(c: Config, m: Memory, steps: seq<Step>): Memory {
    if steps == [] then m else Apply(c, Exec(c, m, steps[..|steps| - 1]), steps[|steps| - 1])
  }

  // ---------------------------------------------------------------- caps

  ghost function AdmittedKeys(m: Memory): set<Key> { set k | k in m.pairs && m.pairs[k].status == Admitted }

  ghost predicate WithinCaps(c: Config, ks: set<Key>) {
    |ks| <= c.maxLivePairs && |DynamicTokens(c, ks)| <= c.maxLiveDynamic
  }

  lemma SubsetSize<T>(a: set<T>, b: set<T>)
    requires a <= b
    ensures |a| <= |b|
  {
    assert b == a + (b - a);
  }

  lemma SmallerWithinCaps(c: Config, small: set<Key>, big: set<Key>)
    requires small <= big && WithinCaps(c, big)
    ensures WithinCaps(c, small)
  {
    SubsetSize(small, big);
    SubsetSize(DynamicTokens(c, small), DynamicTokens(c, big));
  }

  lemma JoinDynamic(c: Config, ks: set<Key>, k: Key)
    ensures DynamicTokens(c, ks + {k}) == DynamicTokens(c, ks) + DynamicOf(c, k)
  { }

  lemma UnionSize<T>(a: set<T>, b: set<T>)
    ensures |a + b| == |a| + |b - a|
  {
    assert a + b == a + (b - a);
  }

  /** The greedy pass keeps both caps, keeps what was preserved, and adds only candidates. */
  lemma {:induction false} ChooseWithinCaps(c: Config, order: seq<Key>, i: nat, selected: set<Key>)
    requires WithinCaps(c, selected)
    ensures WithinCaps(c, Choose(c, order, i, selected))
    ensures selected <= Choose(c, order, i, selected)
    ensures forall k :: k in Choose(c, order, i, selected) ==> k in selected || k in order
    decreases |order| - i
  {
    if i < |order| && |selected| < c.maxLivePairs {
      assert |selected + {order[i]}| <= |selected| + 1;
      ChooseWithinCaps(c, order, i + 1, Joined(c, order[i], selected));
    }
  }

  lemma SelectedFacts(c: Config, m: Memory, now: int, f: Key -> Assessment, order: seq<Key>)
    requires WithinCaps(c, AdmittedKeys(m)) && Ranked(order, Candidates(c, m, now, f), f)
    ensures var s := Selected(c, m, now, f, order);
            && WithinCaps(c, s)
            && Preserved(c, m, now, f) <= s <= Preserved(c, m, now, f) + Candidates(c, m, now, f)
  {
    var kept := Preserved(c, m, now, f);
    SmallerWithinCaps(c, kept, AdmittedKeys(m));
    ChooseWithinCaps(c, order, 0, kept);
  }

  lemma SelectAdmitsSelected(c: Config, m: Memory, now: int, f: Key -> Assessment, order: seq<Key>)
    requires WithinCaps(c, AdmittedKeys(m)) && Ranked(order, Candidates(c, m, now, f), f)
    ensures AdmittedKeys(AfterSelect(c, m, now, f, order)) == Selected(c, m, now, f, order)
  {
    var m', chosen := AfterSelect(c, m, now, f, order), Selected(c, m, now, f, order);
    SelectedFacts(c, m, now, f, order);
    assert chosen <= m.pairs.Keys && m'.pairs.Keys == m.pairs.Keys;
    forall k | k in m.pairs ensures m'.pairs[k].status == Admitted <==> k in chosen {
      SettledIsChosen(Judged(c, k, m.pairs[k], f(k), now), k in chosen);
    }
  }

  lemma SettledIsChosen(p: Pair, chosen: bool)
    ensures Settled(p, chosen).status == Admitted <==> chosen
  { }

  lemma ApplyKeepsCaps(c: Config, m: Memory, s: Step)
    requires WithinCaps(c, AdmittedKeys(m))
    ensures WithinCaps(c, AdmittedKeys(Apply(c, m, s)))
  {
    if s.Select? && s.now >= m.clock && Ranked(s.order, Candidates(c, m, s.now, s.f), s.f) {
      SelectAdmitsSelected(c, m, s.now, s.f, s.order);
      SelectedFacts(c, m, s.now, s.f, s.order);
    } else {
      assert AdmittedKeys(Apply(c, m, s)) <= AdmittedKeys(m);
      SmallerWithinCaps(c, AdmittedKeys(Apply(c, m, s)), AdmittedKeys(m));
    }
  }

  /** Caps: over every run, admitted pairs stay within maxLivePairs and their non-core tokens within
      maxLiveDynamic, whatever the scores, the probes and the evictions. */
  lemma {:induction false} CapsHold(c: Config, m: Memory, steps: seq<Step>)
    requires WithinCaps(c, AdmittedKeys(m))
    ensures WithinCaps(c, AdmittedKeys(Exec(c, m, steps)))
  {
    if steps != [] {
      CapsHold(c, m, steps[..|steps| - 1]);
      ApplyKeepsCaps(c, Exec(c, m, steps[..|steps| - 1]), steps[|steps| - 1]);
    }
  }

  /** Only a selection admits, and only core-connected pairs seen on at least minDexes venues. */
  lemma AdmissionNeedsVenues(c: Config, m: Memory, s: Step, k: Key)
    requires WithinCaps(c, AdmittedKeys(m))
    requires k in AdmittedKeys(Apply(c, m, s)) && k !in AdmittedKeys(m)
    ensures s.Select? && k in m.pairs && CoreConnected(c, k) && |DexesOf(m.pairs[k])| >= c.minDexes
  {
    if s.Select? && s.now >= m.clock && Ranked(s.order, Candidates(c, m, s.now, s.f), s.f) {
      SelectAdmitsSelected(c, m, s.now, s.f, s.order);
      SelectedFacts(c, m, s.now, s.f, s.order);
    }
  }

  // ---------------------------------------------------------------- what a window decides, written out

  /** What a pair has to meet when it is assessed as `a`: every threshold, and no more drift than allowed among its
      latest scores, this one included, of which there are three or four. */
  ghost predicate Meets(c: Config, k: Key, p: Pair, a: Assessment, now: int) {
    && (p.status == Cooled ==> now >= p.cooldownUntil)
    && now - p.firstObserved >= c.minObservation
    && a.score >= c.minScore && a.confidence >= c.minConfidence
    && a.quoteSuccess >= c.minQuote && a.depth >= c.minDepth
    && a.failure <= c.maxFailure && a.illiquidity <= c.maxIlliquidity
    && (k.token0 in c.core || k.token1 in c.core)
    && |set v | v in p.venues :: p.venues[v]| >= c.minDexes
    && |p.recent| >= 2 && LowDrift(p.recent + [a.score], c.maxDrift)
  }

  ghost predicate LowDrift(scores: seq<int>, maxDrift: int) {
    forall i, j :: 0 <= i < |scores| && 0 <= j < |scores| && |scores| - 4 <= i && |scores| - 4 <= j ==>
      scores[i] - scores[j] <= maxDrift
  }

  lemma DriftOfLastFour(scores: seq<int>, maxDrift: int)
    ensures LowDrift(scores, maxDrift) <==> LowDrift(LastFour(scores), maxDrift)
    ensures LowDrift(LastFour(scores), maxDrift) && |scores| >= 3 <==> Steady(LastFour(scores), maxDrift)
  {
    var last := LastFour(scores);
    var d := |scores| - |last|;
    assert forall i :: 0 <= i < |last| ==> last[i] == scores[i + d];
    if LowDrift(last, maxDrift) {
      forall i, j | d <= i < |scores| && d <= j < |scores| ensures scores[i] - scores[j] <= maxDrift {
        assert last[i - d] - last[j - d] <= maxDrift;
      }
    }
  }

  lemma QualifiedIffMeets(c: Config, k: Key, p: Pair, a: Assessment, now: int)
    ensures Qualified(c, k, Scored(p, a), now) <==> Meets(c, k, p, a, now)
  {
    DriftOfLastFour(p.recent + [a.score], c.maxDrift);
  }

  /** The step is a selection window. */
  ghost predicate Window(c: Config, m: Memory, s: Step) {
    s.Select? && s.now >= m.clock && Ranked(s.order, Candidates(c, m, s.now, s.f), s.f)
  }

  /** The order of a window: exactly the tracked pairs that meet everything, once each, higher scores first and equal
      ones by their tokens. */
  lemma WindowOrder(c: Config, m: Memory, s: Step)
    requires Window(c, m, s)
    ensures forall k :: k in s.order <==> k in m.pairs && Meets(c, k, m.pairs[k], s.f(k), s.now)
    ensures forall i, j :: 0 <= i < j < |s.order| ==>
      var x, y := s.order[i], s.order[j];
      && x != y && s.f(x).score >= s.f(y).score
      && (s.f(x).score == s.f(y).score ==> x.token0 < y.token0 || (x.token0 == y.token0 && x.token1 < y.token1))
  {
    forall k | k in m.pairs ensures k in s.order <==> Meets(c, k, m.pairs[k], s.f(k), s.now) {
      QualifiedIffMeets(c, k, m.pairs[k], s.f(k), s.now);
    }
  }

  /** Only a selection admits, and only a pair that meets every threshold. */
  lemma AdmissionMeetsThresholds(c: Config, m: Memory, s: Step, k: Key)
    requires WithinCaps(c, AdmittedKeys(m))
    requires k in AdmittedKeys(Apply(c, m, s)) && k !in AdmittedKeys(m)
    ensures s.Select? && k in m.pairs && Meets(c, k, m.pairs[k], s.f(k), s.now)
  {
    if Window(c, m, s) {
      SelectAdmitsSelected(c, m, s.now, s.f, s.order);
      SelectedFacts(c, m, s.now, s.f, s.order);
      QualifiedIffMeets(c, k, m.pairs[k], s.f(k), s.now);
    }
  }

  /** The pairs a window keeps whatever the others do: admitted, failing now, and still within their grace. */
  ghost function Kept(c: Config, m: Memory, s: Step): set<Key>
    requires s.Select?
  {
    set k | k in m.pairs && m.pairs[k].status == Admitted && !Meets(c, k, m.pairs[k], s.f(k), s.now)
            && m.pairs[k].below + 1 < c.ejectWindows
  }

  lemma KeptArePreserved(c: Config, m: Memory, s: Step)
    requires s.Select?
    ensures Kept(c, m, s) == Preserved(c, m, s.now, s.f)
  {
    forall k | k in m.pairs ensures k in Kept(c, m, s) <==> k in Preserved(c, m, s.now, s.f) {
      QualifiedIffMeets(c, k, m.pairs[k], s.f(k), s.now);
    }
  }

  /** What one window makes of one pair, field by field. */
  ghost predicate AfterWindow(c: Config, k: Key, p: Pair, a: Assessment, now: int, p': Pair) {
    && p'.venues == p.venues && p'.firstObserved == p.firstObserved && p'.assessment == a
    && p'.recent == LastFour(p.recent + [a.score])
    && (if Meets(c, k, p, a, now) then
          && p'.below == 0 && p'.cooldownUntil == p.cooldownUntil
          && (p'.status == Admitted || p'.status == if p.status == Admitted then Observed else p.status)
        else if p.status != Admitted then
          p'.below == p.below && p'.cooldownUntil == p.cooldownUntil && p'.status == p.status
        else
          && p'.below == p.below + 1
          && (p.below + 1 < c.ejectWindows ==> p'.status == Admitted && p'.cooldownUntil == p.cooldownUntil)
          && (p.below + 1 >= c.ejectWindows ==> p'.status == Cooled && p'.cooldownUntil == now + c.cooldown))
  }

  lemma SettledIsAfterWindow(c: Config, k: Key, p: Pair, a: Assessment, now: int, chosen: bool)
    requires InGrace(c, k, p, a, now) ==> chosen
    requires chosen ==> InGrace(c, k, p, a, now) || Qualified(c, k, Scored(p, a), now)
    ensures AfterWindow(c, k, p, a, now, Settled(Judged(c, k, p, a, now), chosen))
  {
    QualifiedIffMeets(c, k, p, a, now);
  }

  /** A window judges every pair by what it meets, and changes nothing else. */
  lemma WindowExact(c: Config, m: Memory, s: Step, k: Key)
    requires WithinCaps(c, AdmittedKeys(m)) && Window(c, m, s) && k in m.pairs
    ensures var m' := Apply(c, m, s);
            && m'.clock == s.now && m'.poolPairs == m.poolPairs && m'.pairs.Keys == m.pairs.Keys
            && AfterWindow(c, k, m.pairs[k], s.f(k), s.now, m'.pairs[k])
  {
    SelectedFacts(c, m, s.now, s.f, s.order);
    var chosen := Selected(c, m, s.now, s.f, s.order);
    SettledIsAfterWindow(c, k, m.pairs[k], s.f(k), s.now, k in chosen);
    assert Apply(c, m, s) == AfterSelect(c, m, s.now, s.f, s.order);
  }

  /** The latest scores are the last four. */
  lemma LastFourAre(scores: seq<int>)
    ensures |LastFour(scores)| == (if |scores| < 4 then |scores| else 4)
    ensures forall i :: 0 <= i < |LastFour(scores)| ==>
      LastFour(scores)[i] == scores[|scores| - |LastFour(scores)| + i]
  { }

  // The greedy pass, candidate by candidate.

  ghost function Taken(c: Config, order: seq<Key>, i: nat, kept: set<Key>): set<Key>
    requires i <= |order|
  {
    if i == 0 then kept
    else
      var before := Taken(c, order, i - 1, kept);
      if |before| >= c.maxLivePairs then before else Joined(c, order[i - 1], before)
  }

  lemma TakeOne(c: Config, order: seq<Key>, i: nat, kept: set<Key>)
    requires i < |order|
    ensures var t := Taken(c, order, i, kept);
            Choose(c, order, i, t) == if |t| >= c.maxLivePairs then t
                else Choose(c, order, i + 1, Taken(c, order, i + 1, kept))
  { }

  lemma {:induction false} ChooseIsTaken(c: Config, order: seq<Key>, i: nat, kept: set<Key>)
    requires i <= |order|
    ensures Choose(c, order, i, Taken(c, order, i, kept)) == Taken(c, order, |order|, kept)
    decreases |order| - i
  {
    if i < |order| {
      TakeOne(c, order, i, kept);
      if |Taken(c, order, i, kept)| >= c.maxLivePairs {
        FullStays(c, order, i, |order|, kept);
      } else {
        ChooseIsTaken(c, order, i + 1, kept);
      }
    }
  }

  lemma {:induction false} FullStays(c: Config, order: seq<Key>, i: nat, n: nat, kept: set<Key>)
    requires i <= n <= |order| && |Taken(c, order, i, kept)| >= c.maxLivePairs
    ensures Taken(c, order, n, kept) == Taken(c, order, i, kept)
  {
    if i < n { FullStays(c, order, i, n - 1, kept); }
  }

  /** Of the first n candidates t holds those in it, besides what was kept, and none of the later ones. */
  ghost predicate SoFar(order: seq<Key>, n: nat, kept: set<Key>, t: set<Key>)
    requires n <= |order|
  {
    && kept <= t && (forall x :: x in t ==> x in kept || x in order[..n])
    && forall j :: n <= j < |order| ==> order[j] !in t
  }

  lemma TakenStep(c: Config, order: seq<Key>, n: nat, kept: set<Key>)
    requires 0 < n <= |order|
    ensures var before, now := Taken(c, order, n - 1, kept), Taken(c, order, n, kept);
            now == before || now == before + {order[n - 1]}
  { }

  lemma {:induction false} TakenSoFar(c: Config, order: seq<Key>, n: nat, kept: set<Key>)
    requires n <= |order| && (forall i, j :: 0 <= i < j < |order| ==> order[i] != order[j])
    requires forall i :: 0 <= i < |order| ==> order[i] !in kept
    ensures SoFar(order, n, kept, Taken(c, order, n, kept))
  {
    if n > 0 {
      TakenSoFar(c, order, n - 1, kept);
      TakenStep(c, order, n, kept);
      NextTaken(order, n, kept, Taken(c, order, n - 1, kept), Taken(c, order, n, kept));
    }
  }

  lemma NextTaken(order: seq<Key>, n: nat, kept: set<Key>, before: set<Key>, now: set<Key>)
    requires 0 < n <= |order| && (forall i, j :: 0 <= i < j < |order| ==> order[i] != order[j])
    requires SoFar(order, n - 1, kept, before) && (now == before || now == before + {order[n - 1]})
    ensures SoFar(order, n, kept, now)
  {
    assert order[..n] == order[..n - 1] + [order[n - 1]];
  }

  lemma {:induction false} TakenStays(c: Config, order: seq<Key>, i: nat, n: nat, kept: set<Key>)
    requires i < n <= |order| && (forall x, y :: 0 <= x < y < |order| ==> order[x] != order[y])
    ensures order[i] in Taken(c, order, n, kept) <==> order[i] in Taken(c, order, i + 1, kept)
  {
    if i + 1 < n { TakenStays(c, order, i, n - 1, kept); }
  }

  lemma TakenExact(c: Config, order: seq<Key>, i: nat, kept: set<Key>, live: set<Key>)
    requires i < |order| && forall x, y :: 0 <= x < y < |order| ==> order[x] != order[y]
    requires forall x :: 0 <= x < |order| ==> order[x] !in kept
    requires live == kept + set j | 0 <= j < i && order[j] in Taken(c, order, |order|, kept) :: order[j]
    ensures order[i] in Taken(c, order, |order|, kept) <==>
              |live| < c.maxLivePairs && |DynamicTokens(c, live + {order[i]})| <= c.maxLiveDynamic
  {
    TakenSoFar(c, order, i, kept);
    forall j | 0 <= j < i ensures order[j] in Taken(c, order, |order|, kept) <==> order[j] in Taken(c, order, i, kept) {
      TakenStays(c, order, j, |order|, kept);
      TakenStays(c, order, j, i, kept);
    }
    forall x | x in Taken(c, order, i, kept) && x !in kept ensures x in live {
      var j :| 0 <= j < i && order[..i][j] == x;
    }
    assert live == Taken(c, order, i, kept);
    TakenStays(c, order, i, |order|, kept);
  }

  /** Who is live when candidate i has its turn: the pairs kept and the better candidates that were admitted. */
  ghost function LiveAt(c: Config, m: Memory, s: Step, i: nat): set<Key>
    requires s.Select? && i <= |s.order|
  {
    Kept(c, m, s) + set j | 0 <= j < i && s.order[j] in AdmittedKeys(Apply(c, m, s)) :: s.order[j]
  }

  lemma AdmittedIsTaken(c: Config, m: Memory, s: Step)
    requires WithinCaps(c, AdmittedKeys(m)) && Window(c, m, s)
    ensures AdmittedKeys(Apply(c, m, s)) == Taken(c, s.order, |s.order|, Preserved(c, m, s.now, s.f))
  {
    SelectAdmitsSelected(c, m, s.now, s.f, s.order);
    ChooseIsTaken(c, s.order, 0, Preserved(c, m, s.now, s.f));
  }

  /** The greedy choice, exactly: a candidate is admitted iff, with the pairs kept and the better candidates already
      admitted, there is room for one more pair and its tokens still fit the asset cap. */
  lemma GreedyExact(c: Config, m: Memory, s: Step, i: nat)
    requires WithinCaps(c, AdmittedKeys(m)) && Window(c, m, s) && i < |s.order|
    ensures var live, k := LiveAt(c, m, s, i), s.order[i];
            k in AdmittedKeys(Apply(c, m, s)) <==>
              |live| < c.maxLivePairs && |DynamicTokens(c, live + {k})| <= c.maxLiveDynamic
  {
    var kept := Preserved(c, m, s.now, s.f);
    KeptArePreserved(c, m, s);
    AdmittedIsTaken(c, m, s);
    NotKept(c, m, s);
    TakenExact(c, s.order, i, kept, LiveAt(c, m, s, i));
  }

  lemma NotKept(c: Config, m: Memory, s: Step)
    requires Window(c, m, s)
    ensures forall x :: 0 <= x < |s.order| ==> s.order[x] !in Preserved(c, m, s.now, s.f)
    ensures forall x, y :: 0 <= x < y < |s.order| ==> s.order[x] != s.order[y]
  {
    forall x | 0 <= x < |s.order| ensures s.order[x] !in Preserved(c, m, s.now, s.f) {
      assert s.order[x] in s.order && s.order[x] in Candidates(c, m, s.now, s.f);
    }
  }

  /** In particular the first candidate gets in whenever the admitted pairs leave room for it. */
  lemma FirstIsAdmitted(c: Config, m: Memory, s: Step)
    requires WithinCaps(c, AdmittedKeys(m)) && Window(c, m, s) && s.order != []
    requires |AdmittedKeys(m) - {s.order[0]}| < c.maxLivePairs
    requires |DynamicTokens(c, AdmittedKeys(m) + {s.order[0]})| <= c.maxLiveDynamic
    ensures s.order[0] in AdmittedKeys(Apply(c, m, s))
  {
    var k, live := s.order[0], LiveAt(c, m, s, 0);
    GreedyExact(c, m, s, 0);
    WindowOrder(c, m, s);
    assert k in s.order;
    assert live <= AdmittedKeys(m) - {k};
    SubsetSize(live, AdmittedKeys(m) - {k});
    SubsetSize(DynamicTokens(c, live + {k}), DynamicTokens(c, AdmittedKeys(m) + {k}));
  }

  /** The tokens the asset cap counts. */
  lemma DynamicTokensAre(c: Config, ks: set<Key>)
    ensures forall t :: t in DynamicTokens(c, ks) <==>
        t !in c.core && exists k :: k in ks && (t == k.token0 || t == k.token1)
  {
    forall t | t !in c.core && exists k :: k in ks && (t == k.token0 || t == k.token1)
        ensures t in DynamicTokens(c, ks) {
      var k :| k in ks && (t == k.token0 || t == k.token1);
      assert t in DynamicOf(c, k);
    }
  }

  /** A pair after one of its pools is seen: the pool is a venue, the assessment new, the rest of its history kept or
      started. */
  ghost predicate AfterSeen(m: Memory, s: Step, home: Key, p': Pair)
    requires s.Observe?
  {
    if home in m.pairs
    then p' == m.pairs[home].(venues := m.pairs[home].venues[s.pool := s.dex], assessment := s.a)
    else p' == Pair(map[s.pool := s.dex], s.now, Observed, 0, s.a, [], 0)
  }

  lemma SeenExact(c: Config, m: Memory, s: Step)
    requires s.Observe?
    ensures var home, m' := c.home(s.pool), Seen(c, m, s.now, s.pool, s.dex, s.a);
            && m'.clock == s.now && m'.pairs.Keys == m.pairs.Keys + {home} && AfterSeen(m, s, home, m'.pairs[home])
            && forall k :: k in m.pairs && k != home ==> m'.pairs[k] == m.pairs[k]
  { }

  /** What an observation does: its pair as above, the others as they were, and those evicted gone. */
  lemma ObserveExact(c: Config, m: Memory, s: Step)
    requires s.Observe? && s.now >= m.clock && Evictable(c, Seen(c, m, s.now, s.pool, s.dex, s.a), s.gone)
    ensures var home, m' := c.home(s.pool), Apply(c, m, s);
            && m'.clock == s.now && m'.pairs.Keys == m.pairs.Keys + {home} - s.gone
            && (forall k :: k in m'.pairs && k != home ==> m'.pairs[k] == m.pairs[k])
            && (home in m'.pairs ==> AfterSeen(m, s, home, m'.pairs[home]))
  {
    SeenExact(c, m, s);
    var seen := Seen(c, m, s.now, s.pool, s.dex, s.a);
    assert Apply(c, m, s) == Evicted(seen, s.gone);
  }

  /** Who goes when the memory is full: no more than needed; a pair that is kept never ranks below one that goes, in
      the order cooled, observed, shadow, admitted, and by score within one state. */
  lemma EvictsLowestFirst(c: Config, m: Memory, gone: set<Key>, x: Key, y: Key)
    requires Evictable(c, m, gone) && x in gone && y in m.pairs && y !in gone
    ensures |m.pairs| > c.maxTracked && |m.pairs.Keys - gone| == c.maxTracked
    ensures m.pairs[y].status == Cooled ==> m.pairs[x].status == Cooled
    ensures m.pairs[y].status == Observed ==> m.pairs[x].status in {Cooled, Observed}
    ensures m.pairs[x].status == Admitted ==> m.pairs[y].status == Admitted
    ensures m.pairs[x].status == m.pairs[y].status ==> m.pairs[x].assessment.score <= m.pairs[y].assessment.score
  {
    assert Lower(m.pairs[x], m.pairs[y]);
    assert |m.pairs.Keys - gone| == |m.pairs| - |gone|;
  }

  /** What a depth probe does: the pool's pair takes the assessment, and is cooled from now on if an average crossed
      its bound. */
  lemma ProbeExact(c: Config, m: Memory, s: Step, k: Key)
    requires s.Depth? && s.now >= m.clock && PairByPool(m, s.pool) == Some(k)
    ensures var m' := Apply(c, m, s);
            && m'.clock == s.now && m'.poolPairs == m.poolPairs && m'.pairs.Keys == m.pairs.Keys
            && (forall x :: x in m.pairs && x != k ==> m'.pairs[x] == m.pairs[x])
            && (!s.trip ==> m'.pairs[k] == m.pairs[k].(assessment := s.a))
            && (s.trip ==>
                 m'.pairs[k] == m.pairs[k].(assessment := s.a, status := Cooled, cooldownUntil := s.now + c.cooldown))
  { }

  // ---------------------------------------------------------------- hysteresis

  /** A selection never displaces a pair in its grace windows. */
  lemma GraceIsNeverDisplaced(c: Config, m: Memory, s: Step, k: Key)
    requires WithinCaps(c, AdmittedKeys(m)) && s.Select?
    requires k in m.pairs && InGrace(c, k, m.pairs[k], s.f(k), s.now)
    ensures k in AdmittedKeys(Apply(c, m, s))
  {
    if s.now >= m.clock && Ranked(s.order, Candidates(c, m, s.now, s.f), s.f) {
      SelectAdmitsSelected(c, m, s.now, s.f, s.order);
      SelectedFacts(c, m, s.now, s.f, s.order);
    }
  }

  /** The step is a window in which the pair fails. */
  ghost predicate FailingWindow(c: Config, m: Memory, s: Step, k: Key) {
    && s.Select? && s.now >= m.clock && Ranked(s.order, Candidates(c, m, s.now, s.f), s.f)
    && k in m.pairs && !Qualified(c, k, Scored(m.pairs[k], s.f(k)), s.now)
  }

  /** The step neither is a window for the pair nor cools or evicts it. */
  ghost predicate Harmless(c: Config, m: Memory, s: Step, k: Key) {
    && !s.Select?
    && (s.Depth? && s.trip && s.now >= m.clock ==> PairByPool(m, s.pool) != Some(k))
    && (s.Observe? ==> k !in s.gone)
  }

  /** From m, the run contains `windows` failing windows of k and otherwise only harmless steps. */
  ghost predicate FailsInARow(c: Config, m: Memory, steps: seq<Step>, k: Key, windows: nat) {
    if steps == [] then windows == 0
    else
      var before := steps[..|steps| - 1];
      var mid, last := Exec(c, m, before), steps[|steps| - 1];
      (windows > 0 && FailingWindow(c, mid, last, k) && FailsInARow(c, m, before, k, windows - 1))
      || (Harmless(c, mid, last, k) && FailsInARow(c, m, before, k, windows))
  }

  lemma HarmlessKeepsPair(c: Config, m: Memory, s: Step, k: Key)
    requires k in m.pairs && m.pairs[k].status == Admitted && Harmless(c, m, s, k)
    ensures var m' := Apply(c, m, s);
            k in m'.pairs && m'.pairs[k].status == Admitted && m'.pairs[k].below == m.pairs[k].below
  { }

  lemma WindowCounts(c: Config, m: Memory, s: Step, k: Key)
    requires WithinCaps(c, AdmittedKeys(m)) && k in m.pairs && m.pairs[k].status == Admitted
        && FailingWindow(c, m, s, k)
    ensures var m' := Apply(c, m, s);
            && k in m'.pairs && m'.pairs[k].below == m.pairs[k].below + 1
            && (m.pairs[k].below + 1 < c.ejectWindows ==> m'.pairs[k].status == Admitted)
            && (m.pairs[k].below + 1 >= c.ejectWindows ==>
                  m'.pairs[k].status == Cooled && m'.pairs[k].cooldownUntil == s.now + c.cooldown)
  {
    FailureKeptOrCooled(c, m, s.now, s.f, s.order, k);
  }

  /** A window in which an admitted pair fails leaves it as judged: in the live set while in grace, else out. */
  lemma FailureKeptOrCooled(c: Config, m: Memory, now: int, f: Key -> Assessment, order: seq<Key>, k: Key)
    requires WithinCaps(c, AdmittedKeys(m)) && Ranked(order, Candidates(c, m, now, f), f)
    requires k in m.pairs && m.pairs[k].status == Admitted && !Qualified(c, k, Scored(m.pairs[k], f(k)), now)
    ensures AfterSelect(c, m, now, f, order).pairs[k] == Judged(c, k, m.pairs[k], f(k), now)
  {
    SelectedFacts(c, m, now, f, order);
    assert k !in Candidates(c, m, now, f);
    assert k in Preserved(c, m, now, f) <==> m.pairs[k].below + 1 < c.ejectWindows;
  }

  /** Failing n windows in a row is counted. */
  lemma {:induction false} FailuresCounted(c: Config, m: Memory, steps: seq<Step>, k: Key, n: nat)
    requires c.Normal() && WithinCaps(c, AdmittedKeys(m))
    requires k in m.pairs && m.pairs[k].status == Admitted && m.pairs[k].below == 0
    requires FailsInARow(c, m, steps, k, n) && n < c.ejectWindows
    ensures var t := Exec(c, m, steps); k in t.pairs && t.pairs[k].status == Admitted && t.pairs[k].below == n
  {
    if steps != [] {
      var before, last := steps[..|steps| - 1], steps[|steps| - 1];
      var mid := Exec(c, m, before);
      CapsHold(c, m, before);
      if n > 0 && FailingWindow(c, mid, last, k) && FailsInARow(c, m, before, k, n - 1) {
        FailuresCounted(c, m, before, k, n - 1);
        WindowCounts(c, mid, last, k);
      } else {
        FailuresCounted(c, m, before, k, n);
        HarmlessKeepsPair(c, mid, last, k);
      }
    }
  }

  /** A freshly qualified admitted pair that fails n windows in a row is still admitted while n is below
      ejectWindows, and is cooled in exactly the window that makes it ejectWindows. */
  lemma {:induction false} EjectedExactlyThen(c: Config, m: Memory, steps: seq<Step>, k: Key, n: nat)
    requires c.Normal() && WithinCaps(c, AdmittedKeys(m))
    requires k in m.pairs && m.pairs[k].status == Admitted && m.pairs[k].below == 0
    requires FailsInARow(c, m, steps, k, n) && n < c.ejectWindows
    ensures var t := Exec(c, m, steps);
            && k in t.pairs && t.pairs[k].status == Admitted && t.pairs[k].below == n
            && forall s :: FailingWindow(c, t, s, k) ==>
                 && k in Apply(c, t, s).pairs
                 && (Apply(c, t, s).pairs[k].status == Cooled <==> n + 1 == c.ejectWindows)
  {
    var t := Exec(c, m, steps);
    FailuresCounted(c, m, steps, k, n);
    CapsHold(c, m, steps);
    forall s | FailingWindow(c, t, s, k)
      ensures k in Apply(c, t, s).pairs && (Apply(c, t, s).pairs[k].status == Cooled <==> n + 1 == c.ejectWindows)
    {
      WindowCounts(c, t, s, k);
    }
  }

  // ---------------------------------------------------------------- cooldown

  /** Cooled at `since`, and cooled still while the cooldown lasts. */
  ghost predicate Waits(c: Config, m: Memory, k: Key, since: int) {
    && m.clock >= since && k in m.pairs
    && (m.clock < since + c.cooldown ==> m.pairs[k].status == Cooled && m.pairs[k].cooldownUntil >= since + c.cooldown)
  }

  ghost predicate Evicts(s: Step, k: Key) { s.Observe? && k in s.gone }

  lemma ApplyKeepsWaiting(c: Config, m: Memory, s: Step, k: Key, since: int)
    requires WithinCaps(c, AdmittedKeys(m)) && Waits(c, m, k, since) && !Evicts(s, k)
    ensures Waits(c, Apply(c, m, s), k, since)
  {
    if s.Select? { SelectKeepsWaiting(c, m, s, k, since); }
  }

  /** A window passes an unqualified pair by, unless it is admitted. */
  lemma PassedBy(c: Config, m: Memory, now: int, f: Key -> Assessment, order: seq<Key>, k: Key)
    requires WithinCaps(c, AdmittedKeys(m)) && Ranked(order, Candidates(c, m, now, f), f)
    requires k in m.pairs && m.pairs[k].status != Admitted && !Qualified(c, k, Scored(m.pairs[k], f(k)), now)
    ensures AfterSelect(c, m, now, f, order).pairs[k] == Scored(m.pairs[k], f(k))
  {
    SelectedFacts(c, m, now, f, order);
    assert k !in Candidates(c, m, now, f) && k !in Preserved(c, m, now, f);
  }

  lemma SelectKeepsWaiting(c: Config, m: Memory, s: Step, k: Key, since: int)
    requires WithinCaps(c, AdmittedKeys(m)) && Waits(c, m, k, since) && s.Select?
    ensures Waits(c, Apply(c, m, s), k, since)
  {
    if s.now >= m.clock && Ranked(s.order, Candidates(c, m, s.now, s.f), s.f) && s.now < since + c.cooldown {
      PassedBy(c, m, s.now, s.f, s.order, k);
    }
  }

  /** Cooldown, whatever the configuration: over every run that does not evict it, a pair cooled at `since` is
      kept and stays cooled until its cooldown ends. */
  lemma {:induction false} CooledUntilDue(c: Config, m: Memory, steps: seq<Step>, k: Key, since: int)
    requires WithinCaps(c, AdmittedKeys(m)) && Waits(c, m, k, since)
    requires forall i :: 0 <= i < |steps| ==> !Evicts(steps[i], k)
    ensures Waits(c, Exec(c, m, steps), k, since)
  {
    if steps != [] {
      var before := steps[..|steps| - 1];
      assert forall i :: 0 <= i < |before| ==> before[i] == steps[i];
      CooledUntilDue(c, m, before, k, since);
      CapsHold(c, m, before);
      ApplyKeepsWaiting(c, Exec(c, m, before), steps[|steps| - 1], k, since);
    }
  }

  /** Cooled at `since` and not yet due, or forgotten and observed anew after that. */
  ghost predicate StillCooling(c: Config, m: Memory, k: Key, since: int) {
    m.clock >= since && (m.clock < since + c.cooldown && k in m.pairs ==>
      && m.pairs[k].status != Admitted
      && ((m.pairs[k].status == Cooled && m.pairs[k].cooldownUntil >= since + c.cooldown)
          || m.pairs[k].firstObserved >= since))
  }

  lemma ApplyKeepsCooling(c: Config, m: Memory, s: Step, k: Key, since: int)
    requires c.minObservation >= c.cooldown && WithinCaps(c, AdmittedKeys(m)) && StillCooling(c, m, k, since)
    ensures StillCooling(c, Apply(c, m, s), k, since)
  {
    if s.Select? { SelectKeepsCooling(c, m, s, k, since); }
  }

  lemma SelectKeepsCooling(c: Config, m: Memory, s: Step, k: Key, since: int)
    requires s.Select? && c.minObservation >= c.cooldown && WithinCaps(c, AdmittedKeys(m))
        && StillCooling(c, m, k, since)
    ensures StillCooling(c, Apply(c, m, s), k, since)
  {
    if s.now >= m.clock && Ranked(s.order, Candidates(c, m, s.now, s.f), s.f) && s.now < since + c.cooldown
        && k in m.pairs {
      PassedBy(c, m, s.now, s.f, s.order, k);
    }
  }

  /** Cooldown: with minObservation at least cooldown (the defaults are equal), a pair cooled at `since` is not
      admitted before its cooldown ends, over every run, even if it is evicted and observed anew. */
  lemma {:induction false} NotReadmittedEarly(c: Config, m: Memory, steps: seq<Step>, k: Key, since: int)
    requires c.minObservation >= c.cooldown && WithinCaps(c, AdmittedKeys(m))
    requires m.clock == since && k in m.pairs && m.pairs[k].status == Cooled
        && m.pairs[k].cooldownUntil >= since + c.cooldown
    ensures StillCooling(c, Exec(c, m, steps), k, since)
  {
    if steps != [] {
      NotReadmittedEarly(c, m, steps[..|steps| - 1], k, since);
      CapsHold(c, m, steps[..|steps| - 1]);
      ApplyKeepsCooling(c, Exec(c, m, steps[..|steps| - 1]), steps[|steps| - 1], k, since);
    }
  }

  // A run that forgets a cooldown: observe k, cool it, observe so many other pairs that it is evicted, observe
  // it anew, and select three times.

  const EMPTY: Memory := Memory(map[], map[], 0)

  /** What the run needs: enough pools of k, and enough other pairs to fill the memory. */
  ghost predicate Crowded(c: Config, k: Key, pools: seq<PoolId>, others: seq<PoolId>) {
    && |pools| == c.minDexes && (forall i :: 0 <= i < |pools| ==> c.home(pools[i]) == k)
    && (forall i, j :: 0 <= i < j < |pools| ==> pools[i] != pools[j])
    && |others| == c.maxTracked && Apart(c, k, others)
  }

  ghost predicate Leads(c: Config, steps: seq<Step>, m: Memory) { Exec(c, EMPTY, steps) == m }

  lemma Then(c: Config, steps: seq<Step>, m: Memory, s: Step, m': Memory)
    requires Leads(c, steps, m) && m' == Apply(c, m, s)
    ensures Leads(c, steps + [s], m')
  {
    assert (steps + [s])[..|steps|] == steps;
  }

  lemma NothingEvicted(c: Config, m: Memory)
    requires |m.pairs| <= c.maxTracked
    ensures Evictable(c, m, {}) && Evicted(m, {}) == m
  { }

  /** k was cooled just now. */
  ghost predicate CooledNow(c: Config, m: Memory, k: Key) {
    k in m.pairs && m.pairs[k].status == Cooled && m.pairs[k].cooldownUntil == m.clock + c.cooldown
  }

  ghost function VenuesTo(pools: seq<PoolId>, n: nat): map<PoolId, Dex>
    requires n <= |pools|
  {
    if n == 0 then map[] else VenuesTo(pools, n - 1)[pools[n - 1] := n - 1]
  }

  /** A pair first observed at time 0, on its first n pools. */
  ghost function Fresh(pools: seq<PoolId>, n: nat, a: Assessment): Pair
    requires n <= |pools|
  {
    Pair(VenuesTo(pools, n), 0, Observed, 0, a, [], 0)
  }

  lemma {:induction false} VenuesAre(pools: seq<PoolId>, n: nat)
    requires n <= |pools| && forall i, j :: 0 <= i < j < |pools| ==> pools[i] != pools[j]
    ensures forall i :: 0 <= i < n ==> pools[i] in VenuesTo(pools, n) && VenuesTo(pools, n)[pools[i]] == i
    ensures forall v :: v in VenuesTo(pools, n) ==> exists i :: 0 <= i < n && pools[i] == v
  {
    if n > 0 { VenuesAre(pools, n - 1); }
  }

  lemma {:induction false} FirstNumbers(s: set<nat>, n: nat)
    requires forall d: nat :: d in s <==> d < n
    ensures |s| == n
  {
    if n > 0 {
      FirstNumbers(s - {n - 1}, n - 1);
    } else {
      assert s == {};
    }
  }

  /** Every pool of its own venue: n pools are n venues. */
  lemma FreshDexes(pools: seq<PoolId>, p: Pair)
    requires p.venues == VenuesTo(pools, |pools|) && forall i, j :: 0 <= i < j < |pools| ==> pools[i] != pools[j]
    ensures |DexesOf(p)| == |pools|
  {
    VenuesAre(pools, |pools|);
    forall d: nat ensures d in DexesOf(p) <==> d < |pools| {
      if d < |pools| { assert p.venues[pools[d]] == d; }
    }
    FirstNumbers(DexesOf(p), |pools|);
  }

  /** Any other pair of the run: observed on one venue. */
  ghost predicate Bystander(p: Pair, a: Assessment) {
    p.status == Observed && p.assessment == a && exists o :: p.venues == map[o := 0]
  }

  lemma BystanderUnqualified(c: Config, k: Key, p: Pair, a: Assessment, now: int)
    requires c.Normal() && Bystander(p, a)
    ensures !Qualified(c, k, Scored(p, a), now) && Bystander(Settled(Judged(c, k, p, a, now), false), a)
  {
    var o :| p.venues == map[o := 0];
    assert p.venues[o] == 0;
    assert DexesOf(Scored(p, a)) == {0};
  }

  /** At time 0, n pairs are tracked and all but k are bystanders. */
  ghost predicate Crowd(m: Memory, k: Key, a: Assessment, n: nat) {
    m.clock == 0 && |m.pairs| == n && forall x :: x in m.pairs && x != k ==> Bystander(m.pairs[x], a)
  }

  /** Observing one more pool of k adds it as a venue and evicts nobody. */
  lemma ObserveOne(c: Config, k: Key, pools: seq<PoolId>, a: Assessment, past: seq<Step>, m: Memory, i: nat)
    returns (m': Memory)
    requires Leads(c, past, m) && m.clock == 0 && |m.pairs| <= c.maxTracked && i < |pools| && c.home(pools[i]) == k
    requires k in m.pairs && m.pairs[k] == Fresh(pools, i, a)
    ensures Leads(c, past + [Observe(0, pools[i], i, a, {})], m') && m'.clock == 0
    ensures m'.pairs == m.pairs[k := Fresh(pools, i + 1, a)] && |m'.pairs| == |m.pairs|
  {
    m' := Seen(c, m, 0, pools[i], i, a);
    assert m'.pairs == m.pairs[k := Fresh(pools, i + 1, a)];
    assert m'.pairs.Keys == m.pairs.Keys;
    assert |m'.pairs.Keys| == |m.pairs.Keys|;
    NothingEvicted(c, m');
    Then(c, past, m, Observe(0, pools[i], i, a, {}), m');
  }

  /** Observe the remaining pools of k. */
  lemma {:induction false} ObserveRest(c: Config, k: Key, pools: seq<PoolId>, a: Assessment, past: seq<Step>, m: Memory,
                                       i: nat)
    returns (steps: seq<Step>, m': Memory)
    requires Leads(c, past, m) && m.clock == 0 && |m.pairs| <= c.maxTracked
    requires i <= |pools| && forall j :: 0 <= j < |pools| ==> c.home(pools[j]) == k
    requires k in m.pairs && m.pairs[k] == Fresh(pools, i, a)
    ensures past <= steps && Leads(c, steps, m') && m'.clock == 0
    ensures m'.pairs == m.pairs[k := Fresh(pools, |pools|, a)] && |m'.pairs| == |m.pairs|
    decreases |pools| - i
  {
    if i == |pools| {
      assert m.pairs[k := Fresh(pools, i, a)] == m.pairs;
      return past, m;
    }
    var next := ObserveOne(c, k, pools, a, past, m, i);
    assert next.pairs[k := Fresh(pools, |pools|, a)] == m.pairs[k := Fresh(pools, |pools|, a)];
    steps, m' := ObserveRest(c, k, pools, a, past + [Observe(0, pools[i], i, a, {})], next, i + 1);
  }

  lemma ObserveFirst(c: Config, k: Key, pools: seq<PoolId>, a: Assessment) returns (m: Memory)
    requires c.Normal() && |pools| > 0 && c.home(pools[0]) == k
    ensures Leads(c, [Observe(0, pools[0], 0, a, {})], m) && m.clock == 0 && m.pairs == map[k := Fresh(pools, 1, a)]
  {
    m := Seen(c, EMPTY, 0, pools[0], 0, a);
    assert VenuesTo(pools, 1) == map[][pools[0] := 0];
    assert m.pairs == map[k := Fresh(pools, 1, a)];
    NothingEvicted(c, m);
    Then(c, [], EMPTY, Observe(0, pools[0], 0, a, {}), m);
    assert [] + [Observe(0, pools[0], 0, a, {})] == [Observe(0, pools[0], 0, a, {})];
  }

  lemma CoolIt(c: Config, k: Key, pool: PoolId, a: Assessment, past: seq<Step>, m: Memory) returns (m': Memory)
    requires Leads(c, past, m) && m.clock == 0 && k in m.pairs && pool in m.pairs[k].venues && c.home(pool) == k
    ensures Leads(c, past + [Depth(0, pool, true, a)], m') && CooledNow(c, m', k) && m'.clock == 0
    ensures m'.pairs.Keys == m.pairs.Keys
  {
    RunsStayIndexed(c, EMPTY, past);
    LookupAgrees(c, m, pool);
    m' := Probed(c, m, k, 0, true, a);
    Then(c, past, m, Depth(0, pool, true, a), m');
  }

  /** Failed probes before the averages cross their bound. */
  lemma {:induction false} FailedProbes(c: Config, k: Key, pool: PoolId, a: Assessment, past: seq<Step>, m: Memory,
                                        n: nat)
    requires Leads(c, past, m) && m.clock == 0 && k in m.pairs && pool in m.pairs[k].venues && c.home(pool) == k
    requires m.pairs[k].assessment == a
    ensures Leads(c, past + seq(n, _ => Depth(0, pool, false, a)), m)
  {
    if n == 0 {
      assert past + seq(n, _ => Depth(0, pool, false, a)) == past;
    } else {
      FailedProbes(c, k, pool, a, past, m, n - 1);
      var before := past + seq(n - 1, _ => Depth(0, pool, false, a));
      RunsStayIndexed(c, EMPTY, before);
      LookupAgrees(c, m, pool);
      assert m.pairs[k := m.pairs[k].(assessment := a)] == m.pairs;
      Then(c, before, m, Depth(0, pool, false, a), m);
      assert before + [Depth(0, pool, false, a)] == past + seq(n, _ => Depth(0, pool, false, a));
    }
  }

  /** Probes of one pool that fail: an average that starts at 0 and takes a quarter of each failure crosses .80
      with the sixth. */
  ghost function SixFailures(pool: PoolId, a: Assessment): seq<Step> {
    seq(5, _ => Depth(0, pool, false, a)) + [Depth(0, pool, true, a)]
  }

  lemma CoolBySix(c: Config, k: Key, pool: PoolId, a: Assessment, past: seq<Step>, m: Memory) returns (m': Memory)
    requires Leads(c, past, m) && m.clock == 0 && k in m.pairs && pool in m.pairs[k].venues && c.home(pool) == k
    requires m.pairs[k].assessment == a
    ensures Leads(c, past + SixFailures(pool, a), m') && CooledNow(c, m', k) && m'.clock == 0
    ensures m'.pairs.Keys == m.pairs.Keys
  {
    var five := seq(5, _ => Depth(0, pool, false, a));
    FailedProbes(c, k, pool, a, past, m, 5);
    m' := CoolIt(c, k, pool, a, past + five, m);
    assert past + five + [Depth(0, pool, true, a)] == past + SixFailures(pool, a);
  }

  /** Observe k on all its pools. */
  lemma ObserveAll(c: Config, k: Key, pools: seq<PoolId>, a: Assessment) returns (steps: seq<Step>, m: Memory)
    requires c.Normal() && |pools| > 0 && forall j :: 0 <= j < |pools| ==> c.home(pools[j]) == k
    ensures Leads(c, steps, m) && m.clock == 0 && m.pairs == map[k := Fresh(pools, |pools|, a)]
  {
    m := ObserveFirst(c, k, pools, a);
    steps, m := ObserveRest(c, k, pools, a, [Observe(0, pools[0], 0, a, {})], m, 1);
  }

  /** Observe k and cool it by failed depth probes. */
  lemma ObserveAndCool(c: Config, k: Key, pools: seq<PoolId>, a: Assessment)
    returns (seen: seq<Step>, steps: seq<Step>, m: Memory)
    requires c.Normal() && |pools| > 0 && forall j :: 0 <= j < |pools| ==> c.home(pools[j]) == k
    requires forall i, j :: 0 <= i < j < |pools| ==> pools[i] != pools[j]
    ensures Leads(c, steps, m) && CooledNow(c, m, k) && Crowd(m, k, a, 1) && m.pairs.Keys == {k}
    ensures steps == seen + SixFailures(pools[0], a)
  {
    seen, m := ObserveAll(c, k, pools, a);
    VenuesAre(pools, |pools|);
    m := CoolBySix(c, k, pools[0], a, seen, m);
    assert |m.pairs.Keys| == 1;
    steps := seen + SixFailures(pools[0], a);
  }

  /** Observe a new pair while there is room. */
  lemma FillOne(c: Config, k: Key, other: PoolId, a: Assessment, past: seq<Step>, m: Memory, n: nat)
    returns (m': Memory)
    requires Leads(c, past, m) && Crowd(m, k, a, n) && CooledNow(c, m, k) && n < c.maxTracked
    requires c.home(other) != k && c.home(other) !in m.pairs
    ensures Leads(c, past + [Observe(0, other, 0, a, {})], m') && Crowd(m', k, a, n + 1) && CooledNow(c, m', k)
    ensures m'.pairs.Keys == m.pairs.Keys + {c.home(other)}
  {
    m' := Seen(c, m, 0, other, 0, a);
    Newcomer(c, m, k, other, a);
    NothingEvicted(c, m');
    Then(c, past, m, Observe(0, other, 0, a, {}), m');
  }

  /** k and the pairs of the first i pools. */
  ghost function Known(c: Config, k: Key, others: seq<PoolId>, i: nat): set<Key>
    requires i <= |others|
  {
    {k} + set j | 0 <= j < i :: c.home(others[j])
  }

  /** The pools belong to different pairs, none of them k. */
  ghost predicate Apart(c: Config, k: Key, others: seq<PoolId>) {
    && (forall i :: 0 <= i < |others| ==> c.home(others[i]) != k)
    && (forall i, j :: 0 <= i < j < |others| ==> c.home(others[i]) != c.home(others[j]))
  }

  lemma KnownGrows(c: Config, k: Key, others: seq<PoolId>, i: nat)
    requires i < |others| && Apart(c, k, others)
    ensures c.home(others[i]) != k && c.home(others[i]) !in Known(c, k, others, i)
    ensures Known(c, k, others, i + 1) == Known(c, k, others, i) + {c.home(others[i])}
  { }

  /** Observe other pairs until the memory is full. */
  lemma {:induction false} FillUp(c: Config, k: Key, others: seq<PoolId>, a: Assessment, past: seq<Step>, m: Memory,
                                  i: nat)
    returns (steps: seq<Step>, m': Memory)
    requires i < |others| == c.maxTracked && Apart(c, k, others)
    requires Leads(c, past, m) && Crowd(m, k, a, i + 1) && CooledNow(c, m, k) && m.pairs.Keys == Known(c, k, others, i)
    ensures past <= steps && Leads(c, steps, m') && Crowd(m', k, a, c.maxTracked) && CooledNow(c, m', k)
    ensures c.home(others[|others| - 1]) !in m'.pairs
    decreases |others| - i
  {
    KnownGrows(c, k, others, i);
    if i + 1 == |others| {
      return past, m;
    }
    var next := FillOne(c, k, others[i], a, past, m, i + 1);
    steps, m' := FillUp(c, k, others, a, past + [Observe(0, others[i], 0, a, {})], next, i + 1);
  }

  /** A pair observed for the first time joins as a bystander. */
  lemma Newcomer(c: Config, m: Memory, k: Key, pool: PoolId, a: Assessment)
    requires Crowd(m, k, a, |m.pairs|) && c.home(pool) != k && c.home(pool) !in m.pairs
    ensures Crowd(Seen(c, m, 0, pool, 0, a), k, a, |m.pairs| + 1)
    ensures Seen(c, m, 0, pool, 0, a).pairs.Keys == m.pairs.Keys + {c.home(pool)}
  {
    var next, x := Seen(c, m, 0, pool, 0, a), c.home(pool);
    assert next.pairs.Keys == m.pairs.Keys + {x};
    assert |next.pairs.Keys| == |m.pairs.Keys| + 1;
    assert next.pairs[x].venues == map[pool := 0];
  }

  /** In a full memory one more pair evicts the cooled one. */
  lemma EvictCooled(c: Config, k: Key, other: PoolId, a: Assessment, past: seq<Step>, m: Memory) returns (m': Memory)
    requires Leads(c, past, m) && Crowd(m, k, a, c.maxTracked) && CooledNow(c, m, k)
    requires c.home(other) != k && c.home(other) !in m.pairs
    ensures Leads(c, past + [Observe(0, other, 0, a, {k})], m') && Crowd(m', k, a, c.maxTracked) && k !in m'.pairs
  {
    var next := Seen(c, m, 0, other, 0, a);
    Newcomer(c, m, k, other, a);
    m' := Evicted(next, {k});
    assert m'.pairs.Keys == next.pairs.Keys - {k};
    Then(c, past, m, Observe(0, other, 0, a, {k}), m');
  }

  lemma SwapSize(pairs: map<Key, Pair>, k: Key, e: Pair, x: Key)
    requires x in pairs && k !in pairs
    ensures |pairs[k := e]| == |pairs| + 1 && |pairs[k := e] - {x}| == |pairs|
  {
    assert pairs[k := e].Keys == pairs.Keys + {k};
    assert (pairs[k := e] - {x}).Keys == pairs[k := e].Keys - {x};
  }

  /** A forgotten pair is observed anew in place of a bystander. */
  lemma Replace(c: Config, k: Key, pools: seq<PoolId>, a: Assessment, past: seq<Step>, m: Memory, x: Key)
    returns (m': Memory)
    requires |pools| > 0 && c.home(pools[0]) == k && x in m.pairs
    requires Leads(c, past, m) && Crowd(m, k, a, c.maxTracked) && k !in m.pairs
    ensures Leads(c, past + [Observe(0, pools[0], 0, a, {x})], m') && m'.clock == 0
    ensures m'.pairs == m.pairs[k := Fresh(pools, 1, a)] - {x} && |m'.pairs| == c.maxTracked
  {
    var seen := Seen(c, m, 0, pools[0], 0, a);
    assert VenuesTo(pools, 1) == map[][pools[0] := 0];
    assert seen.pairs == m.pairs[k := Fresh(pools, 1, a)];
    m' := Evicted(seen, {x});
    SwapSize(m.pairs, k, seen.pairs[k], x);
    Then(c, past, m, Observe(0, pools[0], 0, a, {x}), m');
  }

  /** It comes back with a new first observation and no memory of its cooldown. */
  lemma ComeBack(c: Config, k: Key, pools: seq<PoolId>, a: Assessment, past: seq<Step>, m: Memory)
    returns (steps: seq<Step>, m': Memory)
    requires c.Normal() && |pools| > 0 && forall j :: 0 <= j < |pools| ==> c.home(pools[j]) == k
    requires Leads(c, past, m) && Crowd(m, k, a, c.maxTracked) && k !in m.pairs
    ensures past <= steps && Leads(c, steps, m') && Crowd(m', k, a, c.maxTracked)
    ensures k in m'.pairs && m'.pairs[k] == Fresh(pools, |pools|, a)
  {
    assert m.pairs.Keys != {};
    var x :| x in m.pairs;
    var next := Replace(c, k, pools, a, past, m, x);
    steps, m' := ObserveRest(c, k, pools, a, past + [Observe(0, pools[0], 0, a, {x})], next, 1);
    forall y | y in m'.pairs && y != k ensures Bystander(m'.pairs[y], a) { assert m'.pairs[y] == m.pairs[y]; }
  }

  /** Every pair is assessed alike. */
  function Flat(a: Assessment): Key -> Assessment { _ => a }

  /** A window that admits nobody only adds a score. */
  lemma IdleWindow(c: Config, k: Key, a: Assessment, past: seq<Step>, m: Memory, n: nat) returns (m': Memory)
    requires c.Normal() && Leads(c, past, m) && Crowd(m, k, a, n)
    requires k in m.pairs && m.pairs[k].status == Observed && m.pairs[k].firstObserved == 0 && |m.pairs[k].recent| < 4
    ensures Leads(c, past + [Select(0, Flat(a), [])], m') && Crowd(m', k, a, n)
    ensures k in m'.pairs && m'.pairs[k] == Scored(m.pairs[k], a)
  {
    var f := Flat(a);
    m' := AfterSelect(c, m, 0, f, []);
    forall x | x in m.pairs ensures !Qualified(c, x, Scored(m.pairs[x], a), 0) {
      if x != k { BystanderUnqualified(c, x, m.pairs[x], a, 0); }
    }
    assert Candidates(c, m, 0, f) == {} && Preserved(c, m, 0, f) == {};
    forall x | x in m'.pairs && x != k ensures Bystander(m'.pairs[x], a) {
      BystanderUnqualified(c, x, m.pairs[x], a, 0);
    }
    assert m'.pairs.Keys == m.pairs.Keys;
    assert |m'.pairs.Keys| == |m.pairs.Keys|;
    Then(c, past, m, Select(0, f, []), m');
  }

  /** The configured minimum of everything. */
  function Passing(c: Config): Assessment {
    Assessment(c.minScore, c.minConfidence, c.minQuote, c.minDepth, c.maxFailure, c.maxIlliquidity)
  }

  ghost function Rescored(pools: seq<PoolId>, a: Assessment): Pair {
    Fresh(pools, |pools|, a).(recent := [a.score, a.score])
  }

  lemma ScoredTwice(pools: seq<PoolId>, a: Assessment)
    ensures Scored(Scored(Fresh(pools, |pools|, a), a), a) == Rescored(pools, a)
  { }

  lemma ThirdScoreQualifies(c: Config, k: Key, pools: seq<PoolId>)
    requires c.Normal() && c.maxDrift >= 0 && CoreConnected(c, k) && |pools| == c.minDexes
    requires forall i, j :: 0 <= i < j < |pools| ==> pools[i] != pools[j]
    ensures Qualified(c, k, Scored(Rescored(pools, Passing(c)), Passing(c)), c.minObservation)
  {
    var p, a := Rescored(pools, Passing(c)), Passing(c);
    FreshDexes(pools, Scored(p, a));
    assert Scored(p, a).recent == [a.score, a.score, a.score];
  }

  lemma OnlyCandidate(c: Config, k: Key, m: Memory, now: int, a: Assessment, n: nat)
    requires c.Normal() && Crowd(m, k, a, n) && k in m.pairs && m.pairs[k].status == Observed
    requires Qualified(c, k, Scored(m.pairs[k], a), now)
    ensures Candidates(c, m, now, Flat(a)) == {k} && Preserved(c, m, now, Flat(a)) == {}
  {
    forall x | x in m.pairs && x != k ensures !Qualified(c, x, Scored(m.pairs[x], a), now) {
      BystanderUnqualified(c, x, m.pairs[x], a, now);
    }
  }

  /** With three steady scores and enough venues, the pair is admitted as soon as it is observed long enough. */
  lemma AdmittedWhenDue(c: Config, k: Key, pools: seq<PoolId>, m: Memory, n: nat)
    requires c.Normal() && c.maxDrift >= 0 && CoreConnected(c, k) && |pools| == c.minDexes
    requires forall i, j :: 0 <= i < j < |pools| ==> pools[i] != pools[j]
    requires Crowd(m, k, Passing(c), n) && k in m.pairs && m.pairs[k] == Rescored(pools, Passing(c))
    ensures Ranked([k], Candidates(c, m, c.minObservation, Flat(Passing(c))), Flat(Passing(c)))
    ensures k in AdmittedKeys(AfterSelect(c, m, c.minObservation, Flat(Passing(c)), [k]))
  {
    ThirdScoreQualifies(c, k, pools);
    OnlyCandidate(c, k, m, c.minObservation, Passing(c), n);
    OneIsChosen(c, k);
    assert k in Selected(c, m, c.minObservation, Flat(Passing(c)), [k]);
  }

  lemma AdmitAgain(c: Config, k: Key, pools: seq<PoolId>, past: seq<Step>, m: Memory, n: nat) returns (m': Memory)
    requires c.Normal() && c.maxDrift >= 0 && CoreConnected(c, k) && |pools| == c.minDexes
    requires forall i, j :: 0 <= i < j < |pools| ==> pools[i] != pools[j]
    requires Leads(c, past, m) && Crowd(m, k, Passing(c), n) && k in m.pairs
        && m.pairs[k] == Rescored(pools, Passing(c))
    ensures Leads(c, past + [Select(c.minObservation, Flat(Passing(c)), [k])], m')
    ensures m'.clock == c.minObservation && k in AdmittedKeys(m')
  {
    AdmittedWhenDue(c, k, pools, m, n);
    m' := AfterSelect(c, m, c.minObservation, Flat(Passing(c)), [k]);
    Then(c, past, m, Select(c.minObservation, Flat(Passing(c)), [k]), m');
  }

  lemma OneIsChosen(c: Config, k: Key)
    requires c.Normal() && CoreConnected(c, k)
    ensures k in Choose(c, [k], 0, {})
  {
    var t := if k.token0 in c.core then k.token1 else k.token0;
    SubsetSize(DynamicTokens(c, {} + {k}), {t});
  }

  /** The witness: from the empty memory, k is cooled at time 0 by six failed probes, evicted, observed anew, and
      admitted at time minObservation although its cooldown ends later. */
  lemma EarlyReadmission(c: Config, k: Key, pools: seq<PoolId>, others: seq<PoolId>)
    returns (seen: seq<Step>, cooled: seq<Step>, steps: seq<Step>)
    requires c.Normal() && c.maxDrift >= 0 && CoreConnected(c, k) && Crowded(c, k, pools, others)
    ensures cooled == seen + SixFailures(pools[0], Passing(c))
    ensures cooled <= steps && Exec(c, EMPTY, cooled).clock == 0 && CooledNow(c, Exec(c, EMPTY, cooled), k)
    ensures Exec(c, EMPTY, steps).clock == c.minObservation && k in AdmittedKeys(Exec(c, EMPTY, steps))
  {
    var m;
    seen, cooled, m := ObserveAndCool(c, k, pools, Passing(c));
    steps, m := ForgetAndReturn(c, k, pools, others, cooled, m);
    steps, m := TwoIdleWindows(c, k, pools, steps, m);
    m := AdmitAgain(c, k, pools, steps, m, c.maxTracked);
    steps := steps + [Select(c.minObservation, Flat(Passing(c)), [k])];
  }

  lemma ForgetAndReturn(c: Config, k: Key, pools: seq<PoolId>, others: seq<PoolId>, past: seq<Step>, m: Memory)
    returns (steps: seq<Step>, m': Memory)
    requires c.Normal() && Crowded(c, k, pools, others)
    requires Leads(c, past, m) && CooledNow(c, m, k) && Crowd(m, k, Passing(c), 1) && m.pairs.Keys == {k}
    ensures past <= steps && Leads(c, steps, m') && Crowd(m', k, Passing(c), c.maxTracked)
    ensures k in m'.pairs && m'.pairs[k] == Fresh(pools, |pools|, Passing(c))
  {
    var last := others[|others| - 1];
    assert Known(c, k, others, 0) == {k};
    steps, m' := FillUp(c, k, others, Passing(c), past, m, 0);
    m' := EvictCooled(c, k, last, Passing(c), steps, m');
    steps, m' := ComeBack(c, k, pools, Passing(c), steps + [Observe(0, last, 0, Passing(c), {k})], m');
  }

  lemma TwoIdleWindows(c: Config, k: Key, pools: seq<PoolId>, past: seq<Step>, m: Memory)
    returns (steps: seq<Step>, m': Memory)
    requires c.Normal() && Leads(c, past, m) && Crowd(m, k, Passing(c), c.maxTracked)
    requires k in m.pairs && m.pairs[k] == Fresh(pools, |pools|, Passing(c))
    ensures past <= steps && Leads(c, steps, m') && Crowd(m', k, Passing(c), c.maxTracked)
    ensures k in m'.pairs && m'.pairs[k] == Rescored(pools, Passing(c))
  {
    var window := Select(0, Flat(Passing(c)), []);
    ScoredTwice(pools, Passing(c));
    m' := IdleWindow(c, k, Passing(c), past, m, c.maxTracked);
    m' := IdleWindow(c, k, Passing(c), past + [window], m', c.maxTracked);
    steps := past + [window] + [window];
  }

  /** In the run, k was cooled after i steps, its cooldown is not over, and it is admitted. */
  ghost predicate Readmitted(c: Config, steps: seq<Step>, i: nat, k: Key)
    requires i <= |steps|
  {
    var m, t := Exec(c, EMPTY, steps[..i]), Exec(c, EMPTY, steps);
    CooledNow(c, m, k) && t.clock < m.clock + c.cooldown && k in AdmittedKeys(t)
  }

  lemma {:induction false} ExecSplits(c: Config, m: Memory, steps: seq<Step>, i: nat)
    requires i <= |steps|
    ensures Exec(c, m, steps) == Exec(c, Exec(c, m, steps[..i]), steps[i..])
    decreases |steps|
  {
    if i == |steps| {
      assert steps[..i] == steps && steps[i..] == [];
    } else {
      var before := steps[..|steps| - 1];
      ExecSplits(c, m, before, i);
      assert before[..i] == steps[..i] && steps[i..][..|steps| - i - 1] == before[i..];
    }
  }

  /** The exact condition: no run from the empty memory admits a cooled pair before its cooldown ends iff the
      minimum observation time is at least the cooldown. */
  lemma NoEarlyReadmissionIff(c: Config, k: Key, pools: seq<PoolId>, others: seq<PoolId>)
    requires c.Normal() && c.maxDrift >= 0 && CoreConnected(c, k) && Crowded(c, k, pools, others)
    ensures (forall steps, i | 0 <= i <= |steps| :: !Readmitted(c, steps, i, k)) <==> c.minObservation >= c.cooldown
  {
    if c.minObservation >= c.cooldown {
      forall steps, i | 0 <= i <= |steps| ensures !Readmitted(c, steps, i, k) {
        var m := Exec(c, EMPTY, steps[..i]);
        assert AdmittedKeys(EMPTY) == {} && DynamicTokens(c, {}) == {};
        CapsHold(c, EMPTY, steps[..i]);
        if CooledNow(c, m, k) {
          NotReadmittedEarly(c, m, steps[i..], k, m.clock);
          ExecSplits(c, EMPTY, steps, i);
        }
      }
    } else {
      var _, cooled, steps := EarlyReadmission(c, k, pools, others);
      assert steps[..|cooled|] == cooled;
      assert Readmitted(c, steps, |cooled|, k);
    }
  }

  // ---------------------------------------------------------------- the pool index

  /** Venues sit in the pair of their pool, and index entries point at a tracked pair that has the pool. */
  ghost predicate Indexed(c: Config, m: Memory) {
    && (forall k, a :: k in m.pairs && a in m.pairs[k].venues ==> k == c.home(a))
    && (forall a :: a in m.poolPairs ==> m.poolPairs[a] in m.pairs && a in m.pairs[m.poolPairs[a]].venues)
  }

  lemma SelectKeepsIndexed(c: Config, m: Memory, now: int, f: Key -> Assessment, order: seq<Key>)
    requires Indexed(c, m)
    ensures Indexed(c, AfterSelect(c, m, now, f, order))
  {
    var m' := AfterSelect(c, m, now, f, order);
    forall k | k in m.pairs ensures k in m'.pairs && m'.pairs[k].venues == m.pairs[k].venues {
      WindowKeepsVenues(c, k, m.pairs[k], f(k), now, k in Selected(c, m, now, f, order));
    }
    assert m'.pairs.Keys == m.pairs.Keys && m'.poolPairs == m.poolPairs;
  }

  lemma WindowKeepsVenues(c: Config, k: Key, p: Pair, a: Assessment, now: int, chosen: bool)
    ensures Settled(Judged(c, k, p, a, now), chosen).venues == p.venues
  { }

  lemma EvictKeepsIndexed(c: Config, m: Memory, gone: set<Key>)
    requires Indexed(c, m)
    ensures Indexed(c, Evicted(m, gone))
  { }

  lemma SeenKeepsIndexed(c: Config, m: Memory, now: int, pool: PoolId, dex: Dex, a: Assessment)
    requires Indexed(c, m)
    ensures Indexed(c, Seen(c, m, now, pool, dex, a))
  { }

  lemma ProbedKeepsIndexed(c: Config, m: Memory, k: Key, now: int, trip: bool, a: Assessment)
    requires Indexed(c, m) && k in m.pairs
    ensures Indexed(c, Probed(c, m, k, now, trip, a))
  { }

  lemma ApplyKeepsIndexed(c: Config, m: Memory, s: Step)
    requires Indexed(c, m)
    ensures Indexed(c, Apply(c, m, s))
  {
    match s
    case Select(now, f, order) => SelectKeepsIndexed(c, m, now, f, order);
    case Depth(now, pool, trip, a) =>
      if PairByPool(m, pool).Some? { ProbedKeepsIndexed(c, m, PairByPool(m, pool).value, now, trip, a); }
    case Observe(now, pool, dex, a, gone) =>
      SeenKeepsIndexed(c, m, now, pool, dex, a);
      EvictKeepsIndexed(c, Seen(c, m, now, pool, dex, a), gone);
  }

  lemma {:induction false} RunsStayIndexed(c: Config, m: Memory, steps: seq<Step>)
    requires Indexed(c, m)
    ensures Indexed(c, Exec(c, m, steps))
  {
    if steps != [] {
      RunsStayIndexed(c, m, steps[..|steps| - 1]);
      ApplyKeepsIndexed(c, Exec(c, m, steps[..|steps| - 1]), steps[|steps| - 1]);
    }
  }

  /** Over every run the indexed lookup answers what a full scan would. */
  lemma IndexAgreesWithScan(c: Config, steps: seq<Step>, pool: PoolId)
    ensures var m := Exec(c, Memory(map[], map[], 0), steps);
            && PairByPool(m, pool) == Scan(m, pool)
            && (Scan(m, pool).Some? <==> c.home(pool) in m.pairs && pool in m.pairs[c.home(pool)].venues)
            && (Scan(m, pool).Some? ==> Scan(m, pool).value == c.home(pool))
  {
    var m := Exec(c, Memory(map[], map[], 0), steps);
    RunsStayIndexed(c, Memory(map[], map[], 0), steps);
    LookupAgrees(c, m, pool);
  }

  lemma LookupAgrees(c: Config, m: Memory, pool: PoolId)
    requires Indexed(c, m)
    ensures PairByPool(m, pool) == Scan(m, pool)
    ensures Scan(m, pool).Some? <==> c.home(pool) in m.pairs && pool in m.pairs[c.home(pool)].venues
    ensures Scan(m, pool).Some? ==> Scan(m, pool).value == c.home(pool)
  {
    if exists k :: k in m.pairs && pool in m.pairs[k].venues {
      var k :| k in m.pairs && pool in m.pairs[k].venues;
      assert k == c.home(pool);
    }
    if pool in m.poolPairs {
      var k := m.poolPairs[pool];
      assert k in m.pairs && pool in m.pairs[k].venues;
    }
  }

  // ---------------------------------------------------------------- the memory object

  function InsertRanked(order: seq<Key>, k: Key, f: Key -> Assessment): seq<Key> {
    if order == [] || Ranks(f, order[|order| - 1], k) then order + [k]
    else InsertRanked(order[..|order| - 1], k, f) + [order[|order| - 1]]
  }

  lemma {:induction false} InsertKeepsRanked(order: seq<Key>, ks: set<Key>, k: Key, f: Key -> Assessment)
    requires Ranked(order, ks, f) && k !in ks
    ensures Ranked(InsertRanked(order, k, f), ks + {k}, f)
  {
    if order != [] && !Ranks(f, order[|order| - 1], k) {
      var init, last := order[..|order| - 1], order[|order| - 1];
      assert order == init + [last];
      forall i | 0 <= i < |init| ensures init[i] != last { assert Ranks(f, order[i], order[|order| - 1]); }
      assert Ranked(init, ks - {last}, f);
      InsertKeepsRanked(init, ks - {last}, k, f);
      var t := InsertRanked(init, k, f);
      forall i | 0 <= i < |t| ensures Ranks(f, t[i], last) {
        assert t[i] in t;
        if t[i] != k { var j :| 0 <= j < |init| && init[j] == t[i]; assert Ranks(f, order[j], order[|order| - 1]); }
      }
    } else {
      forall i | 0 <= i < |order| ensures Ranks(f, order[i], k) {
        if i < |order| - 1 { assert Ranks(f, order[i], order[|order| - 1]); }
      }
    }
  }

  /** The greedy loop over the ranked candidates.  It carries the live set's non-core tokens along instead of
      recomputing them for every candidate. */
  method ChooseLive(c: Config, order: seq<Key>, kept: set<Key>) returns (selected: set<Key>)
    ensures selected == Choose(c, order, 0, kept)
  {
    var dynamic, i := DynamicTokens(c, kept), 0;
    selected := kept;
    while i < |order| && |selected| < c.maxLivePairs
      invariant 0 <= i <= |order| && dynamic == DynamicTokens(c, selected)
      invariant Choose(c, order, 0, kept) == Choose(c, order, i, selected)
      decreases |order| - i
    {
      ghost var before := selected;
      selected, dynamic := Consider(c, order[i], selected, dynamic);
      assert order[i] in before ==> before + {order[i]} == before;
      assert selected == Joined(c, order[i], before);
      i := i + 1;
    }
  }

  /** One candidate: it joins iff it is in already or the asset cap still holds with it, and the token set stays
      that of the live set. */
  method Consider(c: Config, k: Key, selected: set<Key>, dynamic: set<Token>)
    returns (selected': set<Key>, dynamic': set<Token>)
    requires dynamic == DynamicTokens(c, selected)
    ensures k in selected' <==> k in selected || |DynamicTokens(c, selected + {k})| <= c.maxLiveDynamic
    ensures selected <= selected' <= selected + {k} && dynamic' == DynamicTokens(c, selected')
  {
    selected', dynamic' := selected, dynamic;
    if k in selected { return; }
    var added := DynamicOf(c, k) - dynamic;
    JoinDynamic(c, selected, k);
    UnionSize(dynamic, DynamicOf(c, k));
    if |dynamic| + |added| > c.maxLiveDynamic { return; }
    selected', dynamic' := selected + {k}, dynamic + added;
    assert dynamic + added == dynamic + DynamicOf(c, k);
  }

  class PairMemory {
    const c: Config
    var pairs: map<Key, Pair>
    var poolPairs: map<PoolId, Key>
    var clock: int

    ghost function State(): Memory reads this { Memory(pairs, poolPairs, clock) }

    constructor (c: Config)
      ensures this.c == c && State() == Memory(map[], map[], 0)
    {
      this.c, pairs, poolPairs, clock := c, map[], map[], 0;
    }

    /** A selection window: score and judge every pair, rank the qualified ones, pick greedily, settle. */
    method SelectLive(now: int, f: Key -> Assessment) returns (order: seq<Key>, selected: set<Key>)
      modifies this
      ensures Ranked(order, Candidates(c, old(State()), now, f), f)
      ensures selected == Selected(c, old(State()), now, f, order)
      ensures State() == AfterSelect(c, old(State()), now, f, order)
    {
      var before := Memory(pairs, poolPairs, clock);
      order := RankCandidates(Candidates(c, before, now, f), f);
      selected := Preserved(c, before, now, f);
      selected := ChooseLive(c, order, selected);
      pairs := map k | k in before.pairs :: Settled(Judged(c, k, before.pairs[k], f(k), now), k in selected);
      clock := now;
    }

    method RankCandidates(ks: set<Key>, f: Key -> Assessment) returns (order: seq<Key>)
      ensures Ranked(order, ks, f)
    {
      order := [];
      var todo := ks;
      while todo != {}
        invariant todo <= ks && Ranked(order, ks - todo, f)
        decreases |todo|
      {
        var k :| k in todo;
        InsertKeepsRanked(order, ks - todo, k, f);
        assert ks - todo + {k} == ks - (todo - {k});
        order := InsertRanked(order, k, f);
        todo := todo - {k};
      }
    }

    /** RecordDepth for the pair the pool belongs to. */
    method RecordDepth(now: int, pool: PoolId, trip: bool, a: Assessment)
      requires Indexed(c, State())
      modifies this
      ensures PairByPool(old(State()), pool).Some? ==>
                State() == Probed(c, old(State()), PairByPool(old(State()), pool).value, now, trip, a)
      ensures PairByPool(old(State()), pool).None? ==> pairs == old(pairs)
    {
      LookupAgrees(c, State(), pool);
      if pool in poolPairs {
        var k := poolPairs[pool];
        var p := pairs[k].(assessment := a);
        if trip { p := p.(status := Cooled, cooldownUntil := now + c.cooldown); }
        pairs, clock := pairs[k := p], now;
        return;
      }
      var found := c.home(pool);
      if found in pairs && pool in pairs[found].venues {
        var p := pairs[found].(assessment := a);
        if trip { p := p.(status := Cooled, cooldownUntil := now + c.cooldown); }
        pairs, clock := pairs[found := p], now;
      }
    }
  }
}
