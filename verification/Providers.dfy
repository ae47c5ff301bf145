/** Choice of the RPC provider for a read, failure cooldowns, and fairness over runs (go/internal/rpc/client.go).

    Times are nanoseconds; one call reads the clock once.  Delays of a provider's limiter come from module
    Pacing. */
module Providers {
  import opened Arith
  import opened Options
  import opened Pacing

  const MILLI: int := 1_000_000

  datatype Tier = Premium | Secondary | Limited | Emergency

  /** Every request class ranks the tiers alike. */
  function Rank(t: Tier): nat {
    match t
    case Premium => 0
    case Secondary => 1
    case Limited => 2
    case Emergency => 3
  }

  datatype Class = Standard | Background | HotPath | Critical

  datatype Provider = Provider(
    tier: Tier, rps: int, maxLag: int,
    cooldownUntil: int, probationUntil: int, recent429Until: int,
    latestBlock: nat, latestBlockAt: Option<int>,
    latency: nat, inflight: nat, consecutiveFailures: nat, rateLimitStreak: nat, requests: nat,
    limiter: Limiter)

  function Wait(p: Provider, now: int): nat {
    if p.limiter.interval == 0 || p.limiter.next == None || p.limiter.next.value <= now then 0
        else p.limiter.next.value - now
  }

  function BestBlock(ps: seq<Provider>): nat {
    if ps == [] then 0
    else
      var b := BestBlock(ps[..|ps| - 1]);
      if ps[|ps| - 1].latestBlock > b then ps[|ps| - 1].latestBlock else b
  }

  predicate Lagged(p: Provider, best: nat, now: int) {
    && best != 0 && p.latestBlock != 0 && p.maxLag > 0
    && p.latestBlockAt.Some? && now - p.latestBlockAt.value <= 30 * SECOND
    && best - p.latestBlock > p.maxLag
  }

  /** Out of cooldown and not lagged; the strict form also asks for no probation. */
  predicate Healthy(p: Provider, best: nat, now: int, strict: bool) {
    now >= p.cooldownUntil && !(strict && now < p.probationUntil) && !Lagged(p, best, now)
  }

  function Weight(requests: nat, rps: int): int { if rps <= 0 then 0 else requests * SECOND / rps }

  /** All score terms but the request weight. */
  function OtherTerms(p: Provider, now: int, flexible: bool): int {
    Wait(p, now) + (if flexible then Rank(p.tier) * 75 * MILLI else 0)
    + (if now < p.recent429Until then 250 * MILLI else 0)
    + p.latency / 20 + p.inflight * 25 * MILLI + p.consecutiveFailures * 100 * MILLI
  }

  function Score(p: Provider, now: int, flexible: bool): int {
    OtherTerms(p, now, flexible) + Weight(p.requests, p.rps)
  }

  /** The wait is that of a reservation: made now, it would get the slot at now + Wait. */
  lemma WaitIsForSlot(p: Provider, now: int)
    requires p.limiter.interval == 0 || p.limiter.burst >= 1
    ensures p.limiter.Slot(now) == now + Wait(p, now)
  {
    if p.limiter.interval > 0 { assert (p.limiter.burst - 1) * p.limiter.interval >= 0; }
  }

  lemma {:induction false} BestBlockIs(ps: seq<Provider>)
    ensures forall p :: p in ps ==> p.latestBlock <= BestBlock(ps)
    ensures BestBlock(ps) > 0 ==> exists p :: p in ps && p.latestBlock == BestBlock(ps)
  {
    if ps != [] {
      var init, last := ps[..|ps| - 1], ps[|ps| - 1];
      BestBlockIs(init);
      assert ps == init + [last];
      assert last in ps;
    }
  }

  /** Lagged: its own block is known and at most 30 s old, and another provider is more than the allowed lag ahead. */
  lemma LaggedIff(ps: seq<Provider>, p: Provider, now: int)
    ensures Lagged(p, BestBlock(ps), now) <==>
            && p.maxLag > 0 && p.latestBlock > 0 && p.latestBlockAt.Some? && now <= p.latestBlockAt.value + 30 * SECOND
            && exists q :: q in ps && q.latestBlock > p.latestBlock + p.maxLag
  {
    BestBlockIs(ps);
  }

  /** Healthy: cooldown over, not lagged, and for the strict form probation over too. */
  lemma HealthyIff(ps: seq<Provider>, p: Provider, now: int)
    ensures Healthy(p, BestBlock(ps), now, false) <==> p.cooldownUntil <= now && !Lagged(p, BestBlock(ps), now)
    ensures Healthy(p, BestBlock(ps), now, true) <==>
              Healthy(p, BestBlock(ps), now, false) && p.probationUntil <= now
  { }

  /** What each term weighs: a failure in a row as much as 100 ms of waiting, a request in flight 25 ms, a recent rate
      limit 250 ms, 20 ns of latency 1 ns, a tier 75 ms for a flexible read, and a provider without any of these
      scores what its limiter makes it wait and its weighted requests. */
  lemma ScoreWeights(p: Provider, now: int, flexible: bool)
    ensures var s := Score(p, now, flexible);
            && Score(p.(consecutiveFailures := p.consecutiveFailures + 1), now, flexible) == s + 100 * MILLI
            && Score(p.(inflight := p.inflight + 1), now, flexible) == s + 25 * MILLI
            && Score(p.(latency := p.latency + 20), now, flexible) == s + 1
            && (now >= p.recent429Until ==> Score(p.(recent429Until := now + 1), now, flexible) == s + 250 * MILLI)
            && (p.tier == Premium ==>
                 && Score(p.(tier := Secondary), now, flexible) == s + (if flexible then 75 * MILLI else 0)
                 && Score(p.(tier := Limited), now, flexible) == s + (if flexible then 150 * MILLI else 0)
                 && Score(p.(tier := Emergency), now, flexible) == s + (if flexible then 225 * MILLI else 0))
    ensures (p.consecutiveFailures == p.inflight == 0 && p.latency < 20 && now >= p.recent429Until && p.tier == Premium)
            ==> Score(p, now, flexible) == Wait(p, now) + Weight(p.requests, p.rps)
  {
    QuotientIs(p.latency + 20, p.latency / 20 + 1, 20);
  }

  // ---------------------------------------------------------------- the preferred tier

  const SPILL_DELAY: int := 150 * MILLI

  /** r is a tier a flexible read may use: the best tier with a provider that is ready within the spill delay,
      or, if none is ready, the tier of a provider with the least delay, the better tier on equal delays. */
  ghost predicate Preferred(ps: seq<Provider>, best: nat, now: int, strict: bool, r: nat) {
    if exists i :: 0 <= i < |ps| && Healthy(ps[i], best, now, strict) && Wait(ps[i], now) <= SPILL_DELAY
    then
      && (exists i :: 0 <= i < |ps| && ReadyAt(ps[i], best, now, strict, r))
      && (forall i :: 0 <= i < |ps| && Healthy(ps[i], best, now, strict) && Wait(ps[i], now) <= SPILL_DELAY ==>
          r <= Rank(ps[i].tier))
    else
      exists i :: 0 <= i < |ps| && Healthy(ps[i], best, now, strict) && Rank(ps[i].tier) == r
        && forall j :: 0 <= j < |ps| && Healthy(ps[j], best, now, strict) ==> Sooner(ps[i], ps[j], now)
  }

  predicate ReadyAt(p: Provider, best: nat, now: int, strict: bool, r: nat) {
    Healthy(p, best, now, strict) && Wait(p, now) <= SPILL_DELAY && Rank(p.tier) == r
  }

  predicate Sooner(p: Provider, q: Provider, now: int) {
    Wait(p, now) < Wait(q, now) || (Wait(p, now) == Wait(q, now) && Rank(p.tier) <= Rank(q.tier))
  }

  method PreferredReadTier(ps: seq<Provider>, best: nat, now: int, strict: bool) returns (r: Option<nat>)
    ensures r == None <==> forall i :: 0 <= i < |ps| ==> !Healthy(ps[i], best, now, strict)
    ensures r.Some? ==> Preferred(ps, best, now, strict, r.value)
  {
    var ready: Option<nat>, delayed: Option<nat> := None, None;
    ghost var readyAt, delayedAt := 0, 0;
    for k := 0 to |ps|
      invariant if ready == None then forall i :: 0 <= i < k ==>
          !(Healthy(ps[i], best, now, strict) && Wait(ps[i], now) <= SPILL_DELAY)
        else 0 <= readyAt < k && ReadyAt(ps[readyAt], best, now, strict, ready.value)
      invariant forall i :: 0 <= i < k && Healthy(ps[i], best, now, strict) && Wait(ps[i], now) <= SPILL_DELAY ==>
          ready.Some? && ready.value <= Rank(ps[i].tier)
      invariant delayed.Some? ==>
          delayed.value < k && Healthy(ps[delayed.value], best, now, strict)
          && Wait(ps[delayed.value], now) > SPILL_DELAY
      invariant forall i :: 0 <= i < k && Healthy(ps[i], best, now, strict) && Wait(ps[i], now) > SPILL_DELAY ==>
        delayed.Some? && Sooner(ps[delayed.value], ps[i], now)
    {
      var p := ps[k];
      if !Healthy(p, best, now, strict) { continue; }
      if Wait(p, now) <= SPILL_DELAY {
        if ready == None || Rank(p.tier) < ready.value { ready, readyAt := Some(Rank(p.tier)), k; }
      } else if delayed == None || Wait(p, now) < Wait(ps[delayed.value], now)
                || (Wait(p, now) == Wait(ps[delayed.value], now) && Rank(p.tier) < Rank(ps[delayed.value].tier)) {
        delayed := Some(k);
      }
    }
    r := if ready.Some? then ready else if delayed.Some? then Some(Rank(ps[delayed.value].tier)) else None;
  }

  // ---------------------------------------------------------------- one pass over the providers

  predicate Flexible(kind: Class) { kind != Critical }

  /** i is a healthy provider of the right tier with the least score there, the first on equal scores. */
  ghost predicate Chosen(ps: seq<Provider>, best: nat, now: int, strict: bool, kind: Class, i: int) {
    && 0 <= i < |ps| && Healthy(ps[i], best, now, strict)
    && (if Flexible(kind) then Preferred(ps, best, now, strict, Rank(ps[i].tier))
        else forall j :: 0 <= j < |ps| && Healthy(ps[j], best, now, strict) ==> Rank(ps[i].tier) <= Rank(ps[j].tier))
    && forall j :: 0 <= j < |ps| && Healthy(ps[j], best, now, strict) && ps[j].tier == ps[i].tier ==>
         Ahead(ps, now, Flexible(kind), i, j)
  }

  predicate Ahead(ps: seq<Provider>, now: int, flexible: bool, i: int, j: int)
    requires 0 <= i < |ps| && 0 <= j < |ps|
  {
    Score(ps[i], now, flexible) < Score(ps[j], now, flexible)
    || (Score(ps[i], now, flexible) == Score(ps[j], now, flexible) && i <= j)
  }

  method ScanFlexible(ps: seq<Provider>, best: nat, now: int, strict: bool, tier: nat) returns (i: int)
    ensures i == -1 || (0 <= i < |ps| && Healthy(ps[i], best, now, strict) && Rank(ps[i].tier) == tier)
    ensures forall j :: 0 <= j < |ps| && Healthy(ps[j], best, now, strict) && Rank(ps[j].tier) == tier ==>
        i != -1 && Ahead(ps, now, true, i, j)
  {
    i := -1;
    for k := 0 to |ps|
      invariant i == -1 || (0 <= i < k && Healthy(ps[i], best, now, strict) && Rank(ps[i].tier) == tier)
      invariant forall j :: 0 <= j < k && Healthy(ps[j], best, now, strict) && Rank(ps[j].tier) == tier ==>
          i != -1 && Ahead(ps, now, true, i, j)
    {
      if Healthy(ps[k], best, now, strict) && Rank(ps[k].tier) == tier {
        if i == -1 || Score(ps[k], now, true) < Score(ps[i], now, true) { i := k; }
      }
    }
  }

  /** Critical reads: a better tier restarts the search. */
  method ScanCritical(ps: seq<Provider>, best: nat, now: int, strict: bool) returns (i: int)
    ensures i == -1 || (0 <= i < |ps| && Healthy(ps[i], best, now, strict))
    ensures forall j :: 0 <= j < |ps| && Healthy(ps[j], best, now, strict) ==>
              i != -1 && Rank(ps[i].tier) <= Rank(ps[j].tier)
                  && (ps[i].tier == ps[j].tier ==> Ahead(ps, now, false, i, j))
  {
    i := -1;
    var bestTier := 99;
    for k := 0 to |ps|
      invariant i == -1 ==> bestTier == 99
      invariant i != -1 ==> 0 <= i < k && Healthy(ps[i], best, now, strict) && Rank(ps[i].tier) == bestTier
      invariant forall j :: 0 <= j < k && Healthy(ps[j], best, now, strict) ==>
        i != -1 && Rank(ps[i].tier) <= Rank(ps[j].tier) && (ps[i].tier == ps[j].tier ==> Ahead(ps, now, false, i, j))
    {
      if !Healthy(ps[k], best, now, strict) { continue; }
      var rank := Rank(ps[k].tier);
      if rank > bestTier { continue; }
      if rank < bestTier { bestTier, i := rank, -1; }
      if i == -1 || Score(ps[k], now, false) < Score(ps[i], now, false) { i := k; }
    }
  }

  method Scan(ps: seq<Provider>, best: nat, now: int, strict: bool, kind: Class) returns (i: int)
    ensures i == -1 ==> forall j :: 0 <= j < |ps| ==> !Healthy(ps[j], best, now, strict)
    ensures i != -1 ==> Chosen(ps, best, now, strict, kind, i)
  {
    if Flexible(kind) {
      var tier := PreferredReadTier(ps, best, now, strict);
      if tier == None { return -1; }
      i := ScanFlexible(ps, best, now, strict, tier.value);
      PreferredIsUsed(ps, best, now, strict, tier.value);
      forall j | 0 <= j < |ps| && ps[j].tier == ps[i].tier ensures Rank(ps[j].tier) == tier.value {}
    } else {
      i := ScanCritical(ps, best, now, strict);
    }
  }

  lemma PreferredIsUsed(ps: seq<Provider>, best: nat, now: int, strict: bool, r: nat)
    requires Preferred(ps, best, now, strict, r)
    ensures exists i :: 0 <= i < |ps| && Healthy(ps[i], best, now, strict) && Rank(ps[i].tier) == r
  {
    if i :| 0 <= i < |ps| && ReadyAt(ps[i], best, now, strict, r) { assert Healthy(ps[i], best, now, strict); }
  }

  // ---------------------------------------------------------------- when no provider is healthy

  /** The wait until a provider may be used: its limiter's or its cooldown, whichever is longer. */
  function Available(p: Provider, now: int): int {
    if p.cooldownUntil - now > Wait(p, now) then p.cooldownUntil - now else Wait(p, now)
  }

  function FallbackScore(p: Provider, now: int, flexible: bool): int {
    Available(p, now) + if flexible then Rank(p.tier) * 75 * MILLI else 0
  }

  ghost predicate Fallback(ps: seq<Provider>, now: int, kind: Class, i: int) {
    && 0 <= i < |ps|
    && forall j :: 0 <= j < |ps| ==>
         if Flexible(kind) then SoonerFirst(ps, now, true, i, j)
         else Rank(ps[i].tier) <= Rank(ps[j].tier) && (ps[i].tier == ps[j].tier ==> SoonerFirst(ps, now, false, i, j))
  }

  /** i is available sooner than j, or as soon and listed first. */
  predicate SoonerFirst(ps: seq<Provider>, now: int, flexible: bool, i: int, j: int)
    requires 0 <= i < |ps| && 0 <= j < |ps|
  {
    || FallbackScore(ps[i], now, flexible) < FallbackScore(ps[j], now, flexible)
    || (FallbackScore(ps[i], now, flexible) == FallbackScore(ps[j], now, flexible) && i <= j)
  }

  method ScanFallback(ps: seq<Provider>, now: int, kind: Class) returns (i: int)
    requires ps != []
    ensures Fallback(ps, now, kind, i)
  {
    i := -1;
    var bestTier := 99;
    var flexible := Flexible(kind);
    for k := 0 to |ps|
      invariant if k == 0 then i == -1 && bestTier == 99 else 0 <= i < k && (!flexible ==> Rank(ps[i].tier) == bestTier)
      invariant k > 0 ==> forall j :: 0 <= j < k ==>
        if flexible then SoonerFirst(ps, now, true, i, j)
        else Rank(ps[i].tier) <= Rank(ps[j].tier) && (ps[i].tier == ps[j].tier ==> SoonerFirst(ps, now, false, i, j))
    {
      var rank := Rank(ps[k].tier);
      if !flexible {
        if rank > bestTier { continue; }
        if rank < bestTier { bestTier, i := rank, -1; }
      }
      if i == -1 || FallbackScore(ps[k], now, flexible) < FallbackScore(ps[i], now, flexible) { i := k; }
    }
  }

  // ---------------------------------------------------------------- the client

  ghost predicate Someone(ps: seq<Provider>, now: int, strict: bool) {
    exists i :: 0 <= i < |ps| && Healthy(ps[i], BestBlock(ps), now, strict)
  }

  /** Meaning of the choice: best among the healthy out of probation, else among the healthy, else soonest. */
  ghost predicate Choice(ps: seq<Provider>, now: int, kind: Class, i: int) {
    if Someone(ps, now, true) then Chosen(ps, BestBlock(ps), now, true, kind, i)
    else if Someone(ps, now, false) then Chosen(ps, BestBlock(ps), now, false, kind, i)
    else Fallback(ps, now, kind, i)
  }

  /** If some provider is out of cooldown and not lagged, the chosen one is; and it is out of probation if
      such a provider exists. */
  lemma ChoiceIsHealthy(ps: seq<Provider>, now: int, kind: Class, i: int)
    requires Choice(ps, now, kind, i)
    ensures 0 <= i < |ps|
    ensures Someone(ps, now, false) ==> now >= ps[i].cooldownUntil && !Lagged(ps[i], BestBlock(ps), now)
    ensures Someone(ps, now, true) ==> now >= ps[i].probationUntil
    ensures Someone(ps, now, true) ==> Someone(ps, now, false)
  {
    if Someone(ps, now, true) {
      var j :| 0 <= j < |ps| && Healthy(ps[j], BestBlock(ps), now, true);
      assert Healthy(ps[j], BestBlock(ps), now, false);
    }
  }

  /** A critical read never spills: with somebody healthy it goes to the best healthy tier. */
  lemma CriticalKeepsTierOrder(ps: seq<Provider>, now: int, i: nat, j: nat)
    requires Someone(ps, now, true) && Choice(ps, now, Critical, i) && j < |ps|
        && Healthy(ps[j], BestBlock(ps), now, true)
    ensures i < |ps| && Rank(ps[i].tier) <= Rank(ps[j].tier)
    ensures ps[i].tier == ps[j].tier ==> Score(ps[i], now, false) <= Score(ps[j], now, false)
  { }

  /** Any other read goes to the best tier with a provider ready within 150 ms, or, when none is, to a tier with the
      shortest wait; within that tier to the least score. */
  lemma OtherReadsSpill(ps: seq<Provider>, now: int, kind: Class, i: nat, j: nat)
    requires kind != Critical && Someone(ps, now, true) && Choice(ps, now, kind, i)
    requires j < |ps| && Healthy(ps[j], BestBlock(ps), now, true)
    ensures i < |ps| && (ps[i].tier == ps[j].tier ==> Score(ps[i], now, true) <= Score(ps[j], now, true))
    ensures Wait(ps[j], now) <= 150_000_000 ==>
              && Rank(ps[i].tier) <= Rank(ps[j].tier)
              && exists k :: 0 <= k < |ps| && ps[k].tier == ps[i].tier && Wait(ps[k], now) <= 150_000_000
                             && Healthy(ps[k], BestBlock(ps), now, true)
    ensures (forall k :: 0 <= k < |ps| && Healthy(ps[k], BestBlock(ps), now, true) ==>
        Wait(ps[k], now) > 150_000_000) ==>
              exists k :: 0 <= k < |ps| && ps[k].tier == ps[i].tier && Healthy(ps[k], BestBlock(ps), now, true)
                          && Wait(ps[k], now) <= Wait(ps[j], now)
                          && (Wait(ps[k], now) == Wait(ps[j], now) ==> Rank(ps[k].tier) <= Rank(ps[j].tier))
  {
    assert Preferred(ps, BestBlock(ps), now, true, Rank(ps[i].tier));
    if Wait(ps[j], now) <= 150_000_000 {
      var k :| 0 <= k < |ps| && ReadyAt(ps[k], BestBlock(ps), now, true, Rank(ps[i].tier));
      assert ps[k].tier == ps[i].tier;
    } else if forall k :: 0 <= k < |ps| && Healthy(ps[k], BestBlock(ps), now, true) ==> Wait(ps[k], now) > 150_000_000 {
      var k :| 0 <= k < |ps| && Healthy(ps[k], BestBlock(ps), now, true) && Rank(ps[k].tier) == Rank(ps[i].tier)
               && forall l :: 0 <= l < |ps| && Healthy(ps[l], BestBlock(ps), now, true) ==> Sooner(ps[k], ps[l], now);
      assert ps[k].tier == ps[i].tier && Sooner(ps[k], ps[j], now);
    }
  }

  /** With nobody out of cooldown and in step, the choice falls on who is available soonest, slot and cooldown both
      over: a critical read asks for the best tier first, any other counts 75 ms for each tier. */
  lemma FallbackIsSoonest(ps: seq<Provider>, now: int, kind: Class, i: nat, j: nat)
    requires !Someone(ps, now, true) && !Someone(ps, now, false) && Choice(ps, now, kind, i) && j < |ps|
    ensures i < |ps|
    ensures var x := if ps[i].cooldownUntil - now > Wait(ps[i], now) then ps[i].cooldownUntil - now
        else Wait(ps[i], now);
            var y := if ps[j].cooldownUntil - now > Wait(ps[j], now) then ps[j].cooldownUntil - now
                else Wait(ps[j], now);
            if kind == Critical
            then Rank(ps[i].tier) <= Rank(ps[j].tier) && (ps[i].tier == ps[j].tier ==> x < y || (x == y && i <= j))
            else
              var u, v := x + 75_000_000 * Rank(ps[i].tier), y + 75_000_000 * Rank(ps[j].tier);
              u < v || (u == v && i <= j)
  { }

  /** Half a minute, doubled by every further rate limit in a row, up to four minutes. */
  function RateLimitCooldown(streak: nat): (c: int)
    ensures 30 * SECOND <= c <= 240 * SECOND
  {
    if streak <= 1 then 30 * SECOND else if streak == 2 then 60 * SECOND else if streak == 3 then 120 * SECOND
        else 240 * SECOND
  }

  /** It is 30 s at first, and doubles with each of the next three. */
  lemma CooldownDoubles(streak: nat)
    ensures streak <= 1 ==> RateLimitCooldown(streak) == 30 * SECOND
    ensures 1 <= streak < 4 ==> RateLimitCooldown(streak + 1) == 2 * RateLimitCooldown(streak)
    ensures streak >= 4 ==> RateLimitCooldown(streak + 1) == RateLimitCooldown(streak)
  { }

  /** The cooldown of a failure before the minimum for repeated failures. */
  function BaseCooldown(streak: nat, rateLimited: bool, quota: bool): int {
    if !rateLimited then 15 * SECOND else if quota then 6 * 3600 * SECOND else RateLimitCooldown(streak)
  }

  lemma BaseCooldownIs(streak: nat, quota: bool)
    ensures BaseCooldown(streak, false, quota) == 15_000_000_000
    ensures BaseCooldown(streak, true, true) == 21_600_000_000_000
    ensures BaseCooldown(streak, true, false) == RateLimitCooldown(streak)
  { }

  class Client {
    var providers: seq<Provider>
    var active: int

    /** Chooses, reserves a slot of the chosen provider, and says how long to wait. */
    method ChooseReadProvider(kind: Class, now: int) returns (index: int, delay: int)
      modifies this
      ensures old(providers) == [] ==> index == -1 && delay == 0 && providers == [] && active == old(active)
      ensures old(providers) != [] ==>
                && Choice(old(providers), now, kind, index) && active == index
                && var p := old(providers)[index];
                   && providers == old(providers)[index := p.(limiter := p.limiter.Reserve(now))]
                   && delay >= 0 && now + delay >= p.cooldownUntil && now + delay >= p.limiter.Slot(now)
                   && (now + delay == p.cooldownUntil || now + delay == p.limiter.Slot(now))
    {
      if providers == [] { return -1, 0; }
      var best := HighestBlock();
      index := Scan(providers, best, now, true, kind);
      if index == -1 { index := Scan(providers, best, now, false, kind); }
      if index == -1 { index := ScanFallback(providers, now, kind); }
      active := index;
      var p := providers[index];
      delay := p.limiter.Slot(now) - now;
      providers := providers[index := p.(limiter := p.limiter.Reserve(now))];
      if p.cooldownUntil - now > delay { delay := p.cooldownUntil - now; }
    }

    method HighestBlock() returns (best: nat)
      ensures best == BestBlock(providers)
    {
      best := 0;
      for k := 0 to |providers|
        invariant best == BestBlock(providers[..k])
      {
        assert providers[..k + 1][..k] == providers[..k];
        if providers[k].latestBlock > best { best := providers[k].latestBlock; }
      }
      assert providers[..|providers|] == providers;
    }

    method RecordRequest(i: nat)
      requires i < |providers|
      modifies this`providers
      ensures providers == old(providers)[i := old(providers)[i].(requests := old(providers)[i].requests + 1)]
    {
      providers := providers[i := providers[i].(requests := providers[i].requests + 1)];
    }

    /** A failure keeps the provider out for its cooldown, at least a minute from the third failure in a row, and
        on probation until a minute after the plain cooldown, so at least 15 seconds longer. */
    method RecordFailure(i: nat, now: int, rateLimited: bool, quota: bool) returns (cooldown: int)
      requires i < |providers|
      modifies this`providers
      ensures |providers| == |old(providers)| && forall j :: 0 <= j < |providers| && j != i ==>
          providers[j] == old(providers)[j]
      ensures var p, q := providers[i], old(providers)[i];
              var base := BaseCooldown(q.rateLimitStreak + 1, rateLimited, quota);
              && cooldown == (if q.consecutiveFailures + 1 >= 3 && base < 60 * SECOND then 60 * SECOND else base)
              && p == q.(consecutiveFailures := q.consecutiveFailures + 1, cooldownUntil := now + cooldown,
                         probationUntil := now + base + 60 * SECOND,
                         rateLimitStreak := if rateLimited then q.rateLimitStreak + 1 else q.rateLimitStreak,
                         recent429Until := if rateLimited then now + base + 120 * SECOND else q.recent429Until)
              && p.probationUntil >= p.cooldownUntil + 15 * SECOND && cooldown >= 15 * SECOND
    {
      var p := providers[i];
      p := p.(consecutiveFailures := p.consecutiveFailures + 1);
      cooldown := 15 * SECOND;
      if rateLimited {
        p := p.(rateLimitStreak := p.rateLimitStreak + 1);
        cooldown := RateLimitCooldown(p.rateLimitStreak);
        if quota { cooldown := 6 * 3600 * SECOND; }
        p := p.(recent429Until := now + cooldown + 120 * SECOND);
      }
      p := p.(cooldownUntil := now + cooldown, probationUntil := now + cooldown + 60 * SECOND);
      if p.consecutiveFailures >= 3 && p.cooldownUntil < now + 60 * SECOND {
        p := p.(cooldownUntil := now + 60 * SECOND);
      }
      cooldown := p.cooldownUntil - now;
      providers := providers[i := p];
    }
  }

  // ---------------------------------------------------------------- fairness over runs

  /** The providers, and for each how many choices of it have not been recorded yet. */
  datatype Fleet = Fleet(ps: seq<Provider>, waiting: seq<nat>)

  datatype Event = Choose(i: nat, now: int, kind: Class) | Record(i: nat) | Abandon(i: nat) | Change

  /** The members of the group keep their rates, requests and waiting choices; anything else may change. */
  ghost predicate SameGroup(f: Fleet, g: Fleet, group: set<nat>)
    requires |f.ps| == |f.waiting| == |g.ps| == |g.waiting|
  {
    forall i :: i in group && i < |f.ps| ==>
      g.ps[i].requests == f.ps[i].requests && g.ps[i].rps == f.ps[i].rps && g.waiting[i] == f.waiting[i]
  }

  /** The members of the group are healthy, of one tier, and their other score terms differ by at most `spread`. */
  ghost predicate Comparable(ps: seq<Provider>, group: set<nat>, now: int, kind: Class, spread: nat) {
    && (forall i :: i in group ==> i < |ps| && Healthy(ps[i], BestBlock(ps), now, true))
    && (forall i, j :: i in group && j in group ==>
          ps[i].tier == ps[j].tier
              && OtherTerms(ps[i], now, Flexible(kind)) - OtherTerms(ps[j], now, Flexible(kind)) <= spread)
  }

  /** What an event does to the group.  The rest of the fleet, of whatever tier and health, may do anything; the
      group must be comparable only when one of its members is chosen. */
  ghost predicate Step(f: Fleet, e: Event, g: Fleet, group: set<nat>, spread: nat) {
    |f.ps| == |f.waiting| == |g.ps| == |g.waiting| &&
    match e
    case Choose(i, now, kind) =>
      && Choice(f.ps, now, kind, i) && (i in group ==> Comparable(f.ps, group, now, kind, spread))
      && SameGroup(f.(waiting := f.waiting[i := f.waiting[i] + 1]), g, group)
    case Record(i) =>
      && i < |f.ps| && f.waiting[i] > 0
      && SameGroup(Fleet(f.ps[i := f.ps[i].(requests := f.ps[i].requests + 1)], f.waiting[i := f.waiting[i] - 1]), g,
          group)
    case Abandon(i) => i < |f.ps| && f.waiting[i] > 0
        && SameGroup(f.(waiting := f.waiting[i := f.waiting[i] - 1]), g, group)
    case Change => SameGroup(f, g, group)
  }

  /** The weight of one request, rounded up. */
  function Unit(rps: int): int
    requires rps > 0
  {
    (SECOND + rps - 1) / rps
  }

  lemma WeightStep(n: nat, rps: int)
    requires rps > 0
    ensures Weight(n, rps) <= Weight(n + 1, rps) <= Weight(n, rps) + Unit(rps)
  {
    assert (n + 1) * SECOND == n * SECOND + SECOND;
    FloorAdd(n * SECOND, SECOND, rps);
  }

  lemma {:induction false} WeightSteps(n: nat, m: nat, rps: int)
    requires rps > 0
    ensures Weight(n, rps) <= Weight(n + m, rps) <= Weight(n, rps) + m * Unit(rps)
    decreases m
  {
    if m > 0 {
      WeightSteps(n, m - 1, rps);
      WeightStep(n + m - 1, rps);
      assert m * Unit(rps) == (m - 1) * Unit(rps) + Unit(rps);
    }
  }

  /** Even counting the choices under way, no member's weighted requests run ahead of another member's recorded
      ones by more than the spread and `limit` requests. */
  ghost predicate Balanced(f: Fleet, group: set<nat>, spread: nat, limit: nat) {
    && |f.ps| == |f.waiting| && (forall i :: i in group ==> i < |f.ps| && f.ps[i].rps > 0)
    && forall i, j :: i in group && j in group ==> Close(f, spread, limit, i, j)
  }

  ghost predicate Close(f: Fleet, spread: nat, limit: nat, i: nat, j: nat)
    requires i < |f.ps| == |f.waiting| && j < |f.ps| && f.ps[i].rps > 0
  {
    Weight(f.ps[i].requests + f.waiting[i], f.ps[i].rps)
      <= Weight(f.ps[j].requests, f.ps[j].rps) + spread + limit * Unit(f.ps[i].rps)
  }

  /** p differs from q in one thing only, and there it is better. */
  ghost predicate Better(p: Provider, q: Provider) {
    || (p == q.(consecutiveFailures := p.consecutiveFailures) && p.consecutiveFailures < q.consecutiveFailures)
    || (p == q.(inflight := p.inflight) && p.inflight < q.inflight)
    || (p == q.(latency := p.latency) && p.latency + 20 <= q.latency)
  }

  lemma BetterScoresLess(p: Provider, q: Provider, now: int, flexible: bool)
    requires Better(p, q)
    ensures Score(p, now, flexible) < Score(q, now, flexible)
  {
    if p.latency + 20 <= q.latency { DivAdd(p.latency, q.latency - p.latency, 20); }
  }

  /** Of two healthy providers that differ only in failures, requests in flight or latency, the worse is not chosen. */
  lemma BetterIsPreferred(ps: seq<Provider>, now: int, kind: Class, i: nat, j: nat)
    requires i < |ps| && j < |ps| && Healthy(ps[i], BestBlock(ps), now, true) && Better(ps[i], ps[j])
    ensures !Choice(ps, now, kind, j)
  {
    BetterScoresLess(ps[i], ps[j], now, Flexible(kind));
    assert !Ahead(ps, now, Flexible(kind), j, i) && ps[i].tier == ps[j].tier;
  }

  /** Choosing a member means its recorded weight exceeds no other member's by more than the spread. */
  lemma ChosenIsLight(ps: seq<Provider>, group: set<nat>, now: int, kind: Class, spread: nat, i: nat, j: nat)
    requires Comparable(ps, group, now, kind, spread) && Choice(ps, now, kind, i) && i in group && j in group
    ensures Weight(ps[i].requests, ps[i].rps) <= Weight(ps[j].requests, ps[j].rps) + spread
  {
    assert Healthy(ps[j], BestBlock(ps), now, true);
    assert Chosen(ps, BestBlock(ps), now, true, kind, i);
    assert Ahead(ps, now, Flexible(kind), i, j);
  }

  lemma ChooseKeeps(f: Fleet, e: Event, g: Fleet, group: set<nat>, spread: nat, limit: nat, i: nat, j: nat)
    requires Balanced(f, group, spread, limit) && Step(f, e, g, group, spread) && e.Choose? && i in group && j in group
    requires FewWaiting(g, group, limit)
    ensures g.ps[i].rps > 0 && Close(g, spread, limit, i, j)
  {
    assert f.ps[i].requests == g.ps[i].requests && f.ps[i].rps == g.ps[i].rps;
    assert f.ps[j].requests == g.ps[j].requests && f.ps[j].rps == g.ps[j].rps;
    if i == e.i {
      ChosenIsLight(f.ps, group, e.now, e.kind, spread, i, j);
      WeightSteps(f.ps[i].requests, g.waiting[i], f.ps[i].rps);
      UnitPositive(f.ps[i].rps);
      MulMono(g.waiting[i], limit, Unit(f.ps[i].rps));
    } else {
      assert Close(f, spread, limit, i, j) && g.waiting[i] == f.waiting[i];
    }
  }

  lemma UnitPositive(rps: int)
    requires rps > 0
    ensures Unit(rps) >= 1
  {
    RoundUp(SECOND, rps);
    if SECOND / rps == 0 { QuotientIs(SECOND, 0, rps); }
  }

  /** A recorded or abandoned choice leaves at most the requests it counted before. */
  lemma OtherKeeps(f: Fleet, e: Event, g: Fleet, group: set<nat>, spread: nat, limit: nat, i: nat, j: nat)
    requires Balanced(f, group, spread, limit) && Step(f, e, g, group, spread) && !e.Choose? && i in group && j in group
    ensures g.ps[i].rps > 0 && Close(g, spread, limit, i, j)
  {
    assert Close(f, spread, limit, i, j) && f.ps[i].rps > 0 && f.ps[j].rps > 0;
    assert g.ps[i].rps == f.ps[i].rps && g.ps[j].rps == f.ps[j].rps;
    var a, b := g.ps[i].requests + g.waiting[i], f.ps[i].requests + f.waiting[i];
    assert a == b || a + 1 == b;
    if a + 1 == b { WeightStep(a, f.ps[i].rps); }
    if g.ps[j].requests == f.ps[j].requests + 1 { WeightStep(f.ps[j].requests, f.ps[j].rps); }
  }

  ghost predicate Run(fs: seq<Fleet>, es: seq<Event>, group: set<nat>, spread: nat, limit: nat) {
    && |fs| == |es| + 1 && Balanced(fs[0], group, spread, limit)
    && (forall t :: 0 <= t < |fs| ==> FewWaiting(fs[t], group, limit))
    && forall t :: 0 <= t < |es| ==> Step(fs[t], es[t], fs[t + 1], group, spread)
  }

  ghost predicate FewWaiting(f: Fleet, group: set<nat>, limit: nat) {
    forall k :: k in group && k < |f.waiting| ==> f.waiting[k] <= limit
  }

  /** Weighted fairness: in a fleet of any tiers and health, take a group that is healthy, of one tier and within
      the spread whenever one of its members is chosen.  Over every run in which at most `limit` choices of a
      member await recording, the weighted request counts of any two members stay within the spread plus `limit`
      requests' weight.  One caller at a time has limit 1. */
  lemma {:induction false} WeightsStayClose(fs: seq<Fleet>, es: seq<Event>, group: set<nat>, spread: nat, limit: nat)
    requires Run(fs, es, group, spread, limit)
    ensures Balanced(fs[|es|], group, spread, limit)
    decreases |es|
  {
    if es != [] {
      var n := |es| - 1;
      assert Run(fs[..n + 1], es[..n], group, spread, limit);
      WeightsStayClose(fs[..n + 1], es[..n], group, spread, limit);
      var f, e, g := fs[n], es[n], fs[n + 1];
      assert Step(f, e, g, group, spread) && FewWaiting(g, group, limit);
      forall i, j | i in group && j in group
          ensures i < |g.ps| && j < |g.ps| && g.ps[i].rps > 0 && Close(g, spread, limit, i, j) {
        if e.Choose? {
          ChooseKeeps(f, e, g, group, spread, limit, i, j);
        } else {
          OtherKeeps(f, e, g, group, spread, limit, i, j);
        }
      }
    }
  }

  // ---------------------------------------------------------------- the bound is reached

  /** A provider as the client builds it. */
  function NewProvider(tier: Tier, rps: int, burst: int, maxLag: int): Provider {
    Provider(tier, rps, maxLag, 0, 0, 0, 0, None, 0, 0, 0, 0, 0, NewLimiter(rps, burst))
  }

  ghost predicate IsNew(p: Provider) { exists burst :: p == NewProvider(p.tier, p.rps, burst, p.maxLag) }

  ghost predicate NewFleet(f: Fleet, group: set<nat>) {
    && |f.ps| == |f.waiting| && (forall i :: 0 <= i < |f.ps| ==> IsNew(f.ps[i]) && f.waiting[i] == 0)
    && forall i :: i in group ==> i < |f.ps| && f.ps[i].rps > 0
  }

  /** What the client's methods do to the whole fleet: a choice reserves a slot, a record counts a request, and
      everything else leaves tiers, rates, limiters and counts alone. */
  ghost predicate Effect(f: Fleet, e: Event, g: Fleet)
    requires |f.ps| == |f.waiting|
  {
    match e
    case Choose(i, now, kind) =>
      && i < |f.ps|
      && g == Fleet(f.ps[i := f.ps[i].(limiter := f.ps[i].limiter.Reserve(now))], f.waiting[i := f.waiting[i] + 1])
    case Record(i) =>
      && i < |f.ps| && f.waiting[i] > 0
      && g == Fleet(f.ps[i := f.ps[i].(requests := f.ps[i].requests + 1)], f.waiting[i := f.waiting[i] - 1])
    case Abandon(i) => i < |f.ps| && f.waiting[i] > 0 && g == f.(waiting := f.waiting[i := f.waiting[i] - 1])
    case Change =>
      && |g.ps| == |f.ps| && g.waiting == f.waiting
      && forall i :: 0 <= i < |f.ps| ==>
           && g.ps[i].tier == f.ps[i].tier && g.ps[i].rps == f.ps[i].rps
           && g.ps[i].limiter == f.ps[i].limiter && g.ps[i].requests == f.ps[i].requests
  }

  ghost predicate ClientStep(f: Fleet, e: Event, g: Fleet, group: set<nat>, spread: nat) {
    Step(f, e, g, group, spread) && Effect(f, e, g)
  }

  /** A run of a new client: every step is what the code does, and the clock never goes back. */
  ghost predicate ClientRun(fs: seq<Fleet>, es: seq<Event>, group: set<nat>, spread: nat, limit: nat) {
    && |fs| == |es| + 1 && NewFleet(fs[0], group)
    && (forall t :: 0 <= t < |fs| ==> FewWaiting(fs[t], group, limit))
    && (forall t :: 0 <= t < |es| ==> ClientStep(fs[t], es[t], fs[t + 1], group, spread))
    && forall s, t :: 0 <= s < t < |es| && es[s].Choose? && es[t].Choose? ==> es[s].now <= es[t].now
  }

  lemma NewIsBalanced(f: Fleet, group: set<nat>, spread: nat, limit: nat)
    requires NewFleet(f, group)
    ensures Balanced(f, group, spread, limit)
  {
    forall i, j | i in group && j in group ensures Close(f, spread, limit, i, j) {
      UnitPositive(f.ps[i].rps);
      NothingSent(f, spread, limit, i, j);
    }
  }

  lemma NothingSent(f: Fleet, spread: nat, limit: nat, i: nat, j: nat)
    requires i < |f.ps| == |f.waiting| && j < |f.ps| && f.ps[i].rps > 0 && Unit(f.ps[i].rps) > 0
    requires f.ps[i].requests == f.waiting[i] == f.ps[j].requests == 0
    ensures Close(f, spread, limit, i, j)
  {
    assert limit * Unit(f.ps[i].rps) >= 0;
    assert 0 / f.ps[i].rps == 0;
  }

  /** Provider 0 of rate 1 after `slots` choices and `requests` recorded ones; provider 1 is never chosen. */
  function Used(slots: nat, requests: nat): Provider {
    NewProvider(Premium, 1, 1, 0).(requests := requests,
      limiter := Limiter(SECOND, 1, if slots == 0 then None else Some(slots * SECOND)))
  }

  /** First `limit` callers choose the first of two tied providers, one a second, then all of them record. */
  function FleetAt(limit: nat, t: nat): Fleet
    requires t <= 2 * limit
  {
    if t <= limit then Fleet([Used(t, 0), Used(0, 0)], [t, 0])
    else Fleet([Used(limit, t - limit), Used(0, 0)], [2 * limit - t, 0])
  }

  function EventAt(limit: nat, t: nat): Event {
    if t < limit then Choose(0, t * SECOND, Standard) else Record(0)
  }

  /** Two ready providers of the first tier with nothing recorded and nothing against them: the first is chosen. */
  ghost predicate Unused(p: Provider, now: int) {
    && p.tier == Premium && p.rps == 1 && p.requests == 0 && p.latestBlock == 0
    && now >= p.cooldownUntil && now >= p.probationUntil && Wait(p, now) == 0 && OtherTerms(p, now, true) == 0
  }

  lemma FirstOfTwo(p: Provider, q: Provider, now: int)
    requires Unused(p, now) && Unused(q, now)
    ensures Comparable([p, q], {0, 1}, now, Standard, 0) && Choice([p, q], now, Standard, 0)
  {
    var ps := [p, q];
    assert BestBlock(ps) == 0 by { assert ps[..1] == [p] && BestBlock([p]) == 0; }
    assert Healthy(ps[0], 0, now, true) && Healthy(ps[1], 0, now, true);
    assert ReadyAt(ps[0], 0, now, true, 0);
    assert Preferred(ps, 0, now, true, 0);
    assert Chosen(ps, 0, now, true, Standard, 0);
  }

  /** The slot reserved last is over when the next caller chooses, so the two providers tie again. */
  lemma StillTied(t: nat)
    ensures Unused(Used(t, 0), t * SECOND) && Unused(Used(0, 0), t * SECOND)
    ensures Used(t, 0).limiter.Reserve(t * SECOND) == Used(t + 1, 0).limiter
  {
    assert (t + 1) * SECOND == t * SECOND + SECOND;
  }

  lemma ChooseFirst(t: nat, w: nat)
    ensures var f, g := Fleet([Used(t, 0), Used(0, 0)], [w, 0]), Fleet([Used(t + 1, 0), Used(0, 0)], [w + 1, 0]);
            Step(f, Choose(0, t * SECOND, Standard), g, {0, 1}, 0) && Effect(f, Choose(0, t * SECOND, Standard), g)
  {
    StillTied(t);
    FirstOfTwo(Used(t, 0), Used(0, 0), t * SECOND);
    assert [w, 0][0 := w + 1] == [w + 1, 0];
    assert [Used(t, 0), Used(0, 0)][0 := Used(t + 1, 0)] == [Used(t + 1, 0), Used(0, 0)];
  }

  lemma RecordFirst(slots: nat, n: nat, w: nat)
    ensures var f, g :=
        Fleet([Used(slots, n), Used(0, 0)], [w + 1, 0]), Fleet([Used(slots, n + 1), Used(0, 0)], [w, 0]);
            Step(f, Record(0), g, {0, 1}, 0) && Effect(f, Record(0), g)
  {
    assert [w + 1, 0][0 := w] == [w, 0];
    assert [Used(slots, n), Used(0, 0)][0 := Used(slots, n + 1)] == [Used(slots, n + 1), Used(0, 0)];
  }

  lemma FleetSteps(limit: nat, t: nat)
    requires t < 2 * limit
    ensures Step(FleetAt(limit, t), EventAt(limit, t), FleetAt(limit, t + 1), {0, 1}, 0)
    ensures Effect(FleetAt(limit, t), EventAt(limit, t), FleetAt(limit, t + 1))
  {
    if t < limit { ChooseFirst(t, t); } else { RecordFirst(limit, t - limit, 2 * limit - t - 1); }
  }

  ghost function Fleets(limit: nat): seq<Fleet> {
    seq(2 * limit + 1, t requires 0 <= t < 2 * limit + 1 => FleetAt(limit, t))
  }

  ghost function Events(limit: nat): seq<Event> { seq(2 * limit, t requires 0 <= t < 2 * limit => EventAt(limit, t)) }

  lemma StartsNew(limit: nat)
    ensures NewFleet(FleetAt(limit, 0), {0, 1})
  {
    assert Used(0, 0) == NewProvider(Premium, 1, 1, 0);
  }

  lemma FewWaitingAt(limit: nat, t: nat)
    requires t <= 2 * limit
    ensures FewWaiting(Fleets(limit)[t], {0, 1}, limit)
  { }

  lemma StepAt(limit: nat, t: nat)
    requires t < 2 * limit
    ensures ClientStep(Fleets(limit)[t], Events(limit)[t], Fleets(limit)[t + 1], {0, 1}, 0)
  {
    FleetSteps(limit, t);
  }

  lemma EventsInOrder(limit: nat, s: nat, t: nat)
    requires s < t < 2 * limit && Events(limit)[s].Choose? && Events(limit)[t].Choose?
    ensures Events(limit)[s].now <= Events(limit)[t].now
  {
    MulMono(s, t, SECOND);
  }

  lemma FleetsRun(limit: nat)
    ensures ClientRun(Fleets(limit), Events(limit), {0, 1}, 0, limit)
  {
    StartsNew(limit);
    var fs, es := Fleets(limit), Events(limit);
    forall t | 0 <= t < |fs| ensures FewWaiting(fs[t], {0, 1}, limit) { FewWaitingAt(limit, t); }
    forall t | 0 <= t < |es| ensures ClientStep(fs[t], es[t], fs[t + 1], {0, 1}, 0) { StepAt(limit, t); }
    forall s, t | 0 <= s < t < |es| && es[s].Choose? && es[t].Choose? ensures es[s].now <= es[t].now {
      EventsInOrder(limit, s, t);
    }
  }

  lemma WeightAtOne(limit: nat)
    ensures Weight(limit, 1) == limit * Unit(1) && Weight(0, 1) == 0
  {}

  /** The bound is reached for every limit by a run the client can make: a choice and its recording are separate
      steps, and the choices in between see the old count. */
  lemma DriftIsTight(limit: nat) returns (fs: seq<Fleet>, es: seq<Event>)
    ensures ClientRun(fs, es, {0, 1}, 0, limit)
    ensures var f := fs[|es|];
            && |f.ps| == 2 && f.waiting == [0, 0] && f.ps[0].rps == f.ps[1].rps == 1
            && Weight(f.ps[0].requests, f.ps[0].rps) - Weight(f.ps[1].requests, f.ps[1].rps) == limit * Unit(1)
  {
    FleetsRun(limit);
    fs, es := Fleets(limit), Events(limit);
    assert fs[|es|] == FleetAt(limit, 2 * limit);
    WeightAtOne(limit);
  }

  /** The members' weighted requests are within the spread and one request. */
  ghost predicate Fair(f: Fleet, group: set<nat>, spread: nat) {
    forall i, j :: i in group && j in group ==>
      && i < |f.ps| && j < |f.ps| && f.ps[i].rps > 0
      && Weight(f.ps[i].requests, f.ps[i].rps) <= Weight(f.ps[j].requests, f.ps[j].rps) + spread + Unit(f.ps[i].rps)
  }

  lemma BalancedIsFair(f: Fleet, group: set<nat>, spread: nat, limit: nat)
    requires Balanced(f, group, spread, limit) && limit <= 1
    ensures Fair(f, group, spread)
  {
    forall i, j | i in group && j in group
      ensures Weight(f.ps[i].requests, f.ps[i].rps) <= Weight(f.ps[j].requests,
          f.ps[j].rps) + spread + Unit(f.ps[i].rps)
    {
      assert Close(f, spread, limit, i, j);
      WeightSteps(f.ps[i].requests, f.waiting[i], f.ps[i].rps);
      UnitPositive(f.ps[i].rps);
      assert limit * Unit(f.ps[i].rps) <= Unit(f.ps[i].rps);
    }
  }

  /** The exact condition: over every run of a new client, any group stays within its spread and one request's
      weight iff at most one choice of a member awaits recording at a time. */
  lemma FairIffOneAtATime(limit: nat)
    ensures (forall fs, es, group, spread | ClientRun(fs, es, group, spread, limit) :: Fair(fs[|es|], group, spread))
       <==> limit <= 1
  {
    if limit <= 1 {
      forall fs, es, group, spread | ClientRun(fs, es, group, spread, limit) ensures Fair(fs[|es|], group, spread) {
        NewIsBalanced(fs[0], group, spread, limit);
        WeightsStayClose(fs, es, group, spread, limit);
        BalancedIsFair(fs[|es|], group, spread, limit);
      }
    } else {
      var fs, es := DriftIsTight(limit);
      UnitPositive(1);
      MulMono(2, limit, Unit(1));
      assert 0 in {0, 1} && 1 in {0, 1};
      assert !Fair(fs[|es|], {0, 1}, 0);
    }
  }
}
