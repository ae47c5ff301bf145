/** Virtual-time pacing of RPC calls (go/internal/rpc/client.go).

    Times are integers in nanoseconds.  Every operation takes the clock reading it would
    have obtained from `time.Now()`, so a run is a sequence of clock readings. */
module Pacing {

  import opened Arith
  import opened Options

  const SECOND: int := 1_000_000_000
  const MINUTE: int := 60 * SECOND

  // ---------------------------------------------------------------- shared vocabulary

  /** A sequence of clock readings that never goes back. */
  ghost predicate NonDecreasing(s: seq<int>) {
    forall i, j :: 0 <= i < j < |s| ==> s[i] <= s[j]
  }

  /** How many entries of `s` lie in the closed window [lo, hi]. */
  ghost function CountIn(s: seq<int>, lo: int, hi: int): nat {
    if s == [] then 0 else CountIn(s[..|s| - 1], lo, hi) + (if lo <= s[|s| - 1] <= hi then 1 else 0)
  }

  lemma {:induction false} CountInDropFirst(s: seq<int>, lo: int, hi: int)
    requires s != []
    ensures CountIn(s, lo, hi) == (if lo <= s[0] <= hi then 1 else 0) + CountIn(s[1..], lo, hi)
  {
    if |s| == 1 {
      assert s[..0] == [] && s[1..] == [];
    } else {
      CountInDropFirst(s[..|s| - 1], lo, hi);
      assert s[..|s| - 1][1..] == s[1..][..|s| - 2];
    }
  }

  // ---------------------------------------------------------------- rate limiter

  /** The limiter's state: `next` is None while the Go field holds the zero time. */
  datatype Limiter = Limiter(interval: nat, burst: nat, next: Option<int>) {
    ghost predicate Enabled() { interval > 0 && burst >= 1 }

    /** The virtual start time the reservation made at `now` is measured from. */
    function Base(now: int): int {
      if next.None? || now > next.value + (burst - 1) * interval
      then now - (burst - 1) * interval else next.value
    }

    function Reserve(now: int): Limiter {
      if interval == 0 then this else this.(next := Some(Base(now) + interval))
    }

    /** The instant at which the call reserved at `now` may leave. */
    function Slot(now: int): int {
      if interval == 0 || Base(now) <= now then now else Base(now)
    }
  }

  /** The limiter for a rate: none without a rate, and a burst of one or two. */
  function NewLimiter(maxRPS: int, burst: int): Limiter {
    if maxRPS <= 0 then Limiter(0, 0, None)
    else Limiter(SECOND / maxRPS, if burst < 1 then 1 else if burst > 2 then 2 else burst, None)
  }

  /** The slots handed out to a whole run of reservations. */
  ghost function Slots(l: Limiter, times: seq<int>): (slots: seq<int>)
    ensures |slots| == |times|
    decreases |times|
  {
    if times == [] then [] else [l.Slot(times[0])] + Slots(l.Reserve(times[0]), times[1..])
  }

  class RateLimiter {
    const interval: nat
    const burst: nat
    var next: Option<int>

    ghost function State(): Limiter reads this { Limiter(interval, burst, next) }

    constructor (maxRPS: int, burst: int)
      ensures this.interval == (if maxRPS <= 0 then 0 else SECOND / maxRPS)
      ensures maxRPS <= 0 ==> this.burst == 0
      ensures maxRPS > 0 ==> this.burst == if burst < 1 then 1 else if burst > 2 then 2 else burst
      ensures next == None && State() == NewLimiter(maxRPS, burst)
    {
      interval := if maxRPS <= 0 then 0 else SECOND / maxRPS;
      this.burst := if maxRPS <= 0 then 0 else if burst < 1 then 1 else if burst > 2 then 2 else burst;
      next := None;
    }

    method ReserveDelay(now: int) returns (wait: nat)
      modifies this
      ensures State() == old(State()).Reserve(now)
      ensures now + wait == old(State()).Slot(now)
    {
      if interval == 0 { return 0; }
      var burstWindow := (burst - 1) * interval;
      if next.None? || now > next.value + burstWindow {
        next := Some(now - burstWindow);
      }
      wait := if next.value - now > 0 then next.value - now else 0;
      next := Some(next.value + interval);
    }

    /** The wait a reservation would see, without reserving (`time.Until(next)`). */
    method Delay(now: int) returns (wait: nat)
      ensures interval == 0 || next.None? ==> wait == 0
      ensures interval > 0 && next.Some? ==> wait == (if next.value > now then next.value - now else 0)
    {
      if interval == 0 || next.None? { return 0; }
      wait := if next.value - now > 0 then next.value - now else 0;
    }
  }

  lemma OneMore(k: nat, m: nat)
    ensures (k - 1) * m + m == k * m
  { }

  /** Once started, the k-th slot of a run cannot precede the virtual clock by k intervals. */
  lemma {:induction false} SlotsAboveVirtualClock(l: Limiter, times: seq<int>, k: nat)
    requires l.Enabled() && l.next.Some? && k < |times|
    ensures Slots(l, times)[k] >= l.next.value + k * l.interval
    decreases |times|
  {
    assert (l.burst - 1) * l.interval >= 0;
    if k > 0 {
      var l' := l.Reserve(times[0]);
      SlotsAboveVirtualClock(l', times[1..], k - 1);
      assert Slots(l, times)[k] == Slots(l', times[1..])[k - 1];
      assert l'.next.value >= l.next.value + l.interval && l'.interval == l.interval;
      OneMore(k, l.interval);
    }
  }

  lemma FirstSlot(l: Limiter, now: int)
    requires l.Enabled()
    ensures l.Slot(now) <= l.Base(now) + (l.burst - 1) * l.interval
  {
    assert (l.burst - 1) * l.interval >= 0;
  }

  lemma Expand(j: int, burst: int, interval: int)
    ensures (j + 1 - burst) * interval == (j - 1) * interval + interval - (burst - 1) * interval
  {
    assert (j + 1 - burst) * interval == j * interval - (burst - 1) * interval;
    assert j * interval == (j - 1) * interval + interval;
  }

  lemma SpanFromFirst(l: Limiter, times: seq<int>, j: nat)
    requires l.Enabled() && j < |times|
    ensures Slots(l, times)[j] - Slots(l, times)[0] >= (j + 1 - l.burst) * l.interval
  {
    var l' := l.Reserve(times[0]);
    FirstSlot(l, times[0]);
    Expand(j, l.burst, l.interval);
    if j > 0 {
      SlotsAboveVirtualClock(l', times[1..], j - 1);
      assert Slots(l, times)[j] == Slots(l', times[1..])[j - 1];
    } else {
      assert (l.burst - 1) * l.interval >= 0;
    }
  }

  /** Pacing: any n consecutive slots span at least n - burst intervals, whatever the clock does. */
  lemma {:induction false} ConsecutiveSlotsSpan(l: Limiter, times: seq<int>, i: nat, j: nat)
    requires l.Enabled() && i <= j < |times|
    ensures Slots(l, times)[j] - Slots(l, times)[i] >= (j - i + 1 - l.burst) * l.interval
    decreases |times|
  {
    if i == 0 {
      SpanFromFirst(l, times, j);
    } else {
      var l' := l.Reserve(times[0]);
      var rest := times[1..];
      ConsecutiveSlotsSpan(l', rest, i - 1, j - 1);
      assert (j - 1) - (i - 1) + 1 - l.burst == j - i + 1 - l.burst;
      assert Slots(l, times)[j] == Slots(l', rest)[j - 1];
      assert Slots(l, times)[i] == Slots(l', rest)[i - 1];
    }
  }

  /** With a clock that never goes back the slots are handed out in order. */
  lemma {:induction false} SlotsInOrder(l: Limiter, times: seq<int>)
    requires l.Enabled() && NonDecreasing(times)
    ensures NonDecreasing(Slots(l, times))
    ensures times != [] ==> forall k :: 0 <= k < |times| ==> Slots(l, times)[k] >= l.Slot(times[0])
    decreases |times|
  {
    if times != [] {
      var l' := l.Reserve(times[0]);
      var rest := Slots(l', times[1..]);
      SlotsInOrder(l', times[1..]);
      if |times| > 1 {
        assert (l.burst - 1) * l.interval >= 0;
        assert l'.Slot(times[1]) >= l.Slot(times[0]);
        assert times[1..][0] == times[1];
        assert forall k :: 0 <= k < |rest| ==> rest[k] >= l.Slot(times[0]);
      }
    }
  }

  ghost predicate Spaced(s: seq<int>, interval: nat, burst: nat) {
    forall i, j :: 0 <= i <= j < |s| ==> s[j] - s[i] >= (j - i + 1 - burst) * interval
  }

  /** The first and last entry of a window are at least as far apart as the entries it holds. */
  lemma {:induction false} WindowSpan(s: seq<int>, lo: int, hi: int) returns (i: nat, j: nat)
    requires CountIn(s, lo, hi) > 0
    ensures i <= j < |s| && lo <= s[i] && s[j] <= hi && CountIn(s, lo, hi) <= j - i + 1
  {
    var last := |s| - 1;
    if CountIn(s[..last], lo, hi) == 0 { return last, last; }
    i, j := WindowSpan(s[..last], lo, hi);
    if lo <= s[last] <= hi { j := last; }
  }

  lemma SpacedWindow(s: seq<int>, interval: nat, burst: nat, lo: int, width: nat)
    requires Spaced(s, interval, burst)
    ensures (CountIn(s, lo, lo + width) - burst) * interval <= width
  {
    var count := CountIn(s, lo, lo + width);
    if count == 0 {
      MulMono(0 - burst, 0, interval);
    } else {
      var i, j := WindowSpan(s, lo, lo + width);
      MulMono(count - burst, j - i + 1 - burst, interval);
      assert s[j] - s[i] >= (j - i + 1 - burst) * interval;
    }
  }

  /** Any closed window of length `width` holds at most width / interval + burst slots, whatever the clock does. */
  lemma WindowHoldsFewSlots(l: Limiter, times: seq<int>, lo: int, width: nat)
    requires l.Enabled()
    ensures CountIn(Slots(l, times), lo, lo + width) <= width / l.interval + l.burst
  {
    var s := Slots(l, times);
    forall i, j | 0 <= i <= j < |s| ensures s[j] - s[i] >= (j - i + 1 - l.burst) * l.interval {
      ConsecutiveSlotsSpan(l, times, i, j);
    }
    SpacedWindow(s, l.interval, l.burst, lo, width);
    DivideBound(CountIn(s, lo, lo + width) - l.burst, l.interval, width);
  }

  lemma DivideBound(n: int, k: nat, w: nat)
    requires k > 0 && n * k <= w
    ensures n <= w / k
  {
    assert (w / k + 1) * k == (w / k) * k + k;
    if n > w / k { MulMono(w / k + 1, n, k); }
  }

  // ---------------------------------------------------------------- per-minute budget

  /** The log with every entry older than `cutoff` at its front removed. */
  function Prune(calls: seq<int>, cutoff: int): seq<int> {
    if calls != [] && calls[0] < cutoff then Prune(calls[1..], cutoff) else calls
  }

  predicate Allowed(limit: nat, calls: seq<int>, now: int) {
    |Prune(calls, now - MINUTE)| < limit
  }

  function AfterAllow(limit: nat, calls: seq<int>, now: int): seq<int> {
    Prune(calls, now - MINUTE) + (if Allowed(limit, calls, now) then [now] else [])
  }

  class MinuteBudget {
    const limit: nat
    var calls: seq<int>

    constructor (limit: nat)
      requires limit > 0   // newMinuteBudget returns nil, no budget at all, for limit <= 0
      ensures this.limit == limit && calls == []
    {
      this.limit := limit;
      calls := [];
    }

    method Allow(now: int) returns (ok: bool)
      modifies this
      ensures ok == Allowed(limit, old(calls), now)
      ensures calls == AfterAllow(limit, old(calls), now)
    {
      var cutoff := now - MINUTE;
      var i := 0;
      while i < |calls| && calls[i] < cutoff
        invariant 0 <= i <= |calls|
        invariant Prune(calls, cutoff) == Prune(calls[i..], cutoff)
      {
        assert calls[i..][1..] == calls[i + 1..];
        i := i + 1;
      }
      calls := calls[i..];
      if |calls| >= limit { return false; }
      calls := calls + [now];
      ok := true;
    }
  }

  /** The budget's log after a run of `Allow` calls, and every grant it ever gave. */
  ghost function Log(limit: nat, times: seq<int>): seq<int> {
    if times == [] then []
    else AfterAllow(limit, Log(limit, times[..|times| - 1]), times[|times| - 1])
  }

  ghost function Grants(limit: nat, times: seq<int>): seq<int> {
    if times == [] then []
    else
      var before, now := times[..|times| - 1], times[|times| - 1];
      Grants(limit, before) + (if Allowed(limit, Log(limit, before), now) then [now] else [])
  }

  /** Pruning an ordered log keeps exactly its part from the cutoff on. */
  lemma {:induction false} PruneKeepsRecent(calls: seq<int>, cutoff: int, hi: int)
    requires NonDecreasing(calls) && forall i :: 0 <= i < |calls| ==> calls[i] <= hi
    ensures |Prune(calls, cutoff)| == CountIn(calls, cutoff, hi)
    ensures NonDecreasing(Prune(calls, cutoff))
    ensures forall i :: 0 <= i < |Prune(calls, cutoff)| ==> cutoff <= Prune(calls, cutoff)[i] <= hi
  {
    if calls != [] {
      CountInDropFirst(calls, cutoff, hi);
      PruneKeepsRecent(calls[1..], cutoff, hi);
      if calls[0] >= cutoff {
        assert forall i :: 0 <= i < |calls| ==> cutoff <= calls[i];
        assert Prune(calls[1..], cutoff) == calls[1..];
      }
    }
  }

  /** Pruning twice with growing cutoffs is pruning once: forgetting old grants is harmless. */
  lemma {:induction false} PruneCompose(calls: seq<int>, earlier: int, cutoff: int)
    requires earlier <= cutoff
    ensures Prune(Prune(calls, earlier), cutoff) == Prune(calls, cutoff)
  {
    if calls != [] && calls[0] < earlier { PruneCompose(calls[1..], earlier, cutoff); }
  }

  lemma {:induction false} PruneAppend(calls: seq<int>, now: int, cutoff: int)
    requires NonDecreasing(calls + [now]) && cutoff <= now
    ensures Prune(calls + [now], cutoff) == Prune(calls, cutoff) + [now]
  {
    if calls != [] && calls[0] < cutoff {
      assert (calls + [now])[1..] == calls[1..] + [now];
      assert NonDecreasing(calls[1..] + [now]);
      PruneAppend(calls[1..], now, cutoff);
    } else {
      assert (calls + [now])[0] == if calls == [] then now else calls[0];
    }
  }

  /** One call: if the log was the pruned history, it is so again. */
  lemma AllowKeepsAgreement(limit: nat, past: seq<int>, calls: seq<int>, before: Option<int>, now: int)
    requires NonDecreasing(past + [now])
    requires if before.Some? then before.value <= now && calls == Prune(past, before.value - MINUTE)
        else past == calls == []
    ensures AfterAllow(limit, calls, now)
        == Prune(past + (if Allowed(limit, calls, now) then [now] else []), now - MINUTE)
  {
    var cutoff := now - MINUTE;
    if before.Some? { PruneCompose(past, before.value - MINUTE, cutoff); }
    assert Prune(calls, cutoff) == Prune(past, cutoff);
    if Allowed(limit, calls, now) {
      PruneAppend(past, now, cutoff);
    } else {
      assert past + [] == past && Prune(past, cutoff) + [] == Prune(past, cutoff);
    }
  }

  lemma AppendLater(past: seq<int>, now: int)
    requires NonDecreasing(past) && forall i :: 0 <= i < |past| ==> past[i] <= now
    ensures NonDecreasing(past + [now])
  {}

  /** The grants of a run with a clock that never goes back are in order and not in the future. */
  lemma {:induction false} GrantsInOrder(limit: nat, times: seq<int>)
    requires NonDecreasing(times)
    ensures NonDecreasing(Grants(limit, times))
    ensures times != [] ==> forall i :: 0 <= i < |Grants(limit, times)| ==>
        Grants(limit, times)[i] <= times[|times| - 1]
  {
    if times != [] {
      var before, now := times[..|times| - 1], times[|times| - 1];
      GrantsInOrder(limit, before);
      if before == [] { assert Grants(limit, before) == []; } else { assert before[|before| - 1] <= now; }
      var past := Grants(limit, before);
      assert forall i :: 0 <= i < |past| ==> past[i] <= now;
      AppendLater(past, now);
      assert past + [] == past;
    }
  }

  /** The pruned log agrees with the full history over every run with a clock that never goes back. */
  lemma {:induction false} LogAgreesWithHistory(limit: nat, times: seq<int>)
    requires NonDecreasing(times)
    ensures NonDecreasing(Grants(limit, times))
    ensures times != [] ==> forall i :: 0 <= i < |Grants(limit, times)| ==>
        Grants(limit, times)[i] <= times[|times| - 1]
    ensures times == [] ==> Grants(limit, times) == []
    ensures times != [] ==> Log(limit, times) == Prune(Grants(limit, times), times[|times| - 1] - MINUTE)
  {
    GrantsInOrder(limit, times);
    if times != [] {
      var before, now := times[..|times| - 1], times[|times| - 1];
      LogAgreesWithHistory(limit, before);
      var past := Grants(limit, before);
      assert before != [] ==> before[|before| - 1] <= now;
      assert forall i :: 0 <= i < |past| ==> past[i] <= now;
      AppendLater(past, now);
      AllowKeepsAgreement(limit, past, Log(limit, before), if before == [] then None
          else Some(before[|before| - 1]), now);
    }
  }

  lemma AppendOrdered(times: seq<int>, now: int)
    requires NonDecreasing(times + [now])
    ensures NonDecreasing(times) && forall i :: 0 <= i < |times| ==> times[i] <= now
  {
    var all := times + [now];
    assert all[..|times|] == times && all[|times|] == now;
    forall i | 0 <= i < |times| ensures times[i] <= now {
      assert all[i] <= all[|times|];
    }
    forall i, j | 0 <= i < j < |times| ensures times[i] <= times[j] {
      assert all[i] <= all[j];
    }
  }

  /** Refusal is exact: the call at `now` is refused iff `limit` grants lie in the last minute. */
  lemma RefusedExactlyWhenFull(limit: nat, times: seq<int>, now: int)
    requires NonDecreasing(times + [now])
    ensures Allowed(limit, Log(limit, times), now) <==> CountIn(Grants(limit, times), now - MINUTE, now) < limit
  {
    AppendOrdered(times, now);
    LogAgreesWithHistory(limit, times);
    var past := Grants(limit, times);
    PruneKeepsRecent(past, now - MINUTE, now);
    if times != [] { PruneCompose(past, times[|times| - 1] - MINUTE, now - MINUTE); }
  }

  lemma CountInAppend(s: seq<int>, x: int, lo: int, hi: int)
    ensures CountIn(s + [x], lo, hi) == CountIn(s, lo, hi) + (if lo <= x <= hi then 1 else 0)
  {
    assert (s + [x])[..|s|] == s;
  }

  lemma {:induction false} CountInWiden(s: seq<int>, lo: int, hi: int, lo': int, hi': int)
    requires lo' <= lo && forall i :: 0 <= i < |s| ==> s[i] <= hi'
    ensures CountIn(s, lo, hi) <= CountIn(s, lo', hi')
  {
    if s != [] { CountInWiden(s[..|s| - 1], lo, hi, lo', hi'); }
  }

  lemma GrantFits(limit: nat, before: seq<int>, now: int, lo: int)
    requires NonDecreasing(before + [now]) && Allowed(limit, Log(limit, before), now)
    requires lo <= now <= lo + MINUTE
    ensures CountIn(Grants(limit, before), lo, lo + MINUTE) < limit
  {
    AppendOrdered(before, now);
    LogAgreesWithHistory(limit, before);
    RefusedExactlyWhenFull(limit, before, now);
    CountInWiden(Grants(limit, before), lo, lo + MINUTE, now - MINUTE, now);
  }

  /** No closed one-minute window ever contains more than `limit` grants. */
  lemma {:induction false} WindowNeverExceedsLimit(limit: nat, times: seq<int>, lo: int)
    requires NonDecreasing(times)
    ensures CountIn(Grants(limit, times), lo, lo + MINUTE) <= limit
  {
    if times != [] {
      var before, now := times[..|times| - 1], times[|times| - 1];
      assert times == before + [now];
      WindowNeverExceedsLimit(limit, before, lo);
      var past := Grants(limit, before);
      if Allowed(limit, Log(limit, before), now) {
        CountInAppend(past, now, lo, lo + MINUTE);
        if lo <= now <= lo + MINUTE { GrantFits(limit, before, now, lo); }
      } else {
        assert past + [] == past;
      }
    }
  }
}
