/** Nonce reservation and the broadcast lifecycle
    (go/internal/wallet/wallet.go, go/internal/execution/pipeline.go). */
module Nonces {

  import opened Options

  /** The nonce a reservation hands out when the chain reports `pending` transactions. */
  function Reserved(next: Option<nat>, pending: nat): nat {
    if next.None? || pending > next.value then pending else next.value
  }

  /** The counter after giving `nonce` back: only the most recent reservation rewinds it. */
  function Returned(next: Option<nat>, nonce: nat): Option<nat> {
    if next == Some(nonce + 1) then Some(nonce) else next
  }

  // ---------------------------------------------------------------- the manager itself

  /** One pass through the live tail of the execution pipeline: what the chain answered.
      `pending` is None when the transaction count could not be read. */
  datatype Attempt = Attempt(pending: Option<nat>, gasPriceOk: bool, sendOk: bool)

  datatype Outcome = Unreserved | Released(nonce: nat) | Sent(nonce: nat)

  class NonceManager {
    var next: Option<nat>

    constructor ()
      ensures next == None
    {
      next := None;
    }

    method Next(pending: Option<nat>) returns (nonce: Option<nat>)
      modifies this
      ensures pending.None? ==> nonce.None? && next == old(next)
      ensures pending.Some? ==> nonce == Some(Reserved(old(next), pending.value))
      ensures pending.Some? ==> next == Some(Reserved(old(next), pending.value) + 1)
    {
      if pending.None? { return None; }
      if next.None? || pending.value > next.value { next := pending; }
      var n := next.value;
      next := Some(n + 1);
      nonce := Some(n);
    }

    method Release(nonce: nat)
      modifies this
      ensures next == Returned(old(next), nonce)
    {
      if next.Some? && next.value == nonce + 1 { next := Some(nonce); }
    }
  }

  /** What the pipeline does with a nonce: the calls of its live tail that succeed. */
  datatype Call = NextCall(nonce: nat) | ReleaseCall(nonce: nat) | BroadcastCall(nonce: nat)

  class Pipeline {
    const wallet: NonceManager
    var calls: seq<Call>   // history

    constructor (wallet: NonceManager)
      ensures this.wallet == wallet && calls == []
    {
      this.wallet, calls := wallet, [];
    }

    /** Reserve, price, broadcast; a failure after the reservation gives the nonce back. */
    method Process(a: Attempt) returns (out: Outcome)
      modifies this, wallet
      ensures out == Result(old(wallet.next), a)
      ensures wallet.next == After(old(wallet.next), a)
      ensures calls == old(calls) + CallsOf(old(wallet.next), a)
    {
      var nonce := wallet.Next(a.pending);
      if nonce.None? { return Unreserved; }
      calls := calls + [NextCall(nonce.value)];
      if !a.gasPriceOk {
        GiveBack(nonce.value);
        return Released(nonce.value);
      }
      if !a.sendOk {
        GiveBack(nonce.value);
        return Released(nonce.value);
      }
      calls := calls + [BroadcastCall(nonce.value)];
      out := Sent(nonce.value);
    }

    method GiveBack(nonce: nat)
      modifies this, wallet
      ensures wallet.next == Returned(old(wallet.next), nonce) && calls == old(calls) + [ReleaseCall(nonce)]
    {
      wallet.Release(nonce);
      calls := calls + [ReleaseCall(nonce)];
    }
  }

  // ---------------------------------------------------------------- concurrent holders

  type Holder = nat

  /** A held nonce with the pending count read when it was reserved. */
  datatype Held = Held(nonce: nat, pendingAtReserve: nat)

  datatype Wallet = Wallet(next: Option<nat>, held: map<Holder, Held>)

  /** Each step is one critical section.  A holder that broadcasts simply keeps its nonce. */
  datatype Step = Reserve(h: Holder, pending: nat) | GiveBack(h: Holder)

  /** A step that is not enabled (a holder that already holds, or holds nothing) does nothing. */
  function Apply(w: Wallet, s: Step): Wallet {
    match s
    case Reserve(h, pending) =>
      if h in w.held then w
      else
        var n := Reserved(w.next, pending);
        Wallet(Some(n + 1), w.held[h := Held(n, pending)])
    case GiveBack(h) =>
      if h !in w.held then w
      else Wallet(Returned(w.next, w.held[h].nonce), w.held - {h})
  }

  function Exec(w: Wallet, steps: seq<Step>): Wallet
    decreases |steps|
  {
    if steps == [] then w else Exec(Apply(w, steps[0]), steps[1..])
  }

  ghost predicate Exclusive(w: Wallet) {
    && (forall h :: h in w.held ==> w.next.Some? && w.held[h].nonce < w.next.value)
    && (forall h :: h in w.held ==> w.held[h].pendingAtReserve <= w.held[h].nonce)
    && (forall h, k :: h in w.held && k in w.held && h != k ==> w.held[h].nonce != w.held[k].nonce)
  }

  lemma ApplyKeepsExclusive(w: Wallet, s: Step)
    requires Exclusive(w)
    ensures Exclusive(Apply(w, s))
  { }

  lemma {:induction false} ExecKeepsExclusive(w: Wallet, steps: seq<Step>)
    requires Exclusive(w)
    ensures Exclusive(Exec(w, steps))
    decreases |steps|
  {
    if steps != [] {
      ApplyKeepsExclusive(w, steps[0]);
      ExecKeepsExclusive(Apply(w, steps[0]), steps[1..]);
    }
  }

  /** In every interleaving of reservations with one release per holder, no two held nonces are
      equal and each is at least the pending count its holder saw. */
  lemma HeldNoncesAreExclusive(steps: seq<Step>)
    ensures var w := Exec(Wallet(None, map[]), steps);
            && (forall h, k :: h in w.held && k in w.held && h != k ==> w.held[h].nonce != w.held[k].nonce)
            && (forall h :: h in w.held ==> w.held[h].pendingAtReserve <= w.held[h].nonce)
  {
    ExecKeepsExclusive(Wallet(None, map[]), steps);
  }

  /** What a reservation hands out: the counter, or a higher pending count, and the next one starts right after it;
      so with no higher count two reservations in a row are consecutive. */
  lemma ReservationsAreConsecutive(w: Wallet, h: Holder, g: Holder, pending: nat, later: nat)
    requires h !in w.held && g !in w.held && h != g
    ensures var w' := Apply(w, Reserve(h, pending));
            && h in w'.held && w'.held[h].pendingAtReserve == pending && w'.next == Some(w'.held[h].nonce + 1)
            && (w.next.None? ==> w'.held[h].nonce == pending)
            && (w.next.Some? ==>
                 && w'.held[h].nonce >= w.next.value && w'.held[h].nonce >= pending
                 && w'.held[h].nonce in {w.next.value, pending})
            && (later <= w'.held[h].nonce + 1 ==>
                 Apply(w', Reserve(g, later)).held[g].nonce == w'.held[h].nonce + 1)
  { }

  /** The one-release rule is needed: releasing twice lets two later reservations collide. */
  lemma DoubleReleaseCollides(pending: nat)
    ensures var first := Reserved(None, pending);
            var freed := Returned(Some(first + 1), first);
            var second := Reserved(freed, pending);
            var freedAgain := Returned(Some(second + 1), first);
            var third := Reserved(freedAgain, pending);
            second == third
  { }

  // ---------------------------------------------------------------- serial attempts

  predicate Sends(a: Attempt) { a.pending.Some? && a.gasPriceOk && a.sendOk }

  function Result(next: Option<nat>, a: Attempt): Outcome {
    if a.pending.None? then Unreserved
    else if Sends(a) then Sent(Reserved(next, a.pending.value))
    else Released(Reserved(next, a.pending.value))
  }

  function After(next: Option<nat>, a: Attempt): Option<nat> {
    if a.pending.None? then next
    else
      var n := Reserved(next, a.pending.value);
      if Sends(a) then Some(n + 1) else Returned(Some(n + 1), n)
  }

  function AfterAll(next: Option<nat>, attempts: seq<Attempt>): Option<nat> {
    if attempts == [] then next else After(AfterAll(next, attempts[..|attempts| - 1]), attempts[|attempts| - 1])
  }

  /** A broadcast moves the counter past its nonce and no further; a released nonce is the next one handed out. */
  lemma CounterFollows(next: Option<nat>, a: Attempt)
    ensures Result(next, a).Sent? ==> After(next, a) == Some(Result(next, a).nonce + 1)
    ensures Result(next, a).Released? ==> After(next, a) == Some(Result(next, a).nonce)
    ensures Result(next, a).Unreserved? ==> After(next, a) == next
    ensures Result(next, a).Unreserved? <==> a.pending.None?
    ensures Result(next, a).Sent? <==> a.pending.Some? && a.gasPriceOk && a.sendOk
  { }

  /** The calls of one attempt, and of a serial run. */
  function CallsOf(next: Option<nat>, a: Attempt): seq<Call> {
    if a.pending.None? then []
    else
      var n := Reserved(next, a.pending.value);
      [NextCall(n), if Sends(a) then BroadcastCall(n) else ReleaseCall(n)]
  }

  function CallLog(next: Option<nat>, attempts: seq<Attempt>): seq<Call> {
    if attempts == [] then []
    else
      var before := attempts[..|attempts| - 1];
      CallLog(next, before) + CallsOf(AfterAll(next, before), attempts[|attempts| - 1])
  }

  /** Every reservation is followed by the release or the broadcast of that nonce, and nothing else happens. */
  ghost predicate Paired(calls: seq<Call>) {
    calls == [] || (
      && |calls| >= 2 && Paired(calls[..|calls| - 2])
      && calls[|calls| - 2].NextCall? && !calls[|calls| - 1].NextCall?
          && calls[|calls| - 1].nonce == calls[|calls| - 2].nonce)
  }

  /** After a nonce is broadcast, only higher ones are reserved, released or broadcast. */
  ghost predicate BroadcastIsLast(calls: seq<Call>) {
    forall i, j :: 0 <= i < j < |calls| && calls[i].BroadcastCall? ==> calls[i].nonce < calls[j].nonce
  }

  ghost predicate BroadcastsBelow(calls: seq<Call>, next: Option<nat>) {
    forall i :: 0 <= i < |calls| && calls[i].BroadcastCall? ==> next.Some? && calls[i].nonce < next.value
  }

  /** One more call keeps the order if all earlier broadcasts are below it. */
  lemma AppendCall(calls: seq<Call>, x: Call, next: Option<nat>)
    requires BroadcastIsLast(calls) && BroadcastsBelow(calls, Some(x.nonce))
    requires next.Some? && x.nonce <= next.value && (x.BroadcastCall? ==> x.nonce < next.value)
    ensures BroadcastIsLast(calls + [x]) && BroadcastsBelow(calls + [x], next)
  {
    var all := calls + [x];
    forall i, j | 0 <= i < j < |all| && all[i].BroadcastCall? ensures all[i].nonce < all[j].nonce {
      assert all[i] == calls[i];
      if j < |calls| { assert all[j] == calls[j]; }
    }
    forall i | 0 <= i < |all| && all[i].BroadcastCall? ensures all[i].nonce < next.value {
      if i < |calls| { assert all[i] == calls[i]; }
    }
  }

  lemma AppendPair(calls: seq<Call>, next: Option<nat>, x: Call, y: Call, next': Option<nat>)
    requires Paired(calls) && BroadcastIsLast(calls) && BroadcastsBelow(calls, next)
    requires x.NextCall? && !y.NextCall? && y.nonce == x.nonce && (next.Some? ==> next.value <= x.nonce)
    requires next'.Some? && x.nonce <= next'.value && (y.BroadcastCall? ==> y.nonce < next'.value)
    ensures var all := calls + [x, y]; Paired(all) && BroadcastIsLast(all) && BroadcastsBelow(all, next')
  {
    AppendCall(calls, x, Some(x.nonce));
    AppendCall(calls + [x], y, next');
    var all := calls + [x, y];
    assert all == calls + [x] + [y] && all[..|all| - 2] == calls;
  }

  lemma AppendCalls(calls: seq<Call>, next: Option<nat>, a: Attempt)
    requires Paired(calls) && BroadcastIsLast(calls) && BroadcastsBelow(calls, next)
    ensures var all := calls + CallsOf(next, a);
            Paired(all) && BroadcastIsLast(all) && BroadcastsBelow(all, After(next, a))
  {
    if a.pending.None? {
      assert calls + CallsOf(next, a) == calls;
    } else {
      var more := CallsOf(next, a);
      AppendPair(calls, next, more[0], more[1], After(next, a));
    }
  }

  /** The nonce lifecycle over every serial run: each reservation is either broadcast or released, never both,
      and a broadcast nonce is never touched again. */
  lemma {:induction false} EachNonceSentOrReleased(next: Option<nat>, attempts: seq<Attempt>)
    ensures var log := CallLog(next, attempts);
            Paired(log) && BroadcastIsLast(log) && BroadcastsBelow(log, AfterAll(next, attempts))
  {
    if attempts != [] {
      var before := attempts[..|attempts| - 1];
      EachNonceSentOrReleased(next, before);
      AppendCalls(CallLog(next, before), AfterAll(next, before), attempts[|attempts| - 1]);
    }
  }

  /** So, counting: a nonce is reserved as often as it is released or broadcast, and broadcast at most once. */
  lemma CallsBalance(next: Option<nat>, attempts: seq<Attempt>, n: nat)
    ensures var log := multiset(CallLog(next, attempts));
            log[NextCall(n)] == log[ReleaseCall(n)] + log[BroadcastCall(n)] && log[BroadcastCall(n)] <= 1
  {
    var log := CallLog(next, attempts);
    EachNonceSentOrReleased(next, attempts);
    PairsBalance(log, n);
    SentOnce(log, n);
  }

  lemma {:induction false} PairsBalance(calls: seq<Call>, n: nat)
    requires Paired(calls)
    ensures multiset(calls)[NextCall(n)] == multiset(calls)[ReleaseCall(n)] + multiset(calls)[BroadcastCall(n)]
  {
    if calls != [] {
      var init, x, y := calls[..|calls| - 2], calls[|calls| - 2], calls[|calls| - 1];
      PairsBalance(init, n);
      assert calls == init + [x, y];
      assert multiset(calls) == multiset(init) + multiset{x, y};
    }
  }

  lemma {:induction false} SentOnce(calls: seq<Call>, n: nat)
    requires BroadcastIsLast(calls)
    ensures multiset(calls)[BroadcastCall(n)] <= 1
  {
    if calls != [] {
      var init, last := calls[..|calls| - 1], calls[|calls| - 1];
      SentOnce(init, n);
      assert calls == init + [last];
      assert last == BroadcastCall(n) ==> forall i :: 0 <= i < |init| ==> init[i] == calls[i] != last;
    }
  }

  /** The nonces a serial run broadcasts, in order. */
  function SentNonces(next: Option<nat>, attempts: seq<Attempt>): seq<nat> {
    if attempts == [] then []
    else
      var before := attempts[..|attempts| - 1];
      var out := Result(AfterAll(next, before), attempts[|attempts| - 1]);
      SentNonces(next, before) + (if out.Sent? then [out.nonce] else [])
  }

  /** The largest of `floor` and every pending count read in the run. */
  ghost function HighestPending(floor: nat, attempts: seq<Attempt>): nat {
    if attempts == [] then floor
    else
      var high := HighestPending(floor, attempts[..|attempts| - 1]);
      var p := attempts[|attempts| - 1].pending;
      if p.Some? && p.value > high then p.value else high
  }

  lemma {:induction false} FailuresOnlyRaiseFloor(floor: nat, failed: seq<Attempt>)
    requires forall i :: 0 <= i < |failed| ==> !Sends(failed[i])
    ensures AfterAll(Some(floor), failed) == Some(HighestPending(floor, failed))
  {
    if failed != [] { FailuresOnlyRaiseFloor(floor, failed[..|failed| - 1]); }
  }

  /** After nonce n is broadcast, the next broadcast uses the larger of n + 1 and the highest pending
      count read since, however many attempts fail in between. */
  lemma NextBroadcastNonce(n: nat, failed: seq<Attempt>, last: Attempt)
    requires forall i :: 0 <= i < |failed| ==> !Sends(failed[i])
    requires Sends(last)
    ensures Result(AfterAll(Some(n + 1), failed), last) == Sent(HighestPending(n + 1, failed + [last]))
  {
    FailuresOnlyRaiseFloor(n + 1, failed);
    assert (failed + [last])[..|failed|] == failed;
  }

  function Larger(a: nat, b: nat): nat { if a > b then a else b }

  lemma {:induction false} HighestWithin(floor: nat, attempts: seq<Attempt>, bound: nat)
    requires floor <= bound
    ensures HighestPending(floor, attempts) <= bound <==>
              forall i :: 0 <= i < |attempts| && attempts[i].pending.Some? ==> attempts[i].pending.value <= bound
    ensures floor <= HighestPending(floor, attempts)
    decreases |attempts|
  {
    if attempts != [] {
      var before := attempts[..|attempts| - 1];
      HighestWithin(floor, before, bound);
      assert forall i :: 0 <= i < |before| ==> before[i] == attempts[i];
    }
  }

  /** Exactly when the next broadcast uses n' = max(n + 1, pending): iff no failed attempt in between read a
      higher pending count than that.  Failed reads do not matter. */
  lemma NextBroadcastIff(n: nat, failed: seq<Attempt>, last: Attempt)
    requires forall i :: 0 <= i < |failed| ==> !Sends(failed[i])
    requires Sends(last)
    ensures var expected := Larger(n + 1, last.pending.value);
            Result(AfterAll(Some(n + 1), failed), last) == Sent(expected) <==>
              forall i :: 0 <= i < |failed| && failed[i].pending.Some? ==> failed[i].pending.value <= expected
  {
    var expected := Larger(n + 1, last.pending.value);
    FailuresOnlyRaiseFloor(n + 1, failed);
    HighestWithin(n + 1, failed, expected);
    assert Result(AfterAll(Some(n + 1), failed), last)
        == Sent(Larger(HighestPending(n + 1, failed), last.pending.value));
  }

  /** In particular when the pending counts that could be read never fall. */
  lemma NextBroadcastWithSteadyChain(n: nat, failed: seq<Attempt>, last: Attempt)
    requires forall i :: 0 <= i < |failed| ==> !Sends(failed[i])
    requires Sends(last)
    requires var all := failed + [last];
             forall i, j :: 0 <= i < j < |all| && all[i].pending.Some? && all[j].pending.Some? ==>
               all[i].pending.value <= all[j].pending.value
    ensures Result(AfterAll(Some(n + 1), failed), last) == Sent(Larger(n + 1, last.pending.value))
  {
    var all := failed + [last];
    forall i | 0 <= i < |failed| && failed[i].pending.Some? ensures failed[i].pending.value <= last.pending.value {
      assert all[i] == failed[i] && all[|failed|] == last;
    }
    NextBroadcastIff(n, failed, last);
  }

  /** A failed attempt that saw a higher pending count than the successful one leaves a gap. */
  lemma FallingPendingLeavesGap(n: nat, high: nat, low: nat)
    requires high > n + 1 && high > low
    ensures Result(AfterAll(Some(n + 1), [Attempt(Some(high), false, false)]), Attempt(Some(low), true, true))
        == Sent(high)
  {
    var failed, last := [Attempt(Some(high), false, false)], Attempt(Some(low), true, true);
    NextBroadcastNonce(n, failed, last);
    assert failed[..0] == [] && (failed + [last])[..1] == failed;
  }

  lemma {:induction false} SentBelowCounter(next: Option<nat>, attempts: seq<Attempt>)
    ensures SentNonces(next, attempts) != [] ==> AfterAll(next, attempts).Some?
    ensures forall n :: n in SentNonces(next, attempts) ==> n < AfterAll(next, attempts).value
  {
    if attempts != [] {
      var before := attempts[..|attempts| - 1];
      SentBelowCounter(next, before);
      assert SentNonces(next, before) + [] == SentNonces(next, before);
    }
  }

  ghost predicate StrictlyIncreasing(s: seq<nat>) {
    forall i, j :: 0 <= i < j < |s| ==> s[i] < s[j]
  }

  lemma AppendIncreasing(s: seq<nat>, x: nat)
    requires StrictlyIncreasing(s) && forall n :: n in s ==> n < x
    ensures StrictlyIncreasing(s + [x])
  {
    var t := s + [x];
    forall i, j | 0 <= i < j < |t| ensures t[i] < t[j] {
      assert t[i] == s[i] && s[i] in s;
    }
  }

  /** Over a whole serial run no nonce is broadcast twice: broadcast nonces strictly increase. */
  lemma {:induction false} BroadcastsStrictlyIncrease(next: Option<nat>, attempts: seq<Attempt>)
    ensures StrictlyIncreasing(SentNonces(next, attempts))
  {
    if attempts != [] {
      var before := attempts[..|attempts| - 1];
      var sent := SentNonces(next, before);
      BroadcastsStrictlyIncrease(next, before);
      SentBelowCounter(next, before);
      assert sent + [] == sent;
      var out := Result(AfterAll(next, before), attempts[|attempts| - 1]);
      if out.Sent? {
        assert SentNonces(next, attempts) == sent + [out.nonce];
        AppendIncreasing(sent, out.nonce);
      }
    }
  }
}
