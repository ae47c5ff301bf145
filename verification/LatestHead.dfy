/** Coalescing of chain-head triggers (go/internal/scheduler/latest.go).

    `Latest` holds the shared fields; each method is one atomic section of `Submit` or `Run`.
    The interleavings of any number of submitters with the runner are the runs of `Apply`. */
module LatestHead {

  import opened Options

  datatype Trigger = Trigger(block: nat, hash: string)

  /** The fields that submitters and the runner share. */
  datatype Shared = Shared(latest: nat, pending: Option<Trigger>, wake: bool, coalesced: nat) {

    /** The compare-and-swap on `latest`; it succeeds iff `latest` is still `seen`. */
    function SwapLatest(seen: nat, block: nat): Shared {
      if latest == seen then this.(latest := block) else this
    }

    /** The locked section that replaces the pending trigger. */
    function StorePending(t: Trigger): Shared {
      this.(pending := Some(t), coalesced := coalesced + (if pending.Some? then 1 else 0))
    }

    /** The non-blocking send on the one-slot wake channel. */
    function SendWake(): Shared { this.(wake := true) }

    /** The locked section that empties the pending slot. */
    function TakePending(): Shared { this.(pending := None) }
  }

  class Latest {
    var latest: nat
    var pending: Option<Trigger>
    var wake: bool
    var coalesced: nat

    ghost function State(): Shared reads this { Shared(latest, pending, wake, coalesced) }

    constructor ()
      ensures State() == Shared(0, None, false, 0)
    {
      latest, pending, wake, coalesced := 0, None, false, 0;
    }

    method CompareAndSwapLatest(seen: nat, block: nat) returns (ok: bool)
      modifies this
      ensures ok == (old(latest) == seen)
      ensures State() == old(State()).SwapLatest(seen, block)
    {
      ok := latest == seen;
      if ok { latest := block; }
    }

    method Store(t: Trigger)
      modifies this
      ensures State() == old(State()).StorePending(t)
    {
      if pending.Some? { coalesced := coalesced + 1; }
      pending := Some(t);
    }

    method Wake()
      modifies this
      ensures State() == old(State()).SendWake()
    {
      wake := true;
    }

    method Take() returns (t: Option<Trigger>)
      modifies this
      ensures t == old(pending)
      ensures State() == old(State()).TakePending()
    {
      t := pending;
      pending := None;
    }

    /** `Submit` without interference: older heads change nothing, newer ones replace the pending one. */
    method Submit(t: Trigger)
      modifies this
      ensures t.block <= old(latest) ==> State() == old(State())
      ensures t.block > old(latest) ==>
                State() == Shared(t.block, Some(t), true, old(coalesced) + (if old(pending).Some? then 1 else 0))
    {
      if t.block <= latest { return; }
      var won := CompareAndSwapLatest(latest, t.block);
      Store(t);
      Wake();
    }

    /** The inner loop of `Run` without interference: it empties the slot. */
    method Drain() returns (taken: seq<Trigger>)
      modifies this
      ensures pending == None && latest == old(latest) && coalesced == old(coalesced) && wake == old(wake)
      ensures taken == (if old(pending).Some? then [old(pending).value] else [])
    {
      taken := [];
      while pending.Some?
        invariant latest == old(latest) && coalesced == old(coalesced) && wake == old(wake)
        invariant pending.Some? ==> taken == [] && pending == old(pending)
        invariant pending.None? ==> taken == (if old(pending).Some? then [old(pending).value] else [])
        decreases pending.Some?
      {
        var t := Take();
        taken := taken + [t.value];
      }
    }
  }

  // ---------------------------------------------------------------- interleavings

  type Tid = nat

  /** Where a submitter stands: about to load `latest`, about to swap it, about to store, about to wake. */
  datatype Phase = Loading(t: Trigger) | Swapping(t: Trigger, seen: nat) | Storing(t: Trigger) | Waking

  datatype Runner = Waiting | Draining | Handling(t: Trigger)

  /** `accepted` counts won swaps and `handled` lists completed handler calls; both are history. */
  datatype System = System(sh: Shared, subs: map<Tid, Phase>, runner: Runner, accepted: nat, handled: seq<Trigger>)

  const INITIAL: System := System(Shared(0, None, false, 0), map[], Waiting, 0, [])

  datatype Step =
    | Submit(tid: Tid, t: Trigger) | Load(tid: Tid) | Swap(tid: Tid) | Store(tid: Tid) | Wake(tid: Tid)
    | Receive | Take | Finish

  /** One atomic step; a step that is not enabled does nothing.  At most `limit` submissions are under way at a
      time. */
  function Apply(s: System, step: Step, limit: nat): System {
    match step
    case Submit(tid, t) =>
      if tid in s.subs || |s.subs| >= limit then s else s.(subs := s.subs[tid := Loading(t)])
    case Load(tid) =>
      if !(tid in s.subs && s.subs[tid].Loading?) then s
      else if s.subs[tid].t.block <= s.sh.latest then s.(subs := s.subs - {tid})
      else s.(subs := s.subs[tid := Swapping(s.subs[tid].t, s.sh.latest)])
    case Swap(tid) =>
      if !(tid in s.subs && s.subs[tid].Swapping?) then s
      else if s.sh.latest != s.subs[tid].seen then s.(subs := s.subs[tid := Loading(s.subs[tid].t)])
      else s.(sh := s.sh.SwapLatest(s.subs[tid].seen, s.subs[tid].t.block),
              subs := s.subs[tid := Storing(s.subs[tid].t)], accepted := s.accepted + 1)
    case Store(tid) =>
      if !(tid in s.subs && s.subs[tid].Storing?) then s
      else s.(sh := s.sh.StorePending(s.subs[tid].t), subs := s.subs[tid := Waking])
    case Wake(tid) =>
      if !(tid in s.subs && s.subs[tid].Waking?) then s else s.(sh := s.sh.SendWake(), subs := s.subs - {tid})
    case Receive =>
      if s.runner.Waiting? && s.sh.wake then s.(sh := s.sh.(wake := false), runner := Draining) else s
    case Take =>
      if !s.runner.Draining? then s
      else if s.sh.pending.None? then s.(runner := Waiting)
      else s.(sh := s.sh.TakePending(), runner := Handling(s.sh.pending.value))
    case Finish =>
      if s.runner.Handling? then s.(runner := Draining, handled := s.handled + [s.runner.t]) else s
  }

  function Exec(s: System, steps: seq<Step>, limit: nat): System {
    if steps == [] then s else Apply(Exec(s, steps[..|steps| - 1], limit), steps[|steps| - 1], limit)
  }

  // ---------------------------------------------------------------- no stranded trigger, conservation

  ghost predicate NotStranded(s: System) {
    s.sh.pending.Some? ==>
      s.sh.wake || !s.runner.Waiting? || exists tid :: tid in s.subs && s.subs[tid].Waking?
  }

  ghost function StoringTids(s: System): set<Tid> { set tid | tid in s.subs && s.subs[tid].Storing? }

  ghost function InSlot(s: System): nat { if s.sh.pending.Some? then 1 else 0 }

  ghost function InHandler(s: System): nat { if s.runner.Handling? then 1 else 0 }

  /** Every accepted trigger is handled, coalesced, pending, being handled, or about to be stored. */
  ghost predicate Conserved(s: System) {
    s.accepted == |s.handled| + s.sh.coalesced + InSlot(s) + InHandler(s) + |StoringTids(s)|
  }

  lemma ApplyKeepsNotStranded(s: System, step: Step, limit: nat)
    requires NotStranded(s)
    ensures NotStranded(Apply(s, step, limit))
  {
    var s' := Apply(s, step, limit);
    if s'.sh.pending.Some? && !s'.sh.wake && s'.runner.Waiting? {
      if step.Store? && step.tid in s.subs && s.subs[step.tid].Storing? {
        assert s'.subs[step.tid].Waking?;
      } else {
        var tid :| tid in s.subs && s.subs[tid].Waking?;
        assert tid in s'.subs && s'.subs[tid].Waking?;
      }
    }
  }

  lemma SwapKeepsConserved(s: System, tid: Tid, limit: nat)
    requires Conserved(s)
    ensures Conserved(Apply(s, Swap(tid), limit))
  {
    var s' := Apply(s, Swap(tid), limit);
    if s'.accepted == s.accepted + 1 { assert StoringTids(s') == StoringTids(s) + {tid}; }
    else { assert StoringTids(s') == StoringTids(s); }
  }

  lemma StoreKeepsConserved(s: System, tid: Tid, limit: nat)
    requires Conserved(s)
    ensures Conserved(Apply(s, Store(tid), limit))
  {
    var s' := Apply(s, Store(tid), limit);
    if tid in s.subs && s.subs[tid].Storing? {
      assert StoringTids(s) == StoringTids(s') + {tid} && tid !in StoringTids(s');
    }
  }

  lemma ApplyKeepsConserved(s: System, step: Step, limit: nat)
    requires Conserved(s)
    ensures Conserved(Apply(s, step, limit))
  {
    if step.Swap? {
      SwapKeepsConserved(s, step.tid, limit);
    } else if step.Store? {
      StoreKeepsConserved(s, step.tid, limit);
    } else {
      assert StoringTids(Apply(s, step, limit)) == StoringTids(s);
    }
  }

  /** Over every interleaving, no pending trigger is stranded and no accepted trigger is lost. */
  lemma {:induction false} NothingStrandedNothingLost(steps: seq<Step>, limit: nat)
    ensures NotStranded(Exec(INITIAL, steps, limit))
    ensures Conserved(Exec(INITIAL, steps, limit))
  {
    if steps == [] {
      assert StoringTids(INITIAL) == {};
    } else {
      NothingStrandedNothingLost(steps[..|steps| - 1], limit);
      var s := Exec(INITIAL, steps[..|steps| - 1], limit);
      ApplyKeepsNotStranded(s, steps[|steps| - 1], limit);
      ApplyKeepsConserved(s, steps[|steps| - 1], limit);
    }
  }

  ghost predicate Quiescent(s: System) { s.subs == map[] && s.runner.Waiting? && !s.sh.wake }

  /** When nothing can move any more, every accepted trigger was handled or coalesced. */
  lemma QuiescentMeansDone(steps: seq<Step>, limit: nat)
    requires Quiescent(Exec(INITIAL, steps, limit))
    ensures var s := Exec(INITIAL, steps, limit);
            s.sh.pending.None? && s.accepted == |s.handled| + s.sh.coalesced
  {
    NothingStrandedNothingLost(steps, limit);
    assert StoringTids(Exec(INITIAL, steps, limit)) == {};
  }

  // ---------------------------------------------------------------- one submitter at a time

  function Block(o: Option<Trigger>): seq<nat> { if o.Some? then [o.value.block] else [] }

  function Blocks(ts: seq<Trigger>): seq<nat> { seq(|ts|, i requires 0 <= i < |ts| => ts[i].block) }

  /** The trigger that won its swap and is not stored yet, in a serial system. */
  ghost function InTransit(s: System): Option<Trigger> {
    if exists tid :: tid in s.subs && s.subs[tid].Storing?
    then var tid :| tid in s.subs && s.subs[tid].Storing?; Some(s.subs[tid].t) else None
  }

  /** Blocks in the order in which they are, or will be, handled if nothing newer arrives. */
  ghost function Chain(s: System): seq<nat> {
    Blocks(s.handled) + (if s.runner.Handling? then [s.runner.t.block] else [])
      + Block(s.sh.pending) + Block(InTransit(s))
  }

  ghost predicate Increasing(b: seq<nat>) { forall i, j :: 0 <= i < j < |b| ==> b[i] < b[j] }

  ghost predicate SerialInv(s: System) {
    && (forall x, y :: x in s.subs && y in s.subs ==> x == y)
    && (forall x :: x in s.subs && s.subs[x].Swapping? ==> s.subs[x].seen == s.sh.latest < s.subs[x].t.block)
    && Increasing(Chain(s))
    && (if Chain(s) == [] then s.sh.latest == 0 else Chain(s)[|Chain(s)| - 1] == s.sh.latest)
  }

  /** In a serial system at most one submitter exists, so the trigger in transit is determined by it. */
  lemma InTransitIs(s: System, tid: Tid)
    requires forall x, y :: x in s.subs && y in s.subs ==> x == y
    requires tid in s.subs
    ensures InTransit(s) == if s.subs[tid].Storing? then Some(s.subs[tid].t) else None
  { }

  lemma NoneInTransit(s: System)
    requires s.subs == map[]
    ensures InTransit(s) == None
  { }

  lemma ExtendIncreasing(b: seq<nat>, x: nat)
    requires Increasing(b) && (b != [] ==> b[|b| - 1] < x)
    ensures Increasing(b + [x])
  {
    forall i | 0 <= i < |b| ensures b[i] < x { assert i < |b| - 1 ==> b[i] < b[|b| - 1]; }
  }

  lemma SwapKeepsSerial(s: System, tid: Tid, limit: nat)
    requires SerialInv(s)
    ensures SerialInv(Apply(s, Swap(tid), limit))
  {
    var s' := Apply(s, Swap(tid), limit);
    if s' != s {
      InTransitIs(s, tid);
      InTransitIs(s', tid);
      var c := Chain(s);
      assert c + [] == c && Chain(s') == c + [s'.sh.latest];
      ExtendIncreasing(c, s'.sh.latest);
    }
  }

  lemma StoreKeepsSerial(s: System, tid: Tid, limit: nat)
    requires SerialInv(s)
    ensures SerialInv(Apply(s, Store(tid), limit))
  {
    var s' := Apply(s, Store(tid), limit);
    if s' != s {
      InTransitIs(s, tid);
      InTransitIs(s', tid);
      var done := Blocks(s.handled) + (if s.runner.Handling? then [s.runner.t.block] else []);
      var pending, newest := Block(s.sh.pending), s.subs[tid].t.block;
      assert Chain(s) == done + pending + [newest] && Chain(s') == done + [newest];
      SkipMiddle(done, pending, newest);
    }
  }

  lemma SkipMiddle(done: seq<nat>, middle: seq<nat>, last: nat)
    requires Increasing(done + middle + [last])
    ensures Increasing(done + [last])
  {
    var all := done + middle + [last];
    assert forall i :: 0 <= i < |done| ==> done[i] == all[i] < all[|all| - 1];
  }

  lemma SubmitterStepKeepsSerial(s: System, step: Step, limit: nat)
    requires limit <= 1 && SerialInv(s) && !step.Receive? && !step.Take? && !step.Finish?
    ensures SerialInv(Apply(s, step, limit))
  {
    if step.Swap? {
      SwapKeepsSerial(s, step.tid, limit);
    } else if step.Store? {
      StoreKeepsSerial(s, step.tid, limit);
    } else {
      var s', tid := Apply(s, step, limit), step.tid;
      if s' != s {
        if step.Submit? { assert s.subs == map[]; NoneInTransit(s); } else { InTransitIs(s, tid); }
        if tid in s'.subs { InTransitIs(s', tid); } else { assert s'.subs == map[]; NoneInTransit(s'); }
        assert Chain(s') == Chain(s);
      }
    }
  }

  lemma SameChain(s: System, s': System)
    requires SerialInv(s) && s'.subs == s.subs && s'.sh.latest == s.sh.latest && Chain(s') == Chain(s)
    ensures SerialInv(s')
  { }

  lemma RunnerKeepsChain(s: System, step: Step, limit: nat)
    requires SerialInv(s) && (step.Receive? || step.Take? || step.Finish?)
    ensures Chain(Apply(s, step, limit)) == Chain(s)
  {
    var s' := Apply(s, step, limit);
    SameTransit(s, s');
    if step.Finish? && s' != s { HandledBlocks(s, s'); }
  }

  lemma RunnerStepKeepsSerial(s: System, step: Step, limit: nat)
    requires SerialInv(s) && (step.Receive? || step.Take? || step.Finish?)
    ensures SerialInv(Apply(s, step, limit))
  {
    RunnerKeepsChain(s, step, limit);
    SameChain(s, Apply(s, step, limit));
  }

  lemma SameTransit(s: System, s': System)
    requires s'.subs == s.subs && forall x, y :: x in s.subs && y in s.subs ==> x == y
    ensures InTransit(s') == InTransit(s)
  {
    if tid :| tid in s.subs {
      InTransitIs(s, tid);
      InTransitIs(s', tid);
    }
  }

  lemma HandledBlocks(s: System, s': System)
    requires s.runner.Handling? && s'.handled == s.handled + [s.runner.t]
    ensures Blocks(s'.handled) == Blocks(s.handled) + [s.runner.t.block]
  {}

  lemma {:induction false} SerialRuns(steps: seq<Step>, limit: nat)
    requires limit <= 1
    ensures SerialInv(Exec(INITIAL, steps, limit))
  {
    if steps == [] {
      NoneInTransit(INITIAL);
      assert Chain(INITIAL) == [];
    } else {
      var s, step := Exec(INITIAL, steps[..|steps| - 1], limit), steps[|steps| - 1];
      SerialRuns(steps[..|steps| - 1], limit);
      if step.Receive? || step.Take? || step.Finish? { RunnerStepKeepsSerial(s, step, limit); }
      else { SubmitterStepKeepsSerial(s, step, limit); }
    }
  }

  /** With one submitter at a time, handled blocks strictly increase, and once nothing can move the last
      handled block is the newest one ever accepted. */
  lemma OneSubmitterHandlesInOrder(steps: seq<Step>, limit: nat)
    requires limit <= 1
    ensures var s := Exec(INITIAL, steps, limit);
            && Increasing(Blocks(s.handled))
            && (Quiescent(s) && s.accepted > 0 ==> s.handled != [] && s.handled[|s.handled| - 1].block == s.sh.latest)
  {
    var s := Exec(INITIAL, steps, limit);
    SerialRuns(steps, limit);
    var b, c := Blocks(s.handled), Chain(s);
    assert |b| <= |c| && forall i :: 0 <= i < |b| ==> b[i] == c[i];
    if Quiescent(s) {
      QuiescentMeansDone(steps, limit);
      NoneInTransit(s);
      assert c == b;
      if s.handled == [] { AcceptedIsNewer(steps, limit); }
    }
  }

  /** Once anything has been accepted, `latest` is positive. */
  lemma {:induction false} AcceptedIsNewer(steps: seq<Step>, limit: nat)
    ensures var s := Exec(INITIAL, steps, limit);
            && (s.accepted > 0 ==> s.sh.latest > 0)
            && forall x :: x in s.subs && s.subs[x].Swapping? ==> s.subs[x].seen < s.subs[x].t.block
  {
    if steps != [] { AcceptedIsNewer(steps[..|steps| - 1], limit); }
  }

  // Two concurrent submitters: block 2 overtakes block 1 between its swap and its store.

  /** The trace reaches the state. */
  ghost predicate Leads(steps: seq<Step>, s: System, limit: nat) { Exec(INITIAL, steps, limit) == s }

  lemma Then(steps: seq<Step>, s: System, step: Step, s': System, limit: nat)
    requires Leads(steps, s, limit) && s' == Apply(s, step, limit)
    ensures Leads(steps + [step], s', limit)
  {
    assert (steps + [step])[..|steps|] == steps;
  }

  /** Submitters in flight, with nothing pending and nothing handled. */
  function Racing(latest: nat, subs: map<Tid, Phase>, accepted: nat): System {
    System(Shared(latest, None, false, 0), subs, Waiting, accepted, [])
  }

  lemma OneAccepted(one: Trigger, limit: nat) returns (steps: seq<Step>)
    requires one.block == 1 && limit >= 2
    ensures Leads(steps, Racing(1, map[0 := Storing(one)], 1), limit)
  {
    Then([], INITIAL, Submit(0, one), Racing(0, map[0 := Loading(one)], 0), limit);
    steps := [] + [Submit(0, one)];
    Then(steps, Racing(0, map[0 := Loading(one)], 0), Load(0), Racing(0, map[0 := Swapping(one, 0)], 0), limit);
    steps := steps + [Load(0)];
    Then(steps, Racing(0, map[0 := Swapping(one, 0)], 0), Swap(0), Racing(1, map[0 := Storing(one)], 1), limit);
    steps := steps + [Swap(0)];
  }

  lemma BothAccepted(before: seq<Step>, one: Trigger, two: Trigger, limit: nat) returns (steps: seq<Step>)
    requires two.block == 2 && limit >= 2 && Leads(before, Racing(1, map[0 := Storing(one)], 1), limit)
    ensures Leads(steps, Racing(2, map[0 := Storing(one), 1 := Storing(two)], 2), limit)
  {
    var a := Racing(1, map[0 := Storing(one), 1 := Loading(two)], 1);
    var b := Racing(1, map[0 := Storing(one), 1 := Swapping(two, 1)], 1);
    Then(before, Racing(1, map[0 := Storing(one)], 1), Submit(1, two), a, limit);
    steps := before + [Submit(1, two)];
    Then(steps, a, Load(1), b, limit);
    steps := steps + [Load(1)];
    Then(steps, b, Swap(1), Racing(2, map[0 := Storing(one), 1 := Storing(two)], 2), limit);
    steps := steps + [Swap(1)];
  }

  lemma NewerTakenFirst(before: seq<Step>, one: Trigger, two: Trigger, limit: nat) returns (steps: seq<Step>)
    requires Leads(before, Racing(2, map[0 := Storing(one), 1 := Storing(two)], 2), limit)
    ensures Leads(steps, System(Shared(2, None, false, 0), map[0 := Storing(one)], Handling(two), 2, []), limit)
  {
    var a := System(Shared(2, Some(two), false, 0), map[0 := Storing(one), 1 := Waking], Waiting, 2, []);
    var b := System(Shared(2, Some(two), true, 0), map[0 := Storing(one)], Waiting, 2, []);
    var c := System(Shared(2, Some(two), false, 0), map[0 := Storing(one)], Draining, 2, []);
    Then(before, Racing(2, map[0 := Storing(one), 1 := Storing(two)], 2), Store(1), a, limit);
    steps := before + [Store(1)];
    assert map[0 := Storing(one), 1 := Waking] - {1} == map[0 := Storing(one)];
    Then(steps, a, Wake(1), b, limit);
    steps := steps + [Wake(1)];
    Then(steps, b, Receive, c, limit);
    steps := steps + [Receive];
    Then(steps, c, Take, System(Shared(2, None, false, 0), map[0 := Storing(one)], Handling(two), 2, []), limit);
    steps := steps + [Take];
  }

  lemma OlderStoredLast(before: seq<Step>, one: Trigger, two: Trigger, limit: nat) returns (steps: seq<Step>)
    requires Leads(before, System(Shared(2, None, false, 0), map[0 := Storing(one)], Handling(two), 2, []), limit)
    ensures Leads(steps, System(Shared(2, None, true, 0), map[], Handling(one), 2, [two]), limit)
  {
    var a := System(Shared(2, None, false, 0), map[0 := Storing(one)], Draining, 2, [two]);
    var b := System(Shared(2, Some(one), false, 0), map[0 := Waking], Draining, 2, [two]);
    var c := System(Shared(2, Some(one), true, 0), map[], Draining, 2, [two]);
    Then(before, System(Shared(2, None, false, 0), map[0 := Storing(one)], Handling(two), 2, []), Finish, a, limit);
    steps := before + [Finish];
    Then(steps, a, Store(0), b, limit);
    steps := steps + [Store(0)];
    assert map[0 := Waking] - {0} == map[];
    Then(steps, b, Wake(0), c, limit);
    steps := steps + [Wake(0)];
    Then(steps, c, Take, System(Shared(2, None, true, 0), map[], Handling(one), 2, [two]), limit);
    steps := steps + [Take];
  }

  lemma OlderHandledLast(before: seq<Step>, one: Trigger, two: Trigger, limit: nat) returns (steps: seq<Step>)
    requires Leads(before, System(Shared(2, None, true, 0), map[], Handling(one), 2, [two]), limit)
    ensures Leads(steps, System(Shared(2, None, false, 0), map[], Waiting, 2, [two, one]), limit)
  {
    var a := System(Shared(2, None, true, 0), map[], Draining, 2, [two, one]);
    var b := System(Shared(2, None, true, 0), map[], Waiting, 2, [two, one]);
    var c := System(Shared(2, None, false, 0), map[], Draining, 2, [two, one]);
    Then(before, System(Shared(2, None, true, 0), map[], Handling(one), 2, [two]), Finish, a, limit);
    steps := before + [Finish];
    Then(steps, a, Take, b, limit);
    steps := steps + [Take];
    Then(steps, b, Receive, c, limit);
    steps := steps + [Receive];
    Then(steps, c, Take, System(Shared(2, None, false, 0), map[], Waiting, 2, [two, one]), limit);
    steps := steps + [Take];
  }

  /** Two concurrent submitters can store in the other order, and then an older block is handled last. */
  lemma TwoSubmittersCanReorder(limit: nat) returns (steps: seq<Step>)
    requires limit >= 2
    ensures Quiescent(Exec(INITIAL, steps, limit))
    ensures Blocks(Exec(INITIAL, steps, limit).handled) == [2, 1] && Exec(INITIAL, steps, limit).sh.latest == 2
  {
    var one, two := Trigger(1, ""), Trigger(2, "");
    steps := OneAccepted(one, limit);
    steps := BothAccepted(steps, one, two, limit);
    steps := NewerTakenFirst(steps, one, two, limit);
    steps := OlderStoredLast(steps, one, two, limit);
    steps := OlderHandledLast(steps, one, two, limit);
    assert Blocks([two, one]) == [2, 1];
  }

  /** The run handles its blocks in increasing order. */
  ghost predicate InOrder(steps: seq<Step>, limit: nat) { Increasing(Blocks(Exec(INITIAL, steps, limit).handled)) }

  /** The exact condition for handling in order: every run does iff at most one submission is under way at a time. */
  lemma InOrderIffOneSubmitter(limit: nat)
    ensures (forall steps :: InOrder(steps, limit)) <==> limit <= 1
  {
    if limit <= 1 {
      forall steps ensures InOrder(steps, limit) { OneSubmitterHandlesInOrder(steps, limit); }
    } else {
      var steps := TwoSubmittersCanReorder(limit);
      var b := Blocks(Exec(INITIAL, steps, limit).handled);
      assert b[0] == 2 && b[1] == 1;
      assert !InOrder(steps, limit);
    }
  }
}
