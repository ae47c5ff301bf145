/** The market-state synchronizer (go/internal/market/engine.go): a background scanner that advances a
    watermark and marks dirty pools, and a decision cycle that refreshes them and acknowledges the marks.

    `Engine` carries the shared fields.  `Apply` is one atomic section of the scanner or of the cycle, so a
    run of `Apply` is an interleaving of the two. */
module MarketSync {

  import opened Arith
  import opened Chain
  import opened Options
  import LogScan

  /** A cached pool.  `readAt` is history: the block at which the content was last read. */
  datatype Pool = Pool(updatedAt: Block, content: Content, readAt: Block)

  type Cache = map<Address, Pool>

  function LabelOf(p: Pool): Block { p.updatedAt }

  /** The entry a refresh at `block` leaves for a cached pool. */
  function AfterRefresh(p: Pool, content: Content, block: Block): Pool {
    var q := Refreshed(p, content, block);
    if q.updatedAt >= p.updatedAt then q else p
  }

  /** What a refresh at `block` writes: a new label only if the content changed. */
  function Refreshed(p: Pool, content: Content, block: Block): Pool {
    Pool(if content != p.content then block else p.updatedAt, content, block)
  }

  // ---------------------------------------------------------------- the engine's fields

  /** One answer of a refresh worker: the content read at the state block, or None when the read failed. */
  datatype Read = Read(addr: Address, content: Option<Content>)

  class Engine {
    const log: EventLog    // the chain that is scanned and read
    const world: World
    var dirtyScanBlock: Block
    var pendingDirty: set<Address>
    var lastStateBlock: Block
    var cache: Cache
    ghost var cycle: Cycle   // what the decision cycle keeps in local variables
    ghost var floor: Block

    /** The shared fields and the cycle, as the interleavings below see them. */
    ghost function State(): Sync reads this { Sync(dirtyScanBlock, pendingDirty, cache, cycle, floor) }

    constructor (log: EventLog, world: World, cache: Cache)
      ensures this.log == log && this.world == world && lastStateBlock == 0 && State() == Sync(0, {}, cache, Idle, 0)
    {
      this.log, this.world := log, world;
      dirtyScanBlock, pendingDirty, lastStateBlock, this.cache, cycle, floor := 0, {}, 0, cache, Idle, 0;
    }

    /** One scanner iteration: from the block after the watermark, at most maxChunks chunks, and the watermark moves
        to the last block of the chunks that succeeded.  With a watermark set it is the step Scan, so it keeps
        safety; an unset one begins at the last state block, or at the head. */
    method AdvanceMarketStateSync(latest: Block, size: nat, maxChunks: nat, reply: nat -> LogScan.Reply)
      requires 1 <= size < UINT64 && latest < UINT64 && dirtyScanBlock < UINT64 && lastStateBlock < UINT64
      requires latest > 0   // the loop skips iterations without a head
      modifies this`dirtyScanBlock, this`pendingDirty
      ensures cache == map[] ==> State() == old(State())
      ensures cache != map[] && old(dirtyScanBlock) > 0 ==>
        Iteration(log, world, old(State()), State(), latest, size, maxChunks, reply)
      ensures cache != map[] && old(dirtyScanBlock) == 0 && lastStateBlock > 0 ==>
        Iteration(log, world, old(State()).(scan := lastStateBlock), State(), latest, size, maxChunks, reply)
      ensures cache != map[] && old(dirtyScanBlock) == 0 && lastStateBlock == 0 ==>
        State() == old(State()).(scan := latest)
      ensures old(dirtyScanBlock) > 0 && Safe(log, old(State())) ==> Safe(log, State())
    {
      if cache == map[] { return; }
      if dirtyScanBlock == 0 {
        dirtyScanBlock := if lastStateBlock > 0 then lastStateBlock else latest;
      }
      ghost var before := State();
      ScanForward(latest, size, maxChunks, reply);
      if Safe(log, before) { ScanKeepsSafe(log, world, before, dirtyScanBlock); }
    }

    /** The iteration once the watermark is set. */
    method ScanForward(latest: Block, size: nat, maxChunks: nat, reply: nat -> LogScan.Reply)
      requires 1 <= size < UINT64 && latest < UINT64 && dirtyScanBlock < UINT64 && cache != map[]
      modifies this`dirtyScanBlock, this`pendingDirty
      ensures Iteration(log, world, old(State()), State(), latest, size, maxChunks, reply)
    {
      ghost var start := dirtyScanBlock;
      var from := dirtyScanBlock + 1;
      assert Touched(log, cache.Keys, from, dirtyScanBlock) == {};
      assert maxChunks * size >= 0;
      if from <= latest {
        var maxBlocks := maxChunks * size;
        var upTo := if maxBlocks > 0 && latest - from + 1 > maxBlocks then from + maxBlocks - 1 else latest;
        ScanTo(from, upTo, size, reply);
      } else {
        StaysAtGoal(start, latest, size, maxChunks, reply);
      }
    }

    /** Scan a range after the watermark and commit what the successful chunks found. */
    method ScanTo(from: Block, upTo: Block, size: nat, reply: nat -> LogScan.Reply)
      requires 1 <= size < UINT64 && from == dirtyScanBlock + 1 <= upTo < UINT64 && cache != map[]
      modifies this`dirtyScanBlock, this`pendingDirty
      ensures State() == Apply(log, world, old(State()), Scan(dirtyScanBlock))
      ensures old(dirtyScanBlock) <= dirtyScanBlock <= upTo
      ensures pendingDirty == old(pendingDirty) + Touched(log, cache.Keys, from, dirtyScanBlock)
      ensures forall k :: Reached(old(dirtyScanBlock), dirtyScanBlock, upTo, size, reply, k)
    {
      var dirty, stats, failed, chunks := LogScan.ChangedPoolAddresses(log, cache.Keys, from, upTo, size, true, reply);
      var checkpoint := LogScan.Checkpoint(from, upTo, size, stats.succeeded);
      LogScan.CheckpointIsExact(chunks, from, upTo, size, stats.succeeded);
      LogScan.FullChunks(chunks, from, upTo, size, stats.succeeded);
      assert cache.Keys != {};
      if stats.succeeded > 0 { LogScan.ChunksOrdered(chunks, from, upTo, size, stats.succeeded - 1); }
      ghost var start := dirtyScanBlock;
      CommitScan(dirty, checkpoint);
      forall k ensures Reached(start, dirtyScanBlock, upTo, size, reply, k) {
        ReachedAt(start, dirtyScanBlock, upTo, size, reply, stats.succeeded, failed, k);
      }
    }

    /** The second locked section of an iteration: marks are added, the watermark only moves up.  With the marks
        of a scan up to the checkpoint it is the step Scan. */
    method CommitScan(dirty: set<Address>, checkpoint: Block)
      modifies this`dirtyScanBlock, this`pendingDirty
      ensures pendingDirty == old(pendingDirty) + dirty
      ensures dirtyScanBlock == if checkpoint > old(dirtyScanBlock) then checkpoint else old(dirtyScanBlock)
      ensures dirty == Touched(log, cache.Keys, old(dirtyScanBlock) + 1, checkpoint) ==>
                State() == Apply(log, world, old(State()), Scan(checkpoint))
    {
      assert checkpoint <= dirtyScanBlock ==> Touched(log, cache.Keys, dirtyScanBlock + 1, checkpoint) == {};
      pendingDirty := pendingDirty + dirty;
      if checkpoint > dirtyScanBlock { dirtyScanBlock := checkpoint; }
    }

    /** The cycle starts: it copies the marks and works on the copy. */
    method PendingDirtySnapshot(stateBlock: Block) returns (dirty: set<Address>)
      requires cycle.Idle? && floor <= stateBlock
      modifies this`cycle
      ensures dirty == pendingDirty && State() == Apply(log, world, old(State()), Begin(stateBlock))
    {
      dirty := pendingDirty;
      cycle := Refreshing(stateBlock, dirty, {}, {});
    }

    /** Acknowledge the pools a cycle resolved.  With the sets of the running cycle it is the step Ack. */
    method AckPendingDirty(attempted: set<Address>, unresolved: set<Address>)
      modifies this`pendingDirty, this`cycle, this`floor
      ensures pendingDirty == old(pendingDirty) - (attempted - unresolved)
      ensures old(cycle).Refreshing? && attempted == old(cycle).resolved && unresolved == old(cycle).unresolved ==>
                State() == Apply(log, world, old(State()), Ack)
    {
      var todo := attempted;
      while todo != {}
        invariant todo <= attempted && cycle == old(cycle) && floor == old(floor)
        invariant pendingDirty == old(pendingDirty) - ((attempted - todo) - unresolved)
        decreases |todo|
      {
        var a :| a in todo;
        if a !in unresolved { pendingDirty := pendingDirty - {a}; }
        todo := todo - {a};
      }
      if cycle.Refreshing? { cycle, floor := Idle, cycle.stateBlock; }
    }

    /** Apply the workers' answers in their order of arrival.  A cancelled context may leave pools without an
        answer; those are neither resolved nor unresolved.  Each answer is a step Refresh. */
    method RefreshKnownDirty(dirty: set<Address>, stateBlock: Block, replies: seq<Read>)
      returns (resolved: set<Address>, unresolved: set<Address>, left: set<Address>)
      requires cycle == Refreshing(stateBlock, dirty, {}, {}) && Answers(world, cache, dirty, stateBlock, replies)
      modifies this`cache, this`cycle
      ensures resolved == Successes(replies).Keys && unresolved == Failures(replies)
      ensures cache == RefreshAll(old(cache), Successes(replies), stateBlock)
      ensures left == dirty - Unchanged(old(cache), Successes(replies))
      ensures cycle == Refreshing(stateBlock, dirty, resolved, unresolved)
      ensures State() == Exec(log, world, old(State()), RefreshSteps(replies))
    {
      resolved, unresolved, left := {}, {}, dirty;
      ghost var before := cache;
      RefreshNone(before, stateBlock);
      for i := 0 to |replies|
        invariant resolved == Successes(replies[..i]).Keys && unresolved == Failures(replies[..i])
        invariant cache == RefreshAll(before, Successes(replies[..i]), stateBlock)
        invariant left == dirty - Unchanged(before, Successes(replies[..i]))
        invariant cycle == Refreshing(stateBlock, dirty, resolved, unresolved)
        invariant State() == Exec(log, world, old(State()), RefreshSteps(replies[..i]))
        invariant pendingDirty == old(pendingDirty) && dirtyScanBlock == old(dirtyScanBlock) && floor == old(floor)
      {
        var a := replies[i].addr;
        NextRead(world, before, dirty, stateBlock, replies, i);
        StepsGrow(log, world, old(State()), replies, i);
        if replies[i].content.Some? {
          RefreshAllStep(before, Successes(replies[..i]), replies[i].content.value, stateBlock, a);
          LeftStep(dirty, Unchanged(before, Successes(replies[..i])), a);
          var changed := RefreshOne(a, replies[i].content.value, stateBlock);
          left := if changed then left + {a} else left - {a};
          resolved := resolved + {a};
        } else {
          unresolved := unresolved + {a};
          cycle := cycle.(unresolved := cycle.unresolved + {a});
        }
      }
      assert replies[..|replies|] == replies;
    }

    /** One successful answer: an unchanged pool keeps its label. */
    method RefreshOne(a: Address, content: Content, stateBlock: Block) returns (changed: bool)
      requires cycle.Refreshing? && cycle.stateBlock == stateBlock && a in cycle.dirty && a in cache
      requires a !in cycle.resolved + cycle.unresolved && content == world(a, stateBlock)
      modifies this`cache, this`cycle
      ensures cache == old(cache)[a := AfterRefresh(old(cache)[a], content, stateBlock)]
      ensures changed == (content != old(cache)[a].content)
      ensures State() == Apply(log, world, old(State()), Refresh(a, true))
      ensures cycle == old(cycle).(resolved := old(cycle).resolved + {a})
    {
      var after := Refreshed(cache[a], content, stateBlock);
      changed := after.content != cache[a].content;
      cache := Put(cache, a, after, LabelOf);
      cycle := cycle.(resolved := cycle.resolved + {a});
    }
  }

  /** What the workers may answer: cached dirty pools, each at most once, with what the chain holds. */
  ghost predicate Answers(w: World, c: Cache, dirty: set<Address>, block: Block, replies: seq<Read>) {
    && (forall i :: 0 <= i < |replies| ==> replies[i].addr in dirty && replies[i].addr in c)
    && (forall i :: 0 <= i < |replies| && replies[i].content.Some? ==>
        replies[i].content.value == w(replies[i].addr, block))
    && (forall i, j :: 0 <= i < j < |replies| ==> replies[i].addr != replies[j].addr)
  }

  ghost function Successes(replies: seq<Read>): map<Address, Content> {
    if replies == [] then map[]
    else
      var before, last := Successes(replies[..|replies| - 1]), replies[|replies| - 1];
      if last.content.Some? then before[last.addr := last.content.value] else before
  }

  ghost function Failures(replies: seq<Read>): set<Address> {
    if replies == [] then {}
    else
      var before, last := Failures(replies[..|replies| - 1]), replies[|replies| - 1];
      if last.content.None? then before + {last.addr} else before
  }

  ghost function RefreshSteps(replies: seq<Read>): seq<Step> {
    seq(|replies|, i requires 0 <= i < |replies| => Refresh(replies[i].addr, replies[i].content.Some?))
  }

  lemma {:induction false} AnsweredAddresses(replies: seq<Read>, a: Address)
    requires a in Successes(replies) || a in Failures(replies)
    ensures exists i :: 0 <= i < |replies| && replies[i].addr == a
  {
    if replies != [] && replies[|replies| - 1].addr != a { AnsweredAddresses(replies[..|replies| - 1], a); }
  }

  /** The next answer is new, and extends what was answered so far. */
  lemma NextRead(w: World, c: Cache, dirty: set<Address>, block: Block, replies: seq<Read>, i: nat)
    requires i < |replies| && Answers(w, c, dirty, block, replies)
    ensures replies[i].addr !in Successes(replies[..i]) && replies[i].addr !in Failures(replies[..i])
    ensures Successes(replies[..i + 1])
         == if replies[i].content.Some? then Successes(replies[..i])[replies[i].addr := replies[i].content.value]
             else Successes(replies[..i])
    ensures Failures(replies[..i + 1]) == if replies[i].content.None? then Failures(replies[..i]) + {replies[i].addr}
        else Failures(replies[..i])
    ensures replies[i].addr in dirty && replies[i].addr in c
  {
    var a := replies[i].addr;
    if a in Successes(replies[..i]) || a in Failures(replies[..i]) { AnsweredAddresses(replies[..i], a); }
    assert replies[..i + 1][..i] == replies[..i];
  }

  lemma StepsGrow(log: EventLog, w: World, s: Sync, replies: seq<Read>, i: nat)
    requires i < |replies|
    ensures Exec(log, w, s, RefreshSteps(replies[..i + 1]))
         == Apply(log, w, Exec(log, w, s, RefreshSteps(replies[..i])),
             Refresh(replies[i].addr, replies[i].content.Some?))
  {
    var all := RefreshSteps(replies[..i + 1]);
    assert all[..i] == RefreshSteps(replies[..i]);
  }

  ghost function RefreshAll(c: Cache, answers: map<Address, Content>, block: Block): Cache {
    map a | a in c :: if a in answers then AfterRefresh(c[a], answers[a], block) else c[a]
  }

  ghost function Unchanged(c: Cache, answers: map<Address, Content>): set<Address> {
    set a | a in answers && a in c && answers[a] == c[a].content
  }

  lemma RefreshNone(c: Cache, block: Block)
    ensures RefreshAll(c, map[], block) == c && Unchanged(c, map[]) == {}
  { }

  lemma RefreshAllStep(c: Cache, answers: map<Address, Content>, content: Content, block: Block, a: Address)
    requires a in c && a !in answers
    ensures RefreshAll(c, answers, block)[a] == c[a] && a !in Unchanged(c, answers)
    ensures RefreshAll(c, answers[a := content], block)
        == RefreshAll(c, answers, block)[a := AfterRefresh(c[a], content, block)]
    ensures Unchanged(c, answers[a := content]) == Unchanged(c, answers) + (if content == c[a].content then {a} else {})
  { }

  lemma LeftStep(dirty: set<Address>, same: set<Address>, a: Address)
    requires a in dirty && a !in same
    ensures dirty - same + {a} == dirty - (same + {})
    ensures dirty - same - {a} == dirty - (same + {a})
  { }

  /** k chunks are covered, as far as the scan goes at all, iff the first k requests are answered. */
  ghost predicate Reached(start: Block, end: Block, upTo: Block, size: nat, reply: nat -> LogScan.Reply, k: nat) {
    && ((forall i :: 0 <= i < k ==> reply(i) == LogScan.Answered) ==> end >= LogScan.Min(upTo, start + k * size))
    && (reply(k) != LogScan.Answered ==> end <= start + k * size)
  }

  lemma ReachedAt(start: Block, end: Block, upTo: Block, size: nat, reply: nat -> LogScan.Reply, done: nat,
                  failed: bool, k: nat)
    requires start < upTo && end == start + LogScan.Min(done * size, upTo - start) && size > 0
    requires (forall i :: 0 <= i < done ==> reply(i) == LogScan.Answered)
    requires if failed then reply(done) != LogScan.Answered else end == upTo
    ensures Reached(start, end, upTo, size, reply, k)
  {
    MulMono(k, done, size);
    MulMono(done, k, size);
  }

  /** How far an iteration from `start` may go: to the head, and no further than its chunks. */
  function Goal(start: Block, latest: Block, size: nat, maxChunks: nat): (r: Block)
    ensures latest <= start ==> r == start
    ensures latest > start ==> start <= r <= latest && (maxChunks > 0 && size > 0 ==> r <= start + maxChunks * size)
    ensures latest > start ==> r == latest || (maxChunks > 0 && r == start + maxChunks * size)
  {
    assert maxChunks * size > 0 <==> (maxChunks > 0 && size > 0) by {
      if maxChunks > 0 && size > 0 { MulMono(1, maxChunks, size); }
    }
    if latest <= start then start
    else if maxChunks * size > 0 then LogScan.Min(latest, start + maxChunks * size) else latest
  }

  /** One iteration from the watermark of s: it is the step Scan, never goes back or beyond its goal, marks exactly
      the pools with a log in the blocks it covers, and covers exactly the chunks answered before the first
      request that is not. */
  ghost predicate Iteration(log: EventLog, w: World, s: Sync, s': Sync, latest: Block, size: nat, maxChunks: nat,
                            reply: nat -> LogScan.Reply) {
    && s' == Apply(log, w, s, Scan(s'.scan)) && s.scan <= s'.scan <= Goal(s.scan, latest, size, maxChunks)
    && s'.pending == s.pending + Touched(log, s.cache.Keys, s.scan + 1, s'.scan)
    && forall k :: Reached(s.scan, s'.scan, Goal(s.scan, latest, size, maxChunks), size, reply, k)
  }

  lemma StaysAtGoal(start: Block, latest: Block, size: nat, maxChunks: nat, reply: nat -> LogScan.Reply)
    requires latest <= start
    ensures forall k :: Reached(start, start, Goal(start, latest, size, maxChunks), size, reply, k)
  {
    forall k: nat ensures Reached(start, start, start, size, reply, k) { assert k * size >= 0; }
  }

  lemma ScanKeepsSafe(log: EventLog, w: World, s: Sync, c: Block)
    requires Safe(log, s)
    ensures Safe(log, Apply(log, w, s, Scan(c)))
  {
    var s' := Apply(log, w, s, Scan(c));
    forall a | a in s'.cache && a !in s'.pending ensures Quiet(log, a, s'.cache[a].readAt, s'.scan) {
      if s' != s {
        var marked := Touched(log, s.cache.Keys, s.scan + 1, s'.scan);
        forall e | e in log && e.addr == a ensures !(s'.cache[a].readAt < e.block <= s'.scan) {
          assert s.scan < e.block <= s'.scan ==> e.addr in marked;
        }
      }
    }
  }

  // ---------------------------------------------------------------- interleavings

  /** The decision cycle: idle, or refreshing the pools it found dirty when it started. */
  datatype Cycle =
    | Idle
    | Refreshing(stateBlock: Block, dirty: set<Address>, resolved: set<Address>, unresolved: set<Address>)

  /** `floor` is the newest state block of any earlier cycle. */
  datatype Sync = Sync(scan: Block, pending: set<Address>, cache: Cache, cycle: Cycle, floor: Block)

  datatype Step =
    | Scan(checkpoint: Block)            // CommitScan after a scan of (scan, checkpoint]
    | Begin(stateBlock: Block)           // pendingDirtySnapshot
    | Refresh(a: Address, ok: bool)      // one result of refreshKnownDirty
    | Ack                                // ackPendingDirty
    | Cancel                             // the cycle returns before its ack

  /** One atomic section; a step that is not enabled does nothing.  The pool set is fixed and state blocks
      of successive cycles never go back. */
  ghost function Apply(log: EventLog, w: World, s: Sync, step: Step): Sync {
    match step
    case Scan(c) =>
      if c <= s.scan then s
      else s.(scan := c, pending := s.pending + Touched(log, s.cache.Keys, s.scan + 1, c))
    case Begin(b) =>
      if !s.cycle.Idle? || b < s.floor then s else s.(cycle := Refreshing(b, s.pending, {}, {}))
    case Refresh(a, ok) =>
      if !s.cycle.Refreshing? || a !in s.cycle.dirty || a !in s.cache || a in s.cycle.resolved + s.cycle.unresolved
          then s
      else if ok then
        s.(cache := Put(s.cache, a, Refreshed(s.cache[a], w(a, s.cycle.stateBlock), s.cycle.stateBlock), LabelOf),
           cycle := s.cycle.(resolved := s.cycle.resolved + {a}))
      else s.(cycle := s.cycle.(unresolved := s.cycle.unresolved + {a}))
    case Ack =>
      if !s.cycle.Refreshing? then s
      else s.(pending := s.pending - Acked(s), cycle := Idle, floor := s.cycle.stateBlock)
    case Cancel =>
      if !s.cycle.Refreshing? then s else s.(cycle := Idle, floor := s.cycle.stateBlock)
  }

  ghost function Acked(s: Sync): set<Address> {
    if s.cycle.Refreshing? then s.cycle.resolved - s.cycle.unresolved else {}
  }

  ghost function Exec(log: EventLog, w: World, s: Sync, steps: seq<Step>): Sync {
    if steps == [] then s else Apply(log, w, Exec(log, w, s, steps[..|steps| - 1]), steps[|steps| - 1])
  }

  // ---------------------------------------------------------------- invariants

  ghost function NewestBlock(s: Sync): Block { if s.cycle.Refreshing? then s.cycle.stateBlock else s.floor }

  /** What every step keeps without any hypothesis: a pool's content is what the chain held at its label and
      when it was read, no label or read lies beyond the cycle, and the cycle reads each dirty pool at most once,
      the resolved ones at its state block. */
  ghost predicate Consistent(w: World, s: Sync) {
    && (forall a :: a in s.cache ==> ConsistentPool(w, a, s.cache[a], NewestBlock(s)))
    && (s.cycle.Refreshing? ==>
         && s.floor <= s.cycle.stateBlock
         && s.cycle.dirty <= s.pending
         && s.cycle.resolved <= s.cycle.dirty && s.cycle.resolved !! s.cycle.unresolved
         && (forall a :: a in s.cycle.resolved ==> a in s.cache && s.cache[a].readAt == s.cycle.stateBlock))
  }

  ghost predicate ConsistentPool(w: World, a: Address, p: Pool, newest: Block) {
    p.updatedAt <= p.readAt <= newest && p.content == w(a, p.updatedAt) == w(a, p.readAt)
  }

  /** Sync safety: a pool outside the pending set has had no event after the block its cached content was
      read at, up to the scan watermark. */
  ghost predicate Safe(log: EventLog, s: Sync) {
    forall a :: a in s.cache && a !in s.pending ==> Quiet(log, a, s.cache[a].readAt, s.scan)
  }

  lemma ApplyKeepsConsistent(log: EventLog, w: World, s: Sync, step: Step)
    requires Consistent(w, s)
    ensures Consistent(w, Apply(log, w, s, step))
  { }

  lemma {:induction false} RunsStayConsistent(log: EventLog, w: World, s: Sync, steps: seq<Step>)
    requires Consistent(w, s)
    ensures Consistent(w, Exec(log, w, s, steps))
  {
    if steps != [] {
      RunsStayConsistent(log, w, s, steps[..|steps| - 1]);
      ApplyKeepsConsistent(log, w, Exec(log, w, s, steps[..|steps| - 1]), steps[|steps| - 1]);
    }
  }

  /** The hypothesis: the scanner is not ahead of the cycle that acknowledges. */
  ghost predicate TimelyAck(s: Sync, step: Step) {
    step.Ack? && s.cycle.Refreshing? ==> s.scan <= s.cycle.stateBlock
  }

  lemma ApplyKeepsSafe(log: EventLog, w: World, s: Sync, step: Step)
    requires Consistent(w, s) && Safe(log, s) && TimelyAck(s, step)
    ensures Safe(log, Apply(log, w, s, step))
  {
    if step.Scan? {
      ScanKeepsSafe(log, w, s, step.checkpoint);
    } else {
      var s' := Apply(log, w, s, step);
      forall a | a in s'.cache && a !in s'.pending ensures Quiet(log, a, s'.cache[a].readAt, s'.scan) {
        if step.Refresh? && a == step.a && s' != s { assert s'.cache[a].readAt >= s.cache[a].readAt; }
      }
    }
  }

  ghost predicate TimelyAcks(log: EventLog, w: World, s: Sync, steps: seq<Step>) {
    forall i :: 0 <= i < |steps| ==> TimelyAck(Exec(log, w, s, steps[..i]), steps[i])
  }

  lemma {:induction false} RunsStaySafe(log: EventLog, w: World, s: Sync, steps: seq<Step>)
    requires Consistent(w, s) && Safe(log, s) && TimelyAcks(log, w, s, steps)
    ensures Safe(log, Exec(log, w, s, steps))
  {
    if steps != [] {
      var before := steps[..|steps| - 1];
      forall i | 0 <= i < |before| ensures TimelyAck(Exec(log, w, s, before[..i]), before[i]) {
        assert before[..i] == steps[..i] && before[i] == steps[i];
      }
      RunsStaySafe(log, w, s, before);
      RunsStayConsistent(log, w, s, before);
      ApplyKeepsSafe(log, w, Exec(log, w, s, before), steps[|steps| - 1]);
    }
  }

  /** Every unmarked pool is cached with the content the chain holds at the watermark, or at the newer block it was
      read at. */
  ghost predicate Reflects(w: World, s: Sync) {
    forall a :: a in s.cache && a !in s.pending ==>
      s.cache[a].content == w(a, if s.cache[a].readAt > s.scan then s.cache[a].readAt else s.scan)
  }

  lemma SafeReflects(log: EventLog, w: World, s: Sync)
    requires EventsExplain(log, w) && Consistent(w, s) && Safe(log, s)
    ensures Reflects(w, s)
  {
    forall a | a in s.cache && a !in s.pending
      ensures s.cache[a].content == w(a, if s.cache[a].readAt > s.scan then s.cache[a].readAt else s.scan)
    {
      if s.cache[a].readAt <= s.scan { QuietKeepsContent(log, w, a, s.cache[a].readAt, s.scan); }
    }
  }

  /** Main result: over every interleaving whose acks are timely, each pool that is not pending is cached
      with exactly the content the chain holds at the scan watermark (or at the newer block it was read at), and
      has had no event in between. */
  lemma SyncSafety(log: EventLog, w: World, s: Sync, steps: seq<Step>)
    requires EventsExplain(log, w) && Consistent(w, s) && Safe(log, s) && TimelyAcks(log, w, s, steps)
    ensures Safe(log, Exec(log, w, s, steps)) && Reflects(w, Exec(log, w, s, steps))
  {
    RunsStaySafe(log, w, s, steps);
    RunsStayConsistent(log, w, s, steps);
    SafeReflects(log, w, Exec(log, w, s, steps));
  }

  /** The pool changes at one block and nothing else ever changes. */
  ghost function OneChange(pools: Cache, a: Address, block: Block, after: Content): World {
    (x: Address, b: Block) =>
      if x == a && b >= block then after else if x in pools then pools[x].content else Content(0, 0)
  }

  lemma OneChangeIsConsistent(w0: World, s: Sync, a: Address, b: Block, after: Content)
    requires Consistent(w0, s) && NewestBlock(s) < b
    ensures Consistent(OneChange(s.cache, a, b, after), s)
        && EventsExplain({Event(a, b)}, OneChange(s.cache, a, b, after))
  {
    var w := OneChange(s.cache, a, b, after);
    forall x: Address, n: Block | Event(x, n + 1) !in {Event(a, b)} ensures w(x, n + 1) == w(x, n) { }
  }

  /** An ack behind the scanner: a chain on which the acknowledged pool changed at the watermark. */
  lemma LateAckLosesChange(w0: World, s: Sync, a: Address) returns (log: EventLog, w: World)
    requires Consistent(w0, s) && s.cycle.Refreshing? && s.cycle.stateBlock < s.scan && a in Acked(s)
    ensures EventsExplain(log, w) && Consistent(w, s) && Safe(log, s)
    ensures !Safe(log, Apply(log, w, s, Ack)) && !Reflects(w, Apply(log, w, s, Ack))
  {
    var p := s.cache[a];
    var after := Content(p.content.liquidity + 1, p.content.sqrtPrice);
    log, w := {Event(a, s.scan)}, OneChange(s.cache, a, s.scan, after);
    OneChangeIsConsistent(w0, s, a, s.scan, after);
    var s' := Apply(log, w, s, Ack);
    assert a in s'.cache && a !in s'.pending && Event(a, s.scan) in log;
    assert !Quiet(log, a, s'.cache[a].readAt, s'.scan);
    assert w(a, s.scan) == after != s'.cache[a].content;
  }

  /** The hypothesis is exact: an ack keeps safety, and leaves every unmarked pool with the chain's content, on every
      chain that explains its events iff the scanner is not ahead of the cycle, or nothing is acknowledged. */
  lemma AckSafeIffTimely(w0: World, s: Sync)
    requires Consistent(w0, s) && s.cycle.Refreshing?
    ensures (forall log, w | EventsExplain(log, w) && Consistent(w, s)
        && Safe(log, s) :: Safe(log, Apply(log, w, s, Ack)))
       <==> s.scan <= s.cycle.stateBlock || Acked(s) == {}
    ensures (forall log, w | EventsExplain(log, w) && Consistent(w, s)
        && Safe(log, s) :: Reflects(w, Apply(log, w, s, Ack)))
       <==> s.scan <= s.cycle.stateBlock || Acked(s) == {}
  {
    if s.scan <= s.cycle.stateBlock || Acked(s) == {} {
      forall log, w | EventsExplain(log, w) && Consistent(w, s) && Safe(log, s)
        ensures Safe(log, Apply(log, w, s, Ack)) && Reflects(w, Apply(log, w, s, Ack))
      {
        var s' := Apply(log, w, s, Ack);
        if s.scan <= s.cycle.stateBlock { ApplyKeepsSafe(log, w, s, Ack); } else { assert s'.pending == s.pending; }
        ApplyKeepsConsistent(log, w, s, Ack);
        SafeReflects(log, w, s');
      }
    } else {
      var a :| a in Acked(s);
      var log, w := LateAckLosesChange(w0, s, a);
    }
  }

  lemma {:induction false} Leads(log: EventLog, w: World, s: Sync, steps: seq<Step>, states: seq<Sync>)
    requires |states| == |steps| + 1 && states[0] == s
    requires forall i :: 0 <= i < |steps| ==> states[i + 1] == Apply(log, w, states[i], steps[i])
    ensures Exec(log, w, s, steps) == states[|steps|]
  {
    if steps != [] { Leads(log, w, s, steps[..|steps| - 1], states[..|steps|]); }
  }

  ghost function RaceWorld(a: Address, b: Block, before: Content, after: Content): World {
    (x: Address, at: Block) => if x == a && at > b then after else before
  }

  ghost function RaceLog(a: Address, b: Block): EventLog { {Event(a, b), Event(a, b + 1)} }

  /** One pool, read at `at` and scanned up to `scan`. */
  ghost function RaceState(a: Address, content: Content, since: Block, at: Block, scan: Block,
                           pending: set<Address>, cycle: Cycle, floor: Block): Sync {
    Sync(scan, pending, map[a := Pool(since, content, at)], cycle, floor)
  }

  lemma RaceMarks(a: Address, b: Block, c: Cache)
    requires c.Keys == {a}
    ensures Touched(RaceLog(a, b), c.Keys, b, b) == {a} && Touched(RaceLog(a, b), c.Keys, b + 1, b + 1) == {a}
  {
    assert Event(a, b) in RaceLog(a, b) && Event(a, b + 1) in RaceLog(a, b);
  }

  lemma RaceStart(a: Address, b: Block, before: Content, after: Content)
    ensures var log, w, s :=
        RaceLog(a, b + 1), RaceWorld(a, b + 1, before, after), RaceState(a, before, b, b, b, {}, Idle, b);
            EventsExplain(log, w) && Consistent(w, s) && Safe(log, s)
  {
    assert Event(a, b + 2) in RaceLog(a, b + 1);
  }

  /** The race, state by state. */
  ghost function RaceStates(a: Address, b: Block, before: Content): seq<Sync> {
    [RaceState(a, before, b, b, b, {}, Idle, b),
     RaceState(a, before, b, b, b + 1, {a}, Idle, b),
     RaceState(a, before, b, b, b + 1, {a}, Refreshing(b + 1, {a}, {}, {}), b),
     RaceState(a, before, b, b + 1, b + 1, {a}, Refreshing(b + 1, {a}, {a}, {}), b),
     RaceState(a, before, b, b + 1, b + 2, {a}, Refreshing(b + 1, {a}, {a}, {}), b),
     RaceState(a, before, b, b + 1, b + 2, {}, Idle, b + 1)]
  }

  ghost function RaceSteps(a: Address, b: Block): seq<Step> {
    [Scan(b + 1), Begin(b + 1), Refresh(a, true), Scan(b + 2), Ack]
  }

  lemma RaceStep(a: Address, b: Block, before: Content, after: Content, i: nat)
    requires i < 5
    ensures RaceStates(a, b, before)[i + 1]
         == Apply(RaceLog(a, b + 1), RaceWorld(a, b + 1, before, after), RaceStates(a, b, before)[i],
             RaceSteps(a, b)[i])
  {
    var s, next := RaceStates(a, b, before)[i], RaceStates(a, b, before)[i + 1];
    RaceMarks(a, b + 1, s.cache);
    var s' := Apply(RaceLog(a, b + 1), RaceWorld(a, b + 1, before, after), s, RaceSteps(a, b)[i]);
    assert s'.cache == next.cache;
    assert s'.pending == next.pending;
    assert s'.cycle == next.cycle;
  }

  /** The race in one trace: the scanner re-marks a pool for the block after the one at which the cycle
      refreshes it, and the ack of that cycle erases the mark. */
  lemma AckRaceTrace(a: Address, b: Block, before: Content, after: Content)
    requires before != after
    ensures var log, w := RaceLog(a, b + 1), RaceWorld(a, b + 1, before, after);
            var s := RaceState(a, before, b, b, b, {}, Idle, b);
            var t := Exec(log, w, s, RaceSteps(a, b));
            && EventsExplain(log, w) && Consistent(w, s) && Safe(log, s)
            && t.scan == b + 2 && t.pending == {} && a in t.cache && t.cache[a].content != w(a, b + 2)
  {
    var log, w, s := RaceLog(a, b + 1), RaceWorld(a, b + 1, before, after), RaceState(a, before, b, b, b, {}, Idle, b);
    RaceStart(a, b, before, after);
    var states, steps := RaceStates(a, b, before), RaceSteps(a, b);
    forall i | 0 <= i < |steps| ensures states[i + 1] == Apply(log, w, states[i], steps[i]) {
      RaceStep(a, b, before, after, i);
    }
    Leads(log, w, s, steps, states);
  }

  /** Without any hypothesis: whatever a cycle acknowledges was read at its state block, so it reflects every
      event up to that block. */
  lemma AckedPoolsReflectStateBlock(log: EventLog, w: World, s: Sync, steps: seq<Step>, a: Address)
    requires Consistent(w, s)
    requires var t := Exec(log, w, s, steps); a in t.pending && a !in Apply(log, w, t, Ack).pending
    ensures var t := Exec(log, w, s, steps);
            && t.cycle.Refreshing? && a in t.cycle.resolved
            && a in t.cache && t.cache[a].content == w(a, t.cycle.stateBlock)
  {
    RunsStayConsistent(log, w, s, steps);
  }

  /** Marks disappear only through an ack: a stretch without one, such as a cycle that is cancelled, removes
      nothing, and the watermark never goes back. */
  lemma {:induction false} OnlyAcksRemoveMarks(log: EventLog, w: World, s: Sync, steps: seq<Step>)
    ensures Exec(log, w, s, steps).scan >= s.scan
    ensures (forall i :: 0 <= i < |steps| ==> !steps[i].Ack?) ==> s.pending <= Exec(log, w, s, steps).pending
  {
    if steps != [] { OnlyAcksRemoveMarks(log, w, s, steps[..|steps| - 1]); }
  }

  /** Guarded writes of a run never move a pool's label back and never lose a pool. */
  lemma {:induction false} LabelsNeverGoBack(log: EventLog, w: World, s: Sync, steps: seq<Step>, a: Address)
    requires a in s.cache
    ensures var t := Exec(log, w, s, steps); a in t.cache && t.cache[a].updatedAt >= s.cache[a].updatedAt
  {
    if steps != [] { LabelsNeverGoBack(log, w, s, steps[..|steps| - 1], a); }
  }
}
