/** The chunked eth_getLogs scan (go/internal/pools/pools.go) and the checkpoint the synchronizer derives
    from its success count (go/internal/market/engine.go). Block arithmetic wraps at 64 bits as in Go. */
module LogScan {

  import opened Chain

  /** How the request for one chunk ends: the context was done before it, the call failed, or it answered. */
  datatype Reply = Cancelled | Failed | Answered

  datatype Stats = Stats(attempted: nat, succeeded: nat, failed: nat, blocks: nat)

  /** One eth_getLogs filter: an inclusive block range. */
  datatype Range = Range(lo: nat, hi: nat)

  const EMPTY: Stats := Stats(0, 0, 0, 0)

  /** The chunks cover an initial part of [from, to] in order, without gap or overlap; all but a final one
      that ends at `to` have exactly `size` blocks. */
  ghost predicate Tiles(chunks: seq<Range>, from: nat, to: nat, size: nat) {
    forall i {:trigger Tile(chunks, i, from, to, size)} :: 0 <= i < |chunks| ==> Tile(chunks, i, from, to, size)
  }

  ghost predicate Tile(chunks: seq<Range>, i: nat, from: nat, to: nat, size: nat)
    requires i < |chunks|
  {
    var c := chunks[i];
    && c.lo == PrefixEnd(chunks, i, from) + 1 && c.lo <= c.hi <= to
    && (c.hi - c.lo + 1 == size || (c.hi == to && c.hi - c.lo + 1 < size))
  }

  /** The last block of the first k chunks, or the block before `from`. */
  ghost function PrefixEnd(chunks: seq<Range>, k: nat, from: nat): int
    requires k <= |chunks|
  {
    if k == 0 then from - 1 else chunks[k - 1].hi
  }

  /** A scan without a usable start looks at the last block only. */
  function EffectiveFrom(from: nat, to: nat): (r: nat)
    ensures 1 <= from <= to ==> r == from
    ensures !(1 <= from <= to) ==> r == to
  {
    if from == 0 || from > to then to else from
  }

  /** The scan.  `chunks` are the filters sent, `changed` the addresses in the answers received. */
  method ChangedPoolAddresses(log: EventLog, pools: set<Address>, from: nat, to: nat, size: nat,
                              supported: bool, reply: nat -> Reply)
    returns (changed: set<Address>, stats: Stats, failed: bool, chunks: seq<Range>)
    requires 1 <= size < UINT64 && from < UINT64 && to < UINT64
    ensures pools == {} || to == 0 ==> changed == {} && stats == EMPTY && !failed
    ensures pools != {} && to > 0 && !supported ==> changed == {} && stats == EMPTY && failed
    ensures Tiles(chunks, EffectiveFrom(from, to), to, size)
    ensures |chunks| == stats.attempted == stats.succeeded + stats.failed && stats.failed <= 1
    ensures changed == Touched(log, pools, EffectiveFrom(from, to),
        PrefixEnd(chunks, stats.succeeded, EffectiveFrom(from, to)))
    ensures !failed && pools != {} && to > 0 ==> PrefixEnd(chunks, stats.succeeded, EffectiveFrom(from, to)) == to
    ensures failed && supported ==> PrefixEnd(chunks, stats.succeeded, EffectiveFrom(from, to)) < to
    ensures forall i :: 0 <= i < stats.succeeded ==> reply(i) == Answered
    ensures failed && supported ==> reply(stats.succeeded) == if stats.failed == 1 then Failed else Cancelled
    ensures pools != {} && to > 0 && supported ==>
        stats.blocks == PrefixEnd(chunks, |chunks|, EffectiveFrom(from, to)) + 1 - EffectiveFrom(from, to)
  {
    changed, stats, failed, chunks := {}, EMPTY, false, [];
    if pools == {} || to == 0 { return; }
    if !supported { return changed, stats, true, chunks; }
    var first := if from == 0 || from > to then to else from;
    var chunkStart, chunkIndex := first, 0;
    assert Touched(log, pools, first, first - 1) == {};
    while chunkStart <= to
      invariant first <= chunkStart <= to
      invariant stats == Stats(chunkIndex, chunkIndex, 0, chunkStart - first) && |chunks| == chunkIndex
      invariant Scanned(log, pools, chunks, first, to, size, chunkStart - 1, changed)
      invariant forall i :: 0 <= i < chunkIndex ==> reply(i) == Answered
    {
      if reply(chunkIndex) == Cancelled { return changed, stats, true, chunks; }
      var chunkEnd := ChunkEnd(chunkStart, size, to);
      ScanStep(log, pools, chunks, first, to, size, chunkStart, chunkEnd, changed);
      stats := stats.(attempted := stats.attempted + 1, blocks := stats.blocks + (chunkEnd - chunkStart + 1));
      chunks := chunks + [Range(chunkStart, chunkEnd)];
      if reply(chunkIndex) == Failed {
        stats := stats.(failed := 1);
        return changed, stats, true, chunks;
      }
      stats := stats.(succeeded := stats.succeeded + 1);
      changed := changed + LogsOf(log, pools, chunkStart, chunkEnd);
      if chunkEnd == to { break; }
      chunkStart := chunkEnd + 1;
      chunkIndex := chunkIndex + 1;
    }
  }

  /** Every chunk sent was answered; together they cover the range up to `done`. */
  ghost predicate Scanned(log: EventLog, pools: set<Address>, chunks: seq<Range>, first: nat, to: nat, size: nat,
                          done: int, changed: set<Address>) {
    && Tiles(chunks, first, to, size) && PrefixEnd(chunks, |chunks|, first) == done
    && changed == Touched(log, pools, first, done)
  }

  lemma ScanStep(log: EventLog, pools: set<Address>, chunks: seq<Range>, first: nat, to: nat, size: nat,
                 start: nat, end: nat, changed: set<Address>)
    requires Scanned(log, pools, chunks, first, to, size, start - 1, changed)
    requires 1 <= size && first <= start <= to && end == if start + size - 1 > to then to else start + size - 1
    ensures var next := chunks + [Range(start, end)];
            && Scanned(log, pools, next, first, to, size, end, changed + LogsOf(log, pools, start, end))
            && PrefixEnd(next, |chunks|, first) == start - 1
  {
    TilesExtend(chunks, first, to, size, start, end);
    TouchedSplits(log, pools, first, start, end);
  }

  /** The answer to one filter: the addresses that logged something in it. */
  function LogsOf(log: EventLog, pools: set<Address>, lo: nat, hi: nat): (r: set<Address>)
    ensures r == Touched(log, pools, lo, hi)
  {
    set e | e in log && e.addr in pools && lo <= e.block <= hi :: e.addr
  }

  /** The end of a chunk.  The sum may wrap; the comparison with `start` catches that, so the result is
      the smaller of the nominal end and `to`. */
  function ChunkEnd(start: nat, size: nat, to: nat): (end: nat)
    requires 1 <= size < UINT64 && start <= to < UINT64
    ensures end == if start + size - 1 > to then to else start + size - 1
  {
    assert start + size - 1 >= UINT64 ==> (start + size - 1) % UINT64 == start + size - 1 - UINT64;
    var end := (start + size - 1) % UINT64;
    if end < start || end > to then to else end
  }

  lemma TilesExtend(chunks: seq<Range>, from: nat, to: nat, size: nat, start: nat, end: nat)
    requires Tiles(chunks, from, to, size) && PrefixEnd(chunks, |chunks|, from) == start - 1
    requires 1 <= size && start <= to && end == if start + size - 1 > to then to else start + size - 1
    ensures Tiles(chunks + [Range(start, end)], from, to, size)
  {
    var next := chunks + [Range(start, end)];
    forall i | 0 <= i < |next| ensures Tile(next, i, from, to, size) {
      if i < |chunks| { assert Tile(chunks, i, from, to, size); }
    }
  }

  lemma TouchedSplits(log: EventLog, pools: set<Address>, lo: nat, mid: nat, hi: int)
    requires lo <= mid && mid - 1 <= hi
    ensures Touched(log, pools, lo, hi) == Touched(log, pools, lo, mid - 1) + Touched(log, pools, mid, hi)
  {
    forall a | a in Touched(log, pools, lo, hi)
      ensures a in Touched(log, pools, lo, mid - 1) + Touched(log, pools, mid, hi)
    {
      var e :| e in log && e.addr == a && e.addr in pools && lo <= e.block <= hi;
      if e.block <= mid - 1 {
        assert a in Touched(log, pools, lo, mid - 1);
      } else {
        assert a in Touched(log, pools, mid, hi);
      }
    }
  }

  // ---------------------------------------------------------------- checkpoint

  function Min(a: nat, b: nat): nat { if a < b then a else b }

  /** The synchronizer's checkpoint: computed from the success count alone; 0 when nothing succeeded. */
  function Checkpoint(from: nat, to: nat, size: nat, succeeded: nat): nat
    requires from <= to
  {
    var successBlocks := Min(succeeded * size, to - from + 1);
    if successBlocks > 0 then from + successBlocks - 1 else 0
  }

  lemma {:induction false} FullChunks(chunks: seq<Range>, from: nat, to: nat, size: nat, k: nat)
    requires Tiles(chunks, from, to, size) && size > 0 && from <= to && k <= |chunks|
    ensures PrefixEnd(chunks, k, from) == from - 1 + Min(k * size, to - from + 1)
  {
    if k > 0 {
      FullChunks(chunks, from, to, size, k - 1);
      assert (k - 1) * size + size == k * size;
      assert Tile(chunks, k - 1, from, to, size);
      assert k > 1 ==> Tile(chunks, k - 2, from, to, size);
    }
  }

  /** Whatever the range, the chunk size and the failure point, the checkpoint computed from the success
      count is the last block of the successful prefix. */
  lemma CheckpointIsExact(chunks: seq<Range>, from: nat, to: nat, size: nat, succeeded: nat)
    requires Tiles(chunks, from, to, size) && size > 0 && from <= to && succeeded <= |chunks|
    ensures succeeded == 0 ==> Checkpoint(from, to, size, succeeded) == 0
    ensures succeeded > 0 ==> Checkpoint(from, to, size, succeeded) == chunks[succeeded - 1].hi
  {
    FullChunks(chunks, from, to, size, succeeded);
    if succeeded > 0 { assert succeeded * size >= 1 * size; }
  }

  /** The chunks of a complete scan put every block of the range in exactly one chunk. */
  lemma {:induction false} EachBlockInOneChunk(chunks: seq<Range>, from: nat, to: nat, size: nat, b: nat)
    requires Tiles(chunks, from, to, size) && chunks != [] && from <= b <= chunks[|chunks| - 1].hi
    ensures exists i :: 0 <= i < |chunks| && chunks[i].lo <= b <= chunks[i].hi
    ensures forall i, j :: 0 <= i < j < |chunks| ==> chunks[i].hi < chunks[j].lo
  {
    var last := |chunks| - 1;
    var init := chunks[..last];
    forall i | 0 <= i < last ensures Tile(init, i, from, to, size) { assert Tile(chunks, i, from, to, size); }
    assert Tile(chunks, last, from, to, size);
    if last > 0 {
      assert Tile(chunks, last - 1, from, to, size);
      var b' := if b < chunks[last].lo then b else from;
      assert init[last - 1] == chunks[last - 1];
      ChunksOrdered(chunks, from, to, size, last - 1);
      assert from <= b' <= init[|init| - 1].hi;
      EachBlockInOneChunk(init, from, to, size, b');
      if b < chunks[last].lo {
        var i :| 0 <= i < |init| && init[i].lo <= b <= init[i].hi;
        assert chunks[i] == init[i];
      }
      forall i, j | 0 <= i < j < |chunks| ensures chunks[i].hi < chunks[j].lo {
        if j < last { assert init[i] == chunks[i] && init[j] == chunks[j]; }
        else if i < last - 1 { assert init[i] == chunks[i] && init[i].hi < init[last - 1].lo; }
      }
    }
  }

  lemma {:induction false} ChunksOrdered(chunks: seq<Range>, from: nat, to: nat, size: nat, k: nat)
    requires Tiles(chunks, from, to, size) && k < |chunks|
    ensures from <= chunks[k].hi
  {
    if k > 0 {
      ChunksOrdered(chunks, from, to, size, k - 1);
    }
    assert Tile(chunks, k, from, to, size);
  }
}
