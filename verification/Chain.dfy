/** What the models assume of the chain: numbered blocks, an immutable event log, and pool contents that
    only change in a block that carries an event of that pool. */
module Chain {

  type Address = nat
  type Block = nat

  const UINT64: nat := 0x1_0000_0000_0000_0000

  datatype Event = Event(addr: Address, block: Block)

  /** Every event of the pools under watch. */
  type EventLog = set<Event>

  /** The mutable part of a pool: what `poolChanged` compares. */
  datatype Content = Content(liquidity: nat, sqrtPrice: nat)

  /** The content of every pool at every block. */
  type World = (Address, Block) -> Content

  /** The pools of `addrs` with an event in the inclusive block range. */
  ghost function Touched(log: EventLog, addrs: set<Address>, lo: nat, hi: int): set<Address> {
    set e | e in log && e.addr in addrs && lo <= e.block <= hi :: e.addr
  }

  /** No event of `a` in the half-open range (lo, hi]. */
  ghost predicate Quiet(log: EventLog, a: Address, lo: int, hi: int) {
    forall e :: e in log && e.addr == a ==> !(lo < e.block <= hi)
  }

  /** A block without an event of a pool leaves that pool as it was. */
  ghost predicate EventsExplain(log: EventLog, w: World) {
    forall a: Address, b: Block :: Event(a, b + 1) !in log ==> w(a, b + 1) == w(a, b)
  }

  lemma {:induction false} QuietKeepsContent(log: EventLog, w: World, a: Address, lo: nat, hi: nat)
    requires EventsExplain(log, w) && lo <= hi && Quiet(log, a, lo, hi)
    ensures w(a, hi) == w(a, lo)
    decreases hi - lo
  {
    if lo < hi {
      QuietKeepsContent(log, w, a, lo, hi - 1);
      assert Event(a, hi - 1 + 1) !in log;
    }
  }

  /** The guarded write of the pool cache: a pool with an older label never replaces one with a newer label. */
  function Put<P>(c: map<Address, P>, a: Address, p: P, labelOf: P -> Block): map<Address, P> {
    if a !in c || labelOf(p) >= labelOf(c[a]) then c[a := p] else c
  }
}
