/** The liquidity graph and its bounded cycle search (go/internal/graph/graph.go).

    Asset names and lower-cased addresses are numbers in Go's order. */
module Graph {
  import opened Arith

  type Asset = nat
  type Address = nat

  datatype Pool = Pool(address: Address, token0: Address, token1: Address, liquidity: int)

  datatype Edge = Edge(source: Asset, target: Asset, pool: Pool)

  datatype Route = Route(assets: seq<Asset>, hops: seq<Pool>)

  type Adjacency = map<Asset, seq<Edge>>

  // ---------------------------------------------------------------- adjacency lists

  /** The list without the edges of one pool. */
  function Drop(es: seq<Edge>, address: Address): seq<Edge> {
    if es == [] then []
    else Drop(es[..|es| - 1], address) + (if es[|es| - 1].pool.address != address then [es[|es| - 1]] else [])
  }

  predicate Less(x: Edge, y: Edge) {
    x.target < y.target || (x.target == y.target && x.pool.address < y.pool.address)
  }

  ghost predicate Sorted(es: seq<Edge>) { forall i, j :: 0 <= i < j < |es| ==> Less(es[i], es[j]) }

  /** Append and sort: in a sorted list that is an insertion. */
  function Insert(es: seq<Edge>, e: Edge): seq<Edge> {
    if es == [] || Less(es[|es| - 1], e) then es + [e] else Insert(es[..|es| - 1], e) + [es[|es| - 1]]
  }

  function Edges(g: Adjacency, a: Asset): seq<Edge> { if a in g then g[a] else [] }

  function DropEverywhere(g: Adjacency, address: Address): Adjacency { map a | a in g :: Drop(g[a], address) }

  function Link(g: Adjacency, a: Asset, b: Asset, pool: Pool): Adjacency
    requires a in g && b in g
  {
    g[a := Insert(g[a], Edge(a, b, pool))][b :=
        Insert(if a == b then Insert(g[a], Edge(a, b, pool)) else g[b], Edge(b, a, pool))]
  }

  predicate Usable(tokens: map<Address, Asset>, pool: Pool) {
    pool.liquidity > 0 && pool.token0 in tokens && pool.token1 in tokens && tokens[pool.token0] != tokens[pool.token1]
  }

  function Upsert(tokens: map<Address, Asset>, g: Adjacency, pool: Pool): Adjacency
    requires forall t :: t in tokens ==> tokens[t] in g
  {
    if !Usable(tokens, pool) then g
    else Link(DropEverywhere(g, pool.address), tokens[pool.token0], tokens[pool.token1], pool)
  }

  /** Each pool is exactly one edge in each direction: lists are sorted, an edge sits in its source's list and
      joins the assets of its pool, a pool appears at most once per list, its reverse edge exists, and all edges
      of one address carry the same pool. */
  ghost predicate WellFormed(tokens: map<Address, Asset>, g: Adjacency) {
    (forall t :: t in tokens ==> tokens[t] in g) && OrderedLists(g) && ProperEdges(tokens, g) && OnePoolPerAddress(g)
  }

  ghost predicate OrderedLists(g: Adjacency) { forall a :: a in g ==> Sorted(g[a]) && OncePerList(g[a]) }

  ghost predicate ProperEdges(tokens: map<Address, Asset>, g: Adjacency) {
    forall a, e :: a in g && e in g[a] ==> ProperEdge(tokens, g, a, e)
  }

  ghost predicate OnePoolPerAddress(g: Adjacency) {
    forall e, f :: Has(g, e) && Has(g, f) && e.pool.address == f.pool.address ==> e.pool == f.pool
  }

  predicate Has(g: Adjacency, e: Edge) { e.source in g && e in g[e.source] }

  /** Which pools are refused: without liquidity, with a token that is not configured, or of one asset only. */
  lemma RefusedPool(tokens: map<Address, Asset>, pool: Pool)
    ensures !Usable(tokens, pool) <==>
            || pool.liquidity <= 0 || pool.token0 !in tokens || pool.token1 !in tokens
            || tokens[pool.token0] == tokens[pool.token1]
  { }

  /** Sorted by target, and by address within one target. */
  lemma SortedMeans(es: seq<Edge>, i: nat, j: nat)
    requires Sorted(es) && i < j < |es|
    ensures es[i].target <= es[j].target
    ensures es[i].target == es[j].target ==> es[i].pool.address < es[j].pool.address
  {
    assert Less(es[i], es[j]);
  }

  ghost predicate OncePerList(es: seq<Edge>) {
    forall i, j :: 0 <= i < j < |es| ==> es[i].pool.address != es[j].pool.address
  }

  ghost predicate ProperEdge(tokens: map<Address, Asset>, g: Adjacency, a: Asset, e: Edge) {
    && Usable(tokens, e.pool) && e.source == a && {e.source, e.target} == {tokens[e.pool.token0], tokens[e.pool.token1]}
    && e.source != e.target && e.target in g && Edge(e.target, e.source, e.pool) in g[e.target]
  }

  lemma {:induction false} DropMembers(es: seq<Edge>, address: Address)
    ensures forall e :: e in Drop(es, address) <==> e in es && e.pool.address != address
  {
    if es != [] {
      assert es == es[..|es| - 1] + [es[|es| - 1]];
      DropMembers(es[..|es| - 1], address);
    }
  }

  lemma {:induction false} DropOrder(es: seq<Edge>, address: Address)
    requires Sorted(es) && OncePerList(es)
    ensures Sorted(Drop(es, address)) && OncePerList(Drop(es, address))
  {
    if es != [] {
      var init, last := es[..|es| - 1], es[|es| - 1];
      DropOrder(init, address);
      DropMembers(init, address);
      var d := Drop(init, address);
      forall i | 0 <= i < |d| ensures Less(d[i], last) && d[i].pool.address != last.pool.address {
        assert d[i] in init;
        var j :| 0 <= j < |init| && init[j] == d[i];
        assert Less(es[j], es[|es| - 1]);
      }
    }
  }

  lemma DropFacts(es: seq<Edge>, address: Address)
    ensures forall e :: e in Drop(es, address) <==> e in es && e.pool.address != address
    ensures Sorted(es) && OncePerList(es) ==> Sorted(Drop(es, address)) && OncePerList(Drop(es, address))
  {
    DropMembers(es, address);
    if Sorted(es) && OncePerList(es) { DropOrder(es, address); }
  }

  ghost predicate Before(es: seq<Edge>, e: Edge) {
    forall i :: 0 <= i < |es| ==> Less(es[i], e) && es[i].pool.address != e.pool.address
  }

  lemma AppendFacts(es: seq<Edge>, e: Edge)
    requires Sorted(es) && OncePerList(es) && Before(es, e)
    ensures Sorted(es + [e]) && OncePerList(es + [e])
    ensures forall x :: x in es + [e] <==> x in es || x == e
  { }

  lemma BeforeLast(es: seq<Edge>, e: Edge)
    requires es != [] && Sorted(es) && OncePerList(es)
    requires Less(es[|es| - 1], e) && forall x :: x in es ==> x.pool.address != e.pool.address
    ensures Before(es, e)
  {
    var last := es[|es| - 1];
    forall i | 0 <= i < |es| ensures Less(es[i], e) && es[i].pool.address != e.pool.address {
      assert es[i] in es;
      assert i < |es| - 1 ==> Less(es[i], last);
    }
  }

  lemma InitFacts(es: seq<Edge>)
    requires es != [] && Sorted(es) && OncePerList(es)
    ensures Sorted(es[..|es| - 1]) && OncePerList(es[..|es| - 1]) && Before(es[..|es| - 1], es[|es| - 1])
    ensures forall x :: x in es <==> x in es[..|es| - 1] || x == es[|es| - 1]
  {
    assert es == es[..|es| - 1] + [es[|es| - 1]];
  }

  lemma BeforeMembers(es: seq<Edge>, t: seq<Edge>, e: Edge, last: Edge)
    requires Before(es, last) && (forall x :: x in t ==> x in es || x == e)
    requires Less(e, last) && e.pool.address != last.pool.address
    ensures Before(t, last)
  {
    forall i | 0 <= i < |t| ensures Less(t[i], last) && t[i].pool.address != last.pool.address {
      assert t[i] in t;
    }
  }

  lemma {:induction false} InsertFacts(es: seq<Edge>, e: Edge)
    requires Sorted(es) && OncePerList(es) && forall x :: x in es ==> x.pool.address != e.pool.address
    ensures forall x :: x in Insert(es, e) <==> x in es || x == e
    ensures Sorted(Insert(es, e)) && OncePerList(Insert(es, e))
  {
    if es == [] || Less(es[|es| - 1], e) {
      if es != [] { BeforeLast(es, e); }
      AppendFacts(es, e);
    } else {
      var init, last := es[..|es| - 1], es[|es| - 1];
      InitFacts(es);
      InsertFacts(init, e);
      BeforeMembers(init, Insert(init, e), e, last);
      AppendFacts(Insert(init, e), last);
    }
  }

  /** Membership is all the edge conditions look at, so they survive any change that keeps it. */
  lemma DropEverywhereKeeps(tokens: map<Address, Asset>, g: Adjacency, address: Address)
    requires WellFormed(tokens, g)
    ensures WellFormed(tokens, DropEverywhere(g, address))
    ensures forall a, e :: a in g && e in DropEverywhere(g, address)[a] ==> e.pool.address != address
  {
    var g' := DropEverywhere(g, address);
    assert OrderedLists(g') by {
      forall a | a in g ensures Sorted(g'[a]) && OncePerList(g'[a]) { DropFacts(g[a], address); }
    }
    forall a: Asset, e: Edge | a in g' && e in g'[a] ensures e.pool.address != address && ProperEdge(tokens, g', a, e) {
      DropFacts(g[a], address);
      assert ProperEdge(tokens, g, a, e);
      DropFacts(g[e.target], address);
    }
    assert OnePoolPerAddress(g') by {
      forall e, f | Has(g', e) && Has(g', f) && e.pool.address == f.pool.address ensures e.pool == f.pool {
        DropFacts(g[e.source], address);
        DropFacts(g[f.source], address);
        assert Has(g, e) && Has(g, f);
      }
    }
  }

  lemma LinkMembers(g: Adjacency, a: Asset, b: Asset, pool: Pool, x: Asset, e: Edge)
    requires a in g && b in g && a != b && x in g
    requires forall y :: y in g ==> Sorted(g[y]) && OncePerList(g[y]) && forall f :: f in g[y] ==>
        f.pool.address != pool.address
    ensures e in Link(g, a, b, pool)[x] <==>
            e in g[x] || (x == a && e == Edge(a, b, pool)) || (x == b && e == Edge(b, a, pool))
    ensures Sorted(Link(g, a, b, pool)[x]) && OncePerList(Link(g, a, b, pool)[x])
  {
    InsertFacts(g[a], Edge(a, b, pool));
    InsertFacts(g[b], Edge(b, a, pool));
  }

  /** The state a new pool is linked into: well-formed, and holding no edge of that pool. */
  ghost predicate ReadyFor(tokens: map<Address, Asset>, g: Adjacency, pool: Pool) {
    WellFormed(tokens, g) && Usable(tokens, pool) && forall a, e :: a in g && e in g[a] ==>
        e.pool.address != pool.address
  }

  lemma LinkProper(tokens: map<Address, Asset>, g: Adjacency, pool: Pool, x: Asset, e: Edge)
    requires ReadyFor(tokens, g, pool)
    requires x in g && e in Link(g, tokens[pool.token0], tokens[pool.token1], pool)[x]
    ensures ProperEdge(tokens, Link(g, tokens[pool.token0], tokens[pool.token1], pool), x, e)
  {
    var a, b := tokens[pool.token0], tokens[pool.token1];
    LinkMembers(g, a, b, pool, x, e);
    if e in g[x] {
      assert ProperEdge(tokens, g, x, e);
      LinkMembers(g, a, b, pool, e.target, Edge(e.target, x, e.pool));
    } else {
      LinkMembers(g, a, b, pool, e.target, Edge(e.target, x, pool));
    }
  }

  lemma LinkAgrees(tokens: map<Address, Asset>, g: Adjacency, pool: Pool)
    requires ReadyFor(tokens, g, pool)
    ensures OnePoolPerAddress(Link(g, tokens[pool.token0], tokens[pool.token1], pool))
  {
    var a, b := tokens[pool.token0], tokens[pool.token1];
    var g' := Link(g, a, b, pool);
    forall e, f | Has(g', e) && Has(g', f) && e.pool.address == f.pool.address ensures e.pool == f.pool {
      LinkMembers(g, a, b, pool, e.source, e);
      LinkMembers(g, a, b, pool, f.source, f);
      assert e.pool == pool || Has(g, e);
      assert f.pool == pool || Has(g, f);
    }
  }

  lemma LinkKeeps(tokens: map<Address, Asset>, g: Adjacency, pool: Pool)
    requires ReadyFor(tokens, g, pool)
    ensures WellFormed(tokens, Link(g, tokens[pool.token0], tokens[pool.token1], pool))
  {
    var a, b := tokens[pool.token0], tokens[pool.token1];
    var g' := Link(g, a, b, pool);
    assert OrderedLists(g') by {
      forall x | x in g' ensures Sorted(g'[x]) && OncePerList(g'[x]) {
        LinkMembers(g, a, b, pool, x, Edge(a, b, pool));
      }
    }
    assert ProperEdges(tokens, g') by {
      forall x: Asset, e: Edge | x in g' && e in g'[x] ensures ProperEdge(tokens, g', x, e) {
        LinkProper(tokens, g, pool, x, e);
      }
    }
    LinkAgrees(tokens, g, pool);
  }

  lemma UpsertKeepsWellFormed(tokens: map<Address, Asset>, g: Adjacency, pool: Pool)
    requires WellFormed(tokens, g)
    ensures WellFormed(tokens, Upsert(tokens, g, pool))
  {
    if Usable(tokens, pool) {
      DropEverywhereKeeps(tokens, g, pool.address);
      LinkKeeps(tokens, DropEverywhere(g, pool.address), pool);
    }
  }

  /** An accepted pool replaces every earlier edge of its address by one edge in each direction; all other
      edges stay. */
  lemma UpsertEdges(tokens: map<Address, Asset>, g: Adjacency, pool: Pool, e: Edge)
    requires WellFormed(tokens, g) && Usable(tokens, pool)
    ensures var a, b := tokens[pool.token0], tokens[pool.token1];
            Has(Upsert(tokens, g, pool), e) <==>
                (Has(g, e) && e.pool.address != pool.address) || e == Edge(a, b, pool) || e == Edge(b, a, pool)
  {
    var a, b := tokens[pool.token0], tokens[pool.token1];
    var dropped := DropEverywhere(g, pool.address);
    DropEverywhereKeeps(tokens, g, pool.address);
    if e.source in g {
      DropFacts(g[e.source], pool.address);
      LinkMembers(dropped, a, b, pool, e.source, e);
    }
  }

  ghost function UpsertAll(tokens: map<Address, Asset>, g: Adjacency, pools: seq<Pool>): (r: Adjacency)
    requires WellFormed(tokens, g)
    ensures WellFormed(tokens, r)
  {
    if pools == [] then g
    else
      var before := UpsertAll(tokens, g, pools[..|pools| - 1]);
      UpsertKeepsWellFormed(tokens, before, pools[|pools| - 1]);
      Upsert(tokens, before, pools[|pools| - 1])
  }

  /** Every run of UpsertPool keeps each pool as exactly one edge in each direction. */
  lemma PoolHasOneEdgeEachWay(tokens: map<Address, Asset>, g: Adjacency, pools: seq<Pool>, a: Asset, i: nat)
    requires WellFormed(tokens, g) && a in UpsertAll(tokens, g, pools) && i < |UpsertAll(tokens, g, pools)[a]|
    ensures var h := UpsertAll(tokens, g, pools);
            var e := h[a][i];
            && e.target in h && Edge(e.target, a, e.pool) in h[e.target]
            && forall b, j :: b in h && 0 <= j < |h[b]| && h[b][j].pool.address == e.pool.address ==>
                 h[b][j].pool == e.pool && ((b == a && j == i) || (b == e.target && h[b][j] == Edge(b, a, e.pool)))
  {
    var h := UpsertAll(tokens, g, pools);
    var e := h[a][i];
    assert e in h[a] && ProperEdge(tokens, h, a, e) && OncePerList(h[a]);
    forall b, j | b in h && 0 <= j < |h[b]| && h[b][j].pool.address == e.pool.address
      ensures h[b][j].pool == e.pool && ((b == a && j == i) || (b == e.target && h[b][j] == Edge(b, a, e.pool)))
    {
      var f := h[b][j];
      assert f in h[b] && ProperEdge(tokens, h, b, f);
      assert Has(h, e) && Has(h, f);
      SamePair(tokens, e, f);
    }
  }

  lemma SamePair(tokens: map<Address, Asset>, e: Edge, f: Edge)
    requires e.pool == f.pool && Usable(tokens, e.pool) && e.source != e.target
    requires {e.source, e.target} == {tokens[e.pool.token0], tokens[e.pool.token1]}
    requires {f.source, f.target} == {tokens[f.pool.token0], tokens[f.pool.token1]} && f.source != f.target
    ensures (f.source == e.source && f.target == e.target) || (f.source == e.target && f.target == e.source)
  {
    assert f.source in {e.source, e.target} && f.target in {e.source, e.target};
  }

  class LiquidityGraph {
    const tokens: map<Address, Asset>
    var edges: Adjacency

    constructor (tokens: map<Address, Asset>)
      ensures this.tokens == tokens && WellFormed(tokens, edges)
      ensures forall a :: a in edges ==> edges[a] == []
    {
      this.tokens := tokens;
      edges := map a | a in tokens.Values :: [];
    }

    method UpsertPool(pool: Pool) returns (ok: bool)
      requires WellFormed(tokens, edges)
      modifies this
      ensures ok == Usable(tokens, pool)
      ensures edges == Upsert(tokens, old(edges), pool) && WellFormed(tokens, edges)
    {
      UpsertKeepsWellFormed(tokens, edges, pool);
      if pool.liquidity <= 0 || pool.token0 !in tokens || pool.token1 !in tokens { return false; }
      var a, b := tokens[pool.token0], tokens[pool.token1];
      if a == b { return false; }
      edges := DropEverywhere(edges, pool.address);
      edges := edges[a := Insert(edges[a], Edge(a, b, pool))];
      edges := edges[b := Insert(edges[b], Edge(b, a, pool))];
      ok := true;
    }

    /** All cycles from one asset, the search being cut off once `limit` results exist when a node is entered. */
    method CyclesFrom(asset: Asset, maxHops: int, limit: int) returns (result: seq<Route>)
      requires WellFormed(tokens, edges)
      ensures maxHops < 2 || limit < 1 || asset !in edges ==> result == []
      ensures forall r :: r in result ==> maxHops >= 2 && SimpleCycle(edges, asset, maxHops, r)
      ensures forall i, j :: 0 <= i < j < |result| ==> result[i] != result[j]
      ensures maxHops >= 2 && |result| < limit ==> forall r :: SimpleCycle(edges, asset, maxHops, r) ==> r in result
      ensures maxHops >= 2 && limit >= 1 ==> Bounded(edges, asset, limit, maxHops, 0, |result|)
    {
      result := [];
      if maxHops < 2 || limit < 1 { return; }
      BelowLimit(edges, asset, limit, maxHops, 0);
      if asset !in edges {
        forall r ensures !SimpleCycle(edges, asset, maxHops, r) { NoCycleFromUnknown(edges, asset, maxHops, r); }
        return;
      }
      var out := Walk(edges, asset, maxHops, limit, asset, [asset], [], []);
      ghost var all := Completions(edges, asset, maxHops, asset, [asset], []);
      assert out[0..] == out;
      forall r ensures r in all <==> SimpleCycle(edges, asset, maxHops, r) {
        CompletionsExact(edges, asset, maxHops, asset, [asset], [], r);
      }
      CompletionsDistinct(edges, asset, maxHops, asset, [asset], []);
      SubsequenceFacts(out, all);
      result := out;
    }
  }

  // ---------------------------------------------------------------- the full search

  function Addresses(hops: seq<Pool>): set<Address> { set p | p in hops :: p.address }

  /** Every way to close a walk that is at `current`, by depth-first search without a result limit. */
  function Completions(g: Adjacency, asset: Asset, maxHops: nat, current: Asset, assets: seq<Asset>,
                       hops: seq<Pool>): seq<Route>
    decreases maxHops - |hops|, |Edges(g, current)| + 1
  {
    if |hops| >= maxHops then [] else Through(g, asset, maxHops, assets, hops, Edges(g, current))
  }

  function Through(g: Adjacency, asset: Asset, maxHops: nat, assets: seq<Asset>, hops: seq<Pool>,
                   es: seq<Edge>): seq<Route>
    requires |hops| < maxHops
    decreases maxHops - |hops|, |es|
  {
    if es == [] then []
    else Through(g, asset, maxHops, assets, hops, es[..|es| - 1]) + Via(g, asset, maxHops, assets, hops, es[|es| - 1])
  }

  function Via(g: Adjacency, asset: Asset, maxHops: nat, assets: seq<Asset>, hops: seq<Pool>, e: Edge): seq<Route>
    requires |hops| < maxHops
    decreases maxHops - |hops|, 0
  {
    if e.pool.address in Addresses(hops) then []
    else if e.target == asset then
      (if |hops| + 1 >= 2 then [Route(assets + [asset], hops + [e.pool])] else [])
    else if e.target in assets then []
    else Completions(g, asset, maxHops, e.target, assets + [e.target], hops + [e.pool])
  }

  ghost predicate DistinctAssets(s: seq<Asset>) { forall i, j :: 0 <= i < j < |s| ==> s[i] != s[j] }

  ghost predicate DistinctPools(s: seq<Pool>) { forall i, j :: 0 <= i < j < |s| ==> s[i].address != s[j].address }

  /** r is a cycle of 2 to maxHops hops that returns to `asset`, visits distinct assets in between, uses
      distinct pools, and follows edges of the graph. */
  ghost predicate SimpleCycle(g: Adjacency, asset: Asset, maxHops: nat, r: Route) {
    && 2 <= |r.hops| <= maxHops && |r.assets| == |r.hops| + 1
    && r.assets[0] == asset == r.assets[|r.hops|]
    && DistinctAssets(r.assets[..|r.hops|]) && DistinctPools(r.hops)
    && forall i :: 0 <= i < |r.hops| ==> Hop(g, r, i)
  }

  ghost predicate Hop(g: Adjacency, r: Route, i: nat)
    requires i < |r.hops| && |r.assets| == |r.hops| + 1
  {
    exists e :: e in Edges(g, r.assets[i]) && e.target == r.assets[i + 1] && e.pool == r.hops[i]
  }

  lemma NoCycleFromUnknown(g: Adjacency, asset: Asset, maxHops: nat, r: Route)
    requires asset !in g
    ensures !SimpleCycle(g, asset, maxHops, r)
  {
    if 2 <= |r.hops| && |r.assets| == |r.hops| + 1 && r.assets[0] == asset { assert !Hop(g, r, 0); }
  }

  /** A partial walk from `asset` to `current`. */
  ghost predicate PartialWalk(g: Adjacency, asset: Asset, current: Asset, assets: seq<Asset>, hops: seq<Pool>) {
    && |assets| == |hops| + 1 && assets[0] == asset && assets[|hops|] == current
    && DistinctAssets(assets) && DistinctPools(hops)
    && forall i :: 0 <= i < |hops| ==> Hop(g, Route(assets, hops), i)
  }

  /** r is a simple cycle that continues the walk, and does so through edge e. */
  ghost predicate Continues(g: Adjacency, asset: Asset, maxHops: nat, assets: seq<Asset>, hops: seq<Pool>, r: Route) {
    SimpleCycle(g, asset, maxHops, r) && hops < r.hops && assets <= r.assets
  }

  ghost predicate NextIs(hops: seq<Pool>, r: Route, e: Edge) {
    |hops| < |r.hops| && |hops| + 1 < |r.assets| && r.hops[|hops|] == e.pool && r.assets[|hops| + 1] == e.target
  }

  /** The full search returns exactly the simple cycles that continue the walk. */
  lemma {:induction false} CompletionsExact(g: Adjacency, asset: Asset, maxHops: nat, current: Asset,
                                            assets: seq<Asset>, hops: seq<Pool>, r: Route)
    requires PartialWalk(g, asset, current, assets, hops)
    ensures r in Completions(g, asset, maxHops, current, assets, hops) <==>
        Continues(g, asset, maxHops, assets, hops, r)
    decreases maxHops - |hops|, |Edges(g, current)| + 1
  {
    if |hops| < maxHops {
      var es := Edges(g, current);
      ThroughExact(g, asset, maxHops, current, assets, hops, es, r);
      if Continues(g, asset, maxHops, assets, hops, r) {
        assert r.assets[|hops|] == current && Hop(g, r, |hops|);
        var e :| e in es && e.target == r.assets[|hops| + 1] && e.pool == r.hops[|hops|];
        assert NextIs(hops, r, e);
      }
    }
  }

  lemma {:induction false} ThroughExact(g: Adjacency, asset: Asset, maxHops: nat, current: Asset, assets: seq<Asset>,
                                        hops: seq<Pool>, es: seq<Edge>, r: Route)
    requires PartialWalk(g, asset, current, assets, hops) && |hops| < maxHops
    requires forall e :: e in es ==> e in Edges(g, current)
    ensures r in Through(g, asset, maxHops, assets, hops, es)
       <==> Continues(g, asset, maxHops, assets, hops, r) && exists e :: e in es && NextIs(hops, r, e)
    decreases maxHops - |hops|, |es|
  {
    if es != [] {
      var init, last := es[..|es| - 1], es[|es| - 1];
      assert es == init + [last];
      ThroughExact(g, asset, maxHops, current, assets, hops, init, r);
      ViaExact(g, asset, maxHops, current, assets, hops, last, r);
    }
  }

  lemma {:induction false} ViaExact(g: Adjacency, asset: Asset, maxHops: nat, current: Asset, assets: seq<Asset>,
                                    hops: seq<Pool>, e: Edge, r: Route)
    requires PartialWalk(g, asset, current, assets, hops) && |hops| < maxHops && e in Edges(g, current)
    ensures r in Via(g, asset, maxHops, assets, hops, e)
       <==> Continues(g, asset, maxHops, assets, hops, r) && NextIs(hops, r, e)
    decreases maxHops - |hops|, 0
  {
    var assets', hops' := assets + [e.target], hops + [e.pool];
    if e.pool.address in Addresses(hops) {
      var p :| p in hops && p.address == e.pool.address;
      var i :| 0 <= i < |hops| && hops[i] == p;
      if Continues(g, asset, maxHops, assets, hops, r) {
        assert r.hops[i] == hops[i] && r.hops[i].address != r.hops[|hops|].address;
      }
    } else if e.target == asset {
      ClosingExact(g, asset, maxHops, current, assets, hops, e, r);
    } else if e.target in assets {
      var i :| 0 <= i < |assets| && assets[i] == e.target;
      if Continues(g, asset, maxHops, assets, hops, r) {
        assert r.assets[i] == assets[i];
        assert |hops| + 1 < |r.hops| ==> r.assets[..|r.hops|][i] != r.assets[..|r.hops|][|hops| + 1];
      }
    } else {
      ExtendWalk(g, asset, current, assets, hops, e);
      CompletionsExact(g, asset, maxHops, e.target, assets', hops', r);
      if Continues(g, asset, maxHops, assets, hops, r) && NextIs(hops, r, e) {
        assert |r.hops| != |hops| + 1;
        assert hops' <= r.hops && assets' <= r.assets;
      }
      if Continues(g, asset, maxHops, assets', hops', r) {
        assert r.hops[|hops|] == hops'[|hops|] == e.pool && r.assets[|hops| + 1] == assets'[|hops| + 1] == e.target;
        assert hops <= hops' && assets <= assets';
      }
    }
  }

  lemma ClosingExact(g: Adjacency, asset: Asset, maxHops: nat, current: Asset, assets: seq<Asset>, hops: seq<Pool>,
                     e: Edge, r: Route)
    requires PartialWalk(g, asset, current, assets, hops) && |hops| < maxHops && e in Edges(g, current)
    requires e.pool.address !in Addresses(hops) && e.target == asset
    ensures (|hops| + 1 >= 2 && r == Route(assets + [asset], hops + [e.pool]))
       <==> Continues(g, asset, maxHops, assets, hops, r) && NextIs(hops, r, e)
  {
    var n := |hops|;
    if n >= 1 && r == Route(assets + [asset], hops + [e.pool]) {
      assert r.assets[..|r.hops|] == assets;
      forall i, j | 0 <= i < j < |r.hops| ensures r.hops[i].address != r.hops[j].address { assert r.hops[i] in hops; }
      forall i | 0 <= i < |r.hops| ensures Hop(g, r, i) {
        if i < n {
          assert Hop(g, Route(assets, hops), i);
        } else {
          assert e in Edges(g, r.assets[i]) && e.target == r.assets[i + 1] && e.pool == r.hops[i];
        }
      }
    }
    if Continues(g, asset, maxHops, assets, hops, r) {
      assert n + 1 < |r.hops| ==> r.assets[..|r.hops|][0] != r.assets[..|r.hops|][n + 1];
    }
    if Continues(g, asset, maxHops, assets, hops, r) && NextIs(hops, r, e) {
      assert r.hops == hops + [e.pool] && r.assets == assets + [asset];
    }
  }

  lemma ExtendWalk(g: Adjacency, asset: Asset, current: Asset, assets: seq<Asset>, hops: seq<Pool>, e: Edge)
    requires PartialWalk(g, asset, current, assets, hops) && e in Edges(g, current)
    requires e.pool.address !in Addresses(hops) && e.target !in assets
    ensures PartialWalk(g, asset, e.target, assets + [e.target], hops + [e.pool])
  {
    var a, h := assets + [e.target], hops + [e.pool];
    forall i, j | 0 <= i < j < |h| ensures h[i].address != h[j].address { assert h[i] in hops; }
    forall i | 0 <= i < |h| ensures Hop(g, Route(a, h), i) {
      if i < |hops| { assert Hop(g, Route(assets, hops), i); }
      else { assert e in Edges(g, a[i]) && e.target == a[i + 1] && e.pool == h[i]; }
    }
  }

  // ---------------------------------------------------------------- no duplicates

  ghost predicate NoRepeats(rs: seq<Route>) { forall i, j :: 0 <= i < j < |rs| ==> rs[i] != rs[j] }

  lemma ConcatNoRepeats(a: seq<Route>, b: seq<Route>)
    requires NoRepeats(a) && NoRepeats(b) && forall r :: r in a ==> r !in b
    ensures NoRepeats(a + b)
  {
    forall i, j | 0 <= i < j < |a + b| ensures (a + b)[i] != (a + b)[j] {
      if i < |a| && j >= |a| { assert a[i] in a && b[j - |a|] in b; }
    }
  }

  lemma {:induction false} CompletionsDistinct(g: Adjacency, asset: Asset, maxHops: nat, current: Asset,
                                               assets: seq<Asset>, hops: seq<Pool>)
    requires OrderedLists(g) && PartialWalk(g, asset, current, assets, hops)
    ensures NoRepeats(Completions(g, asset, maxHops, current, assets, hops))
    decreases maxHops - |hops|, |Edges(g, current)| + 1
  {
    if |hops| < maxHops { ThroughDistinct(g, asset, maxHops, current, assets, hops, Edges(g, current)); }
  }

  lemma {:induction false} ThroughDistinct(g: Adjacency, asset: Asset, maxHops: nat, current: Asset, assets: seq<Asset>,
                                           hops: seq<Pool>, es: seq<Edge>)
    requires OrderedLists(g) && PartialWalk(g, asset, current, assets, hops) && |hops| < maxHops
    requires es <= Edges(g, current)
    ensures NoRepeats(Through(g, asset, maxHops, assets, hops, es))
    decreases maxHops - |hops|, |es|
  {
    if es != [] {
      var init, last := es[..|es| - 1], es[|es| - 1];
      var a, b := Through(g, asset, maxHops, assets, hops, init), Via(g, asset, maxHops, assets, hops, last);
      ThroughDistinct(g, asset, maxHops, current, assets, hops, init);
      assert OncePerList(es) && (forall e :: e in es ==> e in Edges(g, current)) && last in es;
      ViaDistinct(g, asset, maxHops, current, assets, hops, last);
      forall r | r in a ensures r !in b { DifferentEdges(g, asset, maxHops, current, assets, hops, es, r); }
      ConcatNoRepeats(a, b);
    }
  }

  lemma {:induction false} ViaDistinct(g: Adjacency, asset: Asset, maxHops: nat, current: Asset, assets: seq<Asset>,
                                       hops: seq<Pool>, e: Edge)
    requires OrderedLists(g) && PartialWalk(g, asset, current, assets, hops) && |hops| < maxHops
        && e in Edges(g, current)
    ensures NoRepeats(Via(g, asset, maxHops, assets, hops, e))
    decreases maxHops - |hops|, 0
  {
    if e.pool.address !in Addresses(hops) && e.target != asset && e.target !in assets {
      ExtendWalk(g, asset, current, assets, hops, e);
      CompletionsDistinct(g, asset, maxHops, e.target, assets + [e.target], hops + [e.pool]);
    }
  }

  /** A route through an earlier edge takes another pool at this hop than a route through the last one. */
  lemma DifferentEdges(g: Adjacency, asset: Asset, maxHops: nat, current: Asset, assets: seq<Asset>, hops: seq<Pool>,
                       es: seq<Edge>, r: Route)
    requires PartialWalk(g, asset, current, assets, hops) && |hops| < maxHops
    requires es != [] && OncePerList(es) && (forall e :: e in es ==> e in Edges(g, current))
    requires r in Through(g, asset, maxHops, assets, hops, es[..|es| - 1])
    ensures r !in Via(g, asset, maxHops, assets, hops, es[|es| - 1])
  {
    var init, last := es[..|es| - 1], es[|es| - 1];
    ThroughExact(g, asset, maxHops, current, assets, hops, init, r);
    ViaExact(g, asset, maxHops, current, assets, hops, last, r);
    OtherPool(hops, r, es);
  }

  lemma OtherPool(hops: seq<Pool>, r: Route, es: seq<Edge>)
    requires es != [] && OncePerList(es) && exists e :: e in es[..|es| - 1] && NextIs(hops, r, e)
    ensures !NextIs(hops, r, es[|es| - 1])
  {
    var e :| e in es[..|es| - 1] && NextIs(hops, r, e);
    var i :| 0 <= i < |es| - 1 && es[i] == e;
  }

  // ---------------------------------------------------------------- the limited search

  /** `a` is a subsequence of `b`. */
  ghost predicate Subsequence(a: seq<Route>, b: seq<Route>) {
    a == [] ||
    (b != [] && ((a[|a| - 1] == b[|b| - 1] && Subsequence(a[..|a| - 1], b[..|b| - 1])) || Subsequence(a, b[..|b| - 1])))
  }

  lemma {:induction false} SubsequenceConcat(a: seq<Route>, b: seq<Route>, c: seq<Route>, d: seq<Route>)
    requires Subsequence(a, b) && Subsequence(c, d)
    ensures Subsequence(a + c, b + d)
    decreases |d|
  {
    if d == [] {
      assert a + c == a && b + d == b;
    } else {
      assert (b + d)[..|b + d| - 1] == b + d[..|d| - 1];
      if c != [] && c[|c| - 1] == d[|d| - 1] && Subsequence(c[..|c| - 1], d[..|d| - 1]) {
        SubsequenceConcat(a, b, c[..|c| - 1], d[..|d| - 1]);
        assert (a + c)[..|a + c| - 1] == a + c[..|c| - 1];
      } else {
        SubsequenceConcat(a, b, c, d[..|d| - 1]);
      }
    }
  }

  lemma {:induction false} SubsequenceSelf(a: seq<Route>)
    ensures Subsequence(a, a)
  {
    if a != [] { SubsequenceSelf(a[..|a| - 1]); }
  }

  lemma {:induction false} SubsequenceFacts(a: seq<Route>, b: seq<Route>)
    requires Subsequence(a, b)
    ensures forall r :: r in a ==> r in b
    ensures NoRepeats(b) ==> NoRepeats(a)
    decreases |b|
  {
    if a != [] {
      var b' := b[..|b| - 1];
      if a[|a| - 1] == b[|b| - 1] && Subsequence(a[..|a| - 1], b') {
        SubsequenceFacts(a[..|a| - 1], b');
        assert a == a[..|a| - 1] + [a[|a| - 1]];
        if NoRepeats(b) {
          assert NoRepeats(b');
          forall i | 0 <= i < |a| - 1 ensures a[i] != a[|a| - 1] {
            assert a[..|a| - 1][i] in b';
            var j :| 0 <= j < |b'| && b'[j] == a[i];
            assert b[j] != b[|b| - 1];
          }
        }
      } else {
        SubsequenceFacts(a, b');
        assert NoRepeats(b) ==> NoRepeats(b');
      }
    }
  }

  lemma Slices(result: seq<Route>, middle: seq<Route>, out: seq<Route>, b: seq<Route>, d: seq<Route>)
    requires result <= middle <= out
    ensures out[|result|..] == middle[|result|..] + out[|middle|..]
    ensures middle == result + b && out == middle + d ==> out == result + (b + d)
  { }

  lemma JoinParts(result: seq<Route>, middle: seq<Route>, out: seq<Route>, b: seq<Route>, d: seq<Route>)
    requires result <= middle <= out
    requires Subsequence(middle[|result|..], b) && Subsequence(out[|middle|..], d)
    ensures Subsequence(out[|result|..], b + d)
    ensures middle == result + b && out == middle + d ==> out == result + (b + d)
  {
    SubsequenceConcat(middle[|result|..], b, out[|middle|..], d);
    Slices(result, middle, out, b, d);
  }

  /** How many of the edges lead back to the asset. */
  ghost function Closings(es: seq<Edge>, asset: Asset): nat {
    if es == [] then 0 else Closings(es[..|es| - 1], asset) + (if es[|es| - 1].target == asset then 1 else 0)
  }

  /** Every list has at most d edges back to the asset. */
  ghost predicate FewClosings(g: Adjacency, asset: Asset, d: nat) { forall a :: a in g ==> Closings(g[a], asset) <= d }

  /** n overshoots the limit by no more than `levels` lists' worth of closing edges and `extra`. */
  ghost predicate Bounded(g: Adjacency, asset: Asset, limit: nat, levels: nat, extra: nat, n: nat) {
    forall d: nat :: FewClosings(g, asset, d) ==> n <= limit + levels * d + extra
  }

  lemma BelowLimit(g: Adjacency, asset: Asset, limit: nat, levels: nat, n: nat)
    requires n <= limit
    ensures Bounded(g, asset, limit, levels, 0, n)
  {
    forall d: nat | FewClosings(g, asset, d) ensures n <= limit + levels * d + 0 { MulMono(0, levels, d); }
  }

  lemma OneMoreEdge(g: Adjacency, asset: Asset, limit: nat, levels: nat, extra: nat, n: nat, more: nat, n': nat)
    requires Bounded(g, asset, limit, levels, extra, n) && (n' <= n + more || Bounded(g, asset, limit, levels, 0, n'))
    ensures Bounded(g, asset, limit, levels, extra + more, n')
  { }

  lemma OneMoreLevel(g: Adjacency, asset: Asset, limit: nat, levels: nat, es: seq<Edge>, n: nat)
    requires Bounded(g, asset, limit, levels, Closings(es, asset), n) && (es == [] || exists a :: a in g && g[a] == es)
    ensures Bounded(g, asset, limit, levels + 1, 0, n)
  {
    forall d: nat | FewClosings(g, asset, d) ensures n <= limit + (levels + 1) * d + 0 {
      assert Closings(es, asset) <= d;
      assert (levels + 1) * d == levels * d + d;
    }
  }

  /** The recursive walk with its entry check: it appends a subsequence of the full search, and all of it if the
      result is still below the limit, and nothing once the limit is reached.  The limit is not checked between
      edges, so it can be overshot, but only by the closing edges of the lists on the path. */
  method Walk(g: Adjacency, asset: Asset, maxHops: nat, limit: nat, current: Asset, assets: seq<Asset>, hops: seq<Pool>,
              result: seq<Route>)
    returns (out: seq<Route>)
    ensures result <= out
    ensures Subsequence(out[|result|..], Completions(g, asset, maxHops, current, assets, hops))
    ensures |out| < limit ==> out == result + Completions(g, asset, maxHops, current, assets, hops)
    ensures |result| >= limit || |hops| >= maxHops ==> out == result
    ensures |result| < limit && |hops| < maxHops ==> Bounded(g, asset, limit, maxHops - |hops|, 0, |out|)
    decreases maxHops - |hops|, 1
  {
    out := result;
    if |result| >= limit || |hops| >= maxHops {
      assert out[|result|..] == [];
      return;
    }
    var es := Edges(g, current);
    ghost var levels := maxHops - |hops| - 1;
    WalkNothing(g, asset, limit, levels, result);
    for k := 0 to |es|
      invariant Walked(g, asset, limit, levels, Closings(es[..k], asset),
          Through(g, asset, maxHops, assets, hops, es[..k]),
                       result, out)
    {
      ghost var before := out;
      out := WalkEdge(g, asset, maxHops, limit, assets, hops, es[k], out);
      WalkedOn(g, asset, limit, levels, Closings(es[..k], asset), Through(g, asset, maxHops, assets, hops, es[..k]),
               if es[k].target == asset then 1
                   else 0, Via(g, asset, maxHops, assets, hops, es[k]), result, before, out);
      ThroughOneMore(g, asset, maxHops, assets, hops, es, k);
    }
    assert es[..|es|] == es;
    OneMoreLevel(g, asset, limit, levels, es, |out|);
  }

  /** What the loop over the edges has appended of `found`, and how far it may have overshot the limit. */
  ghost predicate Walked(g: Adjacency, asset: Asset, limit: nat, levels: nat, extra: nat, found: seq<Route>,
                         result: seq<Route>, out: seq<Route>) {
    && result <= out && Subsequence(out[|result|..], found) && (|out| < limit ==> out == result + found)
    && Bounded(g, asset, limit, levels, extra, |out|)
  }

  lemma WalkNothing(g: Adjacency, asset: Asset, limit: nat, levels: nat, result: seq<Route>)
    requires |result| <= limit
    ensures Walked(g, asset, limit, levels, 0, [], result, result)
  {
    BelowLimit(g, asset, limit, levels, |result|);
    assert result[|result|..] == [];
  }

  lemma WalkedOn(g: Adjacency, asset: Asset, limit: nat, levels: nat, extra: nat, found: seq<Route>, closing: nat,
                 more: seq<Route>, result: seq<Route>, before: seq<Route>, out: seq<Route>)
    requires Walked(g, asset, limit, levels, extra, found, result, before)
    requires before <= out && Subsequence(out[|before|..], more) && (|out| < limit ==> out == before + more)
    requires |out| <= |before| + closing || Bounded(g, asset, limit, levels, 0, |out|)
    ensures Walked(g, asset, limit, levels, extra + closing, found + more, result, out)
  {
    RoutesAppended(result, before, out, found, more, limit);
    OneMoreEdge(g, asset, limit, levels, extra, |before|, closing, |out|);
  }

  lemma RoutesAppended(result: seq<Route>, before: seq<Route>, out: seq<Route>, some: seq<Route>, more: seq<Route>,
                       limit: nat)
    requires result <= before <= out && Subsequence(before[|result|..], some) && Subsequence(out[|before|..], more)
    requires (|before| < limit ==> before == result + some) && (|out| < limit ==> out == before + more)
    ensures result <= out && Subsequence(out[|result|..], some + more)
    ensures |out| < limit ==> out == result + (some + more)
  {
    JoinParts(result, before, out, some, more);
  }

  lemma ThroughOneMore(g: Adjacency, asset: Asset, maxHops: nat, assets: seq<Asset>, hops: seq<Pool>, es: seq<Edge>,
                       k: nat)
    requires |hops| < maxHops && k < |es|
    ensures Through(g, asset, maxHops, assets, hops, es[..k + 1])
         == Through(g, asset, maxHops, assets, hops, es[..k]) + Via(g, asset, maxHops, assets, hops, es[k])
    ensures Closings(es[..k + 1], asset) == Closings(es[..k], asset) + if es[k].target == asset then 1 else 0
  {
    assert es[..k + 1][..k] == es[..k];
  }

  method WalkEdge(g: Adjacency, asset: Asset, maxHops: nat, limit: nat, assets: seq<Asset>, hops: seq<Pool>, e: Edge,
                  result: seq<Route>)
    returns (out: seq<Route>)
    requires |hops| < maxHops
    ensures result <= out
    ensures Subsequence(out[|result|..], Via(g, asset, maxHops, assets, hops, e))
    ensures |out| < limit ==> out == result + Via(g, asset, maxHops, assets, hops, e)
    ensures |out| <= |result| + (if e.target == asset then 1 else 0)
         || Bounded(g, asset, limit, maxHops - |hops| - 1, 0, |out|)
    decreases maxHops - |hops|, 0
  {
    out := result;
    assert out[|result|..] == [];
    if e.pool.address in Addresses(hops) { return; }
    if e.target == asset {
      if |hops| + 1 >= 2 {
        var r := Route(assets + [asset], hops + [e.pool]);
        out := result + [r];
        assert out[|result|..] == [r];
        SubsequenceSelf([r]);
      }
      return;
    }
    if e.target in assets { return; }
    out := Walk(g, asset, maxHops, limit, e.target, assets + [e.target], hops + [e.pool], result);
  }
}
