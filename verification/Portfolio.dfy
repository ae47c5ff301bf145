/** Settlement of a portfolio (EvaluatePortfolio in go/internal/decision/economics.go) and its closed form.

    A lower-cased address is a number; `canonical` says whether it is a non-zero hex address.  Rationals are
    reals.  Go's map iteration order is an arbitrary choice. */
module Portfolio {
  import opened Options

  type Key = nat

  datatype Asset = Asset(key: Key, canonical: bool, decimals: nat)

  datatype Balance = Balance(asset: Asset, raw: Option<int>)

  datatype Liability = Liability(asset: Asset, principal: Option<int>, premium: Option<int>)

  datatype Price = Price(usd: Option<real>, asOf: int, maxRaw: Option<int>, independent: bool, executable: bool,
                         reviewed: bool, haircut: nat)

  datatype Valuation = Valuation(usd: bool, prices: map<Key, Price>, limits: map<Key, int>, now: Option<int>,
                                 maxAge: int)

  datatype Input = Input(borrowed: seq<Balance>, owned: seq<Balance>, liabilities: seq<Liability>, after: seq<Balance>,
                         costs: seq<Balance>, valuation: Valuation)

  datatype Result = Result(satisfied: bool, complete: bool, residual: map<Key, int>, net: Option<real>, positive: bool)

  // ---------------------------------------------------------------- the closed form

  predicate Addressed(a: Asset) { a.canonical && a.decimals <= 36 }

  predicate Valid(b: Balance) { Addressed(b.asset) && b.raw.Some? && b.raw.value >= 0 }

  predicate ValidLiability(l: Liability) {
    Addressed(l.asset) && l.principal.Some? && l.principal.value > 0 && l.premium.Some? && l.premium.value >= 0
  }

  function Amount(b: Balance): int { if b.raw.Some? then b.raw.value else 0 }

  /** What a list of balances holds of one asset. */
  function Total(bs: seq<Balance>, k: Key): int {
    if bs == [] then 0
    else Total(bs[..|bs| - 1], k) + (if bs[|bs| - 1].asset.key == k then Amount(bs[|bs| - 1]) else 0)
  }

  function Keys(bs: seq<Balance>): set<Key> { set b | b in bs :: b.asset.key }

  function Assets(bs: seq<Balance>): seq<Asset> { seq(|bs|, i requires 0 <= i < |bs| => bs[i].asset) }

  function Principals(ls: seq<Liability>): seq<Balance> {
    seq(|ls|, i requires 0 <= i < |ls| => Balance(ls[i].asset, ls[i].principal))
  }

  function Premiums(ls: seq<Liability>): seq<Balance> {
    seq(|ls|, i requires 0 <= i < |ls| => Balance(ls[i].asset, ls[i].premium))
  }

  /** Every asset named by a balance or a liability; costs are checked against these. */
  function Named(x: Input): seq<Asset> {
    Assets(x.after) + Assets(x.owned) + Assets(x.borrowed) + Assets(Principals(x.liabilities))
  }

  ghost predicate Consistent(assets: seq<Asset>) {
    forall a, b :: a in assets && b in assets && a.key == b.key ==> a.decimals == b.decimals
  }

  ghost predicate WellFormed(x: Input) {
    && AllValid(x.after) && AllValid(x.owned) && AllValid(x.borrowed)
    && AllOwed(x.liabilities) && Consistent(Named(x))
  }

  ghost predicate AllOwed(ls: seq<Liability>) { forall l :: l in ls ==> ValidLiability(l) }

  ghost predicate AllValid(bs: seq<Balance>) { forall b :: b in bs ==> Valid(b) }

  function Debt(x: Input, k: Key): int { Total(Principals(x.liabilities), k) + Total(Premiums(x.liabilities), k) }

  /** The liabilities are exactly the funding, and each is repaid from its own asset. */
  ghost predicate Funded(x: Input) {
    && WellFormed(x)
    && Keys(Principals(x.liabilities)) == Keys(x.borrowed)
    && (forall k :: k in Keys(x.borrowed) ==> Total(Principals(x.liabilities), k) == Total(x.borrowed, k))
    && (forall k :: k in Keys(x.borrowed) ==> Debt(x, k) <= Total(x.after, k))
  }

  function Residual(x: Input, k: Key): int { Total(x.after, k) - Debt(x, k) - Total(x.costs, k) }

  /** Every cost is paid from what its own asset has left after repayment. */
  ghost predicate Settled(x: Input) {
    && Funded(x) && AllValid(x.costs)
    && (forall c, a :: c in x.costs && a in Named(x) && c.asset.key == a.key ==> c.asset.decimals == a.decimals)
    && (forall k :: k in Keys(x.costs) ==> Residual(x, k) >= 0)
  }

  ghost predicate WithinLimits(x: Input) {
    forall k :: k in Keys(x.after) && Residual(x, k) > 0 ==>
        k in x.valuation.limits && Residual(x, k) <= x.valuation.limits[k]
  }

  predicate Policy(v: Valuation) { v.usd && v.maxAge > 0 && v.now.Some? }

  /** A fresh, reviewed, independent and executable price that covers the amount. */
  predicate Priceable(v: Valuation, k: Key, raw: int) {
    && k in v.prices && v.now.Some?
    && var p := v.prices[k];
       && p.usd.Some? && p.usd.value > 0.0 && p.maxRaw.Some? && p.maxRaw.value >= raw
       && p.independent && p.executable && p.reviewed
       && 0 <= v.now.value - p.asOf <= v.maxAge && p.haircut <= 10_000
  }

  /** What makes a balance, a liability, a policy or a price unacceptable. */
  lemma RejectedBalance(b: Balance)
    ensures !Valid(b) <==> !b.asset.canonical || b.asset.decimals > 36 || b.raw.None? || b.raw.value < 0
  { }

  lemma RejectedLiability(l: Liability)
    ensures !ValidLiability(l) <==>
            || !l.asset.canonical || l.asset.decimals > 36
            || l.principal.None? || l.principal.value <= 0 || l.premium.None? || l.premium.value < 0
  { }

  lemma RejectedPolicy(v: Valuation)
    ensures !Policy(v) <==> !v.usd || v.maxAge <= 0 || v.now.None?
  { }

  lemma RejectedPrice(v: Valuation, k: Key, raw: int)
    ensures !Priceable(v, k, raw) <==>
            || k !in v.prices || v.now.None? || v.prices[k].usd.None? || v.prices[k].usd.value <= 0.0
            || v.prices[k].maxRaw.None? || v.prices[k].maxRaw.value < raw
            || !v.prices[k].independent || !v.prices[k].executable || !v.prices[k].reviewed
            || v.now.value < v.prices[k].asOf || v.now.value - v.prices[k].asOf > v.maxAge
                || v.prices[k].haircut > 10_000
  { }

  ghost predicate Priced(x: Input) {
    && (forall k :: k in Keys(x.after) && Residual(x, k) > 0 ==> Priceable(x.valuation, k, Residual(x, k)))
    && (forall k :: k in Keys(x.owned) && Total(x.owned, k) > 0 ==> Priceable(x.valuation, k, Total(x.owned, k)))
  }

  ghost predicate Complete(x: Input) { Settled(x) && WithinLimits(x) && Policy(x.valuation) && Priced(x) }

  function Pow10(n: nat): nat { if n == 0 then 1 else 10 * Pow10(n - 1) }

  function DecimalsOf(assets: seq<Asset>, k: Key): nat {
    if assets == [] then 0
    else if assets[|assets| - 1].key == k then assets[|assets| - 1].decimals
    else DecimalsOf(assets[..|assets| - 1], k)
  }

  /** The haircut price in USD of one raw unit, a tenth for every decimal; 0 without a price. */
  function UnitValue(v: Valuation, decimals: nat, k: Key): real
    decreases decimals
  {
    if k !in v.prices || v.prices[k].usd == None then 0.0
    else if decimals > 0 then UnitValue(v, decimals - 1, k) / 10.0
    else v.prices[k].usd.value * ((10_000 - v.prices[k].haircut) as real / 10_000.0)
  }

  /** Sum of f over a finite set. */
  ghost function SumOver(ks: set<Key>, f: Key -> real): real
    decreases |ks|
  {
    if ks == {} then 0.0
    else
      var k :| k in ks;
      f(k) + SumOver(ks - {k}, f)
  }

  /** The unit values at the decimals the input names. */
  ghost function Units(x: Input): Key -> real { (k: Key) => UnitValue(x.valuation, DecimalsOf(Named(x), k), k) }

  /** What each asset has gained: its residual minus what was owned of it. */
  ghost function Profits(x: Input): Key -> int { (k: Key) => Residual(x, k) - Total(x.owned, k) }

  ghost function Gain(unit: Key -> real, profit: Key -> int): Key -> real { (k: Key) => unit(k) * (profit(k) as real) }

  /** Net value: haircut price times (residual minus owned), over all assets held before or after. */
  ghost function NetValue(x: Input): real { SumOver(Keys(x.after) + Keys(x.owned), Gain(Units(x), Profits(x))) }

  // ---------------------------------------------------------------- finite sums

  lemma {:induction false} SumRemove(ks: set<Key>, f: Key -> real, k: Key)
    requires k in ks
    ensures SumOver(ks, f) == f(k) + SumOver(ks - {k}, f)
    decreases |ks|
  {
    var j :| j in ks && SumOver(ks, f) == f(j) + SumOver(ks - {j}, f);
    if j != k {
      SumRemove(ks - {j}, f, k);
      SumRemove(ks - {k}, f, j);
      assert ks - {j} - {k} == ks - {k} - {j};
    }
  }

  lemma {:induction false} SumEqual(ks: set<Key>, f: Key -> real, g: Key -> real)
    requires forall k :: k in ks ==> f(k) == g(k)
    ensures SumOver(ks, f) == SumOver(ks, g)
    decreases |ks|
  {
    if ks != {} {
      var k :| k in ks;
      SumRemove(ks, f, k);
      SumRemove(ks, g, k);
      SumEqual(ks - {k}, f, g);
    }
  }

  lemma {:induction false} SumExtend(ks: set<Key>, more: set<Key>, f: Key -> real)
    requires ks <= more && forall k :: k in more && k !in ks ==> f(k) == 0.0
    ensures SumOver(ks, f) == SumOver(more, f)
    decreases |more|
  {
    if ks == more {
    } else {
      var k :| k in more && k !in ks;
      SumRemove(more, f, k);
      SumExtend(ks, more - {k}, f);
    }
  }

  lemma {:induction false} SumMinus(ks: set<Key>, f: Key -> real, g: Key -> real, h: Key -> real)
    requires forall k :: k in ks ==> h(k) == f(k) - g(k)
    ensures SumOver(ks, h) == SumOver(ks, f) - SumOver(ks, g)
    decreases |ks|
  {
    if ks != {} {
      var k :| k in ks;
      SumRemove(ks, f, k);
      SumRemove(ks, g, k);
      SumRemove(ks, h, k);
      SumMinus(ks - {k}, f, g, h);
    }
  }

  // ---------------------------------------------------------------- the bookkeeping maps

  type Book = map<Key, int>

  function Held(m: Book, k: Key): int { if k in m then m[k] else 0 }

  /** The map holds exactly the totals of the list. */
  ghost predicate Holds(m: Book, bs: seq<Balance>) { m.Keys == Keys(bs) && forall k :: Held(m, k) == Total(bs, k) }

  /** The decimals on record are those of the assets seen so far. */
  ghost predicate Records(meta: map<Key, nat>, assets: seq<Asset>) {
    && (forall a :: a in assets ==> a.key in meta && meta[a.key] == a.decimals)
    && (forall k :: k in meta ==> exists a :: a in assets && a.key == k)
  }

  lemma KeysAppend(bs: seq<Balance>, b: Balance)
    ensures Keys(bs + [b]) == Keys(bs) + {b.asset.key}
  {
    forall k ensures k in Keys(bs + [b]) <==> k in Keys(bs) + {b.asset.key} {
      if k in Keys(bs) { var y :| y in bs && y.asset.key == k; assert y in bs + [b]; }
      if k == b.asset.key { assert b in bs + [b]; }
    }
  }

  lemma TotalAppend(bs: seq<Balance>, b: Balance, k: Key)
    ensures Total(bs + [b], k) == Total(bs, k) + (if b.asset.key == k then Amount(b) else 0)
  {
    assert (bs + [b])[..|bs|] == bs;
  }

  lemma RecordsAppend(meta: map<Key, nat>, assets: seq<Asset>, a: Asset)
    requires Records(meta, assets) && Consistent(assets)
    ensures Consistent(assets + [a]) <==> (a.key in meta ==> meta[a.key] == a.decimals)
    ensures Consistent(assets + [a]) ==> Records(meta[a.key := a.decimals], assets + [a])
  {
    var all := assets + [a];
    if a.key in meta && meta[a.key] != a.decimals {
      var b :| b in assets && b.key == a.key;
      assert a in all && b in all;
    }
    var meta' := meta[a.key := a.decimals];
    forall k | k in meta' ensures exists b :: b in all && b.key == k {
      if k == a.key { assert a in all; } else { var b :| b in assets && b.key == k; assert b in all; }
    }
  }

  lemma HoldsAppend(m: Book, bs: seq<Balance>, b: Balance)
    requires Holds(m, bs)
    ensures Holds(m[b.asset.key := Held(m, b.asset.key) + Amount(b)], bs + [b])
  {
    KeysAppend(bs, b);
    forall k { TotalAppend(bs, b, k); }
  }

  lemma ConsistentPrefix(assets: seq<Asset>, more: seq<Asset>)
    requires Consistent(assets + more)
    ensures Consistent(assets)
  {
    assert forall a :: a in assets ==> a in assets + more;
  }

  method Add(m: Book, meta: map<Key, nat>, b: Balance) returns (ok: bool, m': Book, meta': map<Key, nat>)
    ensures ok <==> Valid(b) && (b.asset.key in meta ==> meta[b.asset.key] == b.asset.decimals)
    ensures ok ==>
      && m' == m[b.asset.key := Held(m, b.asset.key) + Amount(b)]
      && meta' == meta[b.asset.key := b.asset.decimals]
  {
    ok, m', meta' := false, m, meta;
    if !Addressed(b.asset) || b.raw == None || b.raw.value < 0 { return; }
    var k := b.asset.key;
    if k in meta && meta[k] != b.asset.decimals { return; }
    meta' := meta[k := b.asset.decimals];
    if k !in m' { m' := m'[k := 0]; }
    m' := m'[k := m'[k] + b.raw.value];
    ok := true;
  }

  lemma AssetsAppend(assets: seq<Asset>, bs: seq<Balance>, b: Balance)
    ensures assets + Assets(bs + [b]) == assets + Assets(bs) + [b.asset]
  {}

  /** Adding up one list: it fails exactly on an invalid balance or conflicting decimals. */
  method AddAll(bs: seq<Balance>, meta0: map<Key, nat>, ghost assets: seq<Asset>)
    returns (ok: bool, m: Book, meta: map<Key, nat>)
    requires Records(meta0, assets) && Consistent(assets)
    ensures ok <==> AllValid(bs) && Consistent(assets + Assets(bs))
    ensures ok ==> Holds(m, bs) && Records(meta, assets + Assets(bs))
  {
    ok, m, meta := true, map[], meta0;
    assert assets + Assets([]) == assets;
    for i := 0 to |bs|
      invariant AllValid(bs[..i]) && Consistent(assets + Assets(bs[..i]))
      invariant Holds(m, bs[..i]) && Records(meta, assets + Assets(bs[..i]))
    {
      var b := bs[i];
      assert bs[..i + 1] == bs[..i] + [b];
      AssetsAppend(assets, bs[..i], b);
      RecordsAppend(meta, assets + Assets(bs[..i]), b.asset);
      HoldsAppend(m, bs[..i], b);
      ok, m, meta := Add(m, meta, b);
      if !ok {
        FailsEarly(bs, assets, i + 1);
        return;
      }
    }
    assert bs[..|bs|] == bs;
    ok := true;
  }

  lemma FailsEarly(bs: seq<Balance>, assets: seq<Asset>, i: nat)
    requires i <= |bs|
    ensures AllValid(bs) ==> AllValid(bs[..i])
    ensures Consistent(assets + Assets(bs)) ==> Consistent(assets + Assets(bs[..i]))
  {
    assert assets + Assets(bs) == assets + Assets(bs[..i]) + Assets(bs[i..]);
    if Consistent(assets + Assets(bs)) { ConsistentPrefix(assets + Assets(bs[..i]), Assets(bs[i..])); }
  }

  /** Principal plus premium of each liability. */
  function Debts(ls: seq<Liability>): seq<Balance> {
    seq(|ls|, i requires 0 <= i < |ls| =>
      Balance(ls[i].asset, Some((if ls[i].principal.Some? then ls[i].principal.value else 0)
                                + (if ls[i].premium.Some? then ls[i].premium.value else 0))))
  }

  lemma DebtsSameKeys(ls: seq<Liability>)
    ensures Keys(Debts(ls)) == Keys(Principals(ls))
  {
    var ds, ps := Debts(ls), Principals(ls);
    forall k ensures k in Keys(ds) <==> k in Keys(ps) {
      if k in Keys(ds) { var i :| 0 <= i < |ds| && ds[i].asset.key == k; assert ps[i] in ps; }
      if k in Keys(ps) { var i :| 0 <= i < |ps| && ps[i].asset.key == k; assert ds[i] in ds; }
    }
  }

  lemma {:induction false} DebtsSum(ls: seq<Liability>, k: Key)
    ensures Total(Debts(ls), k) == Total(Principals(ls), k) + Total(Premiums(ls), k)
    decreases |ls|
  {
    if ls != [] {
      var init, n := ls[..|ls| - 1], |ls| - 1;
      DebtsSum(init, k);
      assert Debts(ls)[..n] == Debts(init) && Principals(ls)[..n] == Principals(init)
          && Premiums(ls)[..n] == Premiums(init);
    }
  }

  lemma DebtsAreBoth(ls: seq<Liability>, k: Key)
    ensures Total(Debts(ls), k) == Total(Principals(ls), k) + Total(Premiums(ls), k)
    ensures Keys(Debts(ls)) == Keys(Principals(ls))
  {
    DebtsSum(ls, k);
    DebtsSameKeys(ls);
  }

  method AddLiability(l: Liability, principal: Book, debts: Book, meta: map<Key, nat>)
    returns (ok: bool, principal': Book, debts': Book, meta': map<Key, nat>)
    ensures ok <==> Addable(l, meta)
    ensures ok ==>
              && principal' == principal[l.asset.key := Held(principal, l.asset.key) + l.principal.value]
              && debts' == debts[l.asset.key := Held(debts, l.asset.key) + (l.principal.value + l.premium.value)]
              && meta' == meta[l.asset.key := l.asset.decimals]
  {
    ok, principal', debts', meta' := false, principal, debts, meta;
    if l.principal == None || l.principal.value <= 0 || l.premium == None || l.premium.value < 0 { return; }
    ok, principal', meta' := Add(principal, meta, Balance(l.asset, l.principal));
    if !ok { return; }
    ok, debts', meta' := Add(debts, meta', Balance(l.asset, Some(l.principal.value + l.premium.value)));
  }

  /** Principals and debts side by side: it fails exactly on an invalid liability or conflicting decimals. */
  method AddLiabilities(ls: seq<Liability>, meta0: map<Key, nat>, ghost assets: seq<Asset>)
    returns (ok: bool, principal: Book, debts: Book, meta: map<Key, nat>)
    requires Records(meta0, assets) && Consistent(assets)
    ensures ok <==> AllOwed(ls) && Consistent(assets + Assets(Principals(ls)))
    ensures ok ==>
      && Holds(principal, Principals(ls)) && Holds(debts, Debts(ls))
      && Records(meta, assets + Assets(Principals(ls)))
  {
    ok, principal, debts, meta := true, map[], map[], meta0;
    OweNothing(ls, assets, meta);
    for i := 0 to |ls|
      invariant ok && Owing(ls, i, assets, principal, debts, meta)
    {
      ghost var before := meta;
      if Addable(ls[i], meta) { OweOne(ls, i, assets, principal, debts, meta); }
      ok, principal, debts, meta := AddLiability(ls[i], principal, debts, meta);
      if !ok {
        OweFails(ls, i, assets, before);
        return;
      }
    }
    OweAll(ls, assets, principal, debts, meta);
  }

  lemma NoteOne(ls: seq<Liability>, i: nat, assets: seq<Asset>, meta: map<Key, nat>)
    requires i < |ls| && Noted(ls, i, assets, meta)
    ensures var k, d, seen := ls[i].asset.key, ls[i].asset.decimals, assets + Assets(Principals(ls)[..i + 1]);
            && (Consistent(seen) <==> (k in meta ==> meta[k] == d))
            && (Consistent(seen) ==> Noted(ls, i + 1, assets, meta[k := d]))
  {
    var ps := Principals(ls);
    assert ps[..i + 1] == ps[..i] + [ps[i]];
    AssetsAppend(assets, ps[..i], ps[i]);
    RecordsAppend(meta, assets + Assets(ps[..i]), ls[i].asset);
  }

  lemma OweNothing(ls: seq<Liability>, assets: seq<Asset>, meta: map<Key, nat>)
    requires Records(meta, assets) && Consistent(assets)
    ensures Owing(ls, 0, assets, map[], map[], meta)
  {
    assert assets + Assets([]) == assets;
  }

  lemma OweOne(ls: seq<Liability>, i: nat, assets: seq<Asset>, principal: Book, debts: Book, meta: map<Key, nat>)
    requires i < |ls| && Owing(ls, i, assets, principal, debts, meta) && Addable(ls[i], meta)
    ensures var k, p, r := ls[i].asset.key, ls[i].principal.value, ls[i].premium.value;
            Owing(ls, i + 1, assets, principal[k := Held(principal, k) + p], debts[k := Held(debts, k) + (p + r)],
                  meta[k := ls[i].asset.decimals])
  {
    assert ls[..i + 1] == ls[..i] + [ls[i]];
    NoteOne(ls, i, assets, meta);
    OwePrincipal(ls, i, principal);
    OweDebt(ls, i, debts);
  }

  lemma OweFails(ls: seq<Liability>, i: nat, assets: seq<Asset>, meta: map<Key, nat>)
    requires i < |ls| && Noted(ls, i, assets, meta) && !Addable(ls[i], meta)
    ensures !(AllOwed(ls) && Consistent(assets + Assets(Principals(ls))))
  {
    NoteOne(ls, i, assets, meta);
    FailsEarly(Principals(ls), assets, i + 1);
    assert ls[i] in ls;
  }

  lemma OweAll(ls: seq<Liability>, assets: seq<Asset>, principal: Book, debts: Book, meta: map<Key, nat>)
    requires Owing(ls, |ls|, assets, principal, debts, meta)
    ensures AllOwed(ls) && Holds(principal, Principals(ls)) && Holds(debts, Debts(ls))
    ensures var seen := assets + Assets(Principals(ls)); Consistent(seen) && Records(meta, seen)
  {
    assert ls[..|ls|] == ls && Principals(ls)[..|ls|] == Principals(ls) && Debts(ls)[..|ls|] == Debts(ls);
  }

  lemma OwePrincipal(ls: seq<Liability>, i: nat, principal: Book)
    requires i < |ls| && ls[i].principal.Some? && Holds(principal, Principals(ls)[..i])
    ensures Holds(principal[ls[i].asset.key := Held(principal, ls[i].asset.key) + ls[i].principal.value],
        Principals(ls)[..i + 1])
  {
    var ps := Principals(ls);
    assert ps[..i + 1] == ps[..i] + [ps[i]];
    HoldsAppend(principal, ps[..i], ps[i]);
  }

  lemma OweDebt(ls: seq<Liability>, i: nat, debts: Book)
    requires i < |ls| && ls[i].principal.Some? && ls[i].premium.Some? && Holds(debts, Debts(ls)[..i])
    ensures Holds(debts[ls[i].asset.key :=
        Held(debts, ls[i].asset.key) + (ls[i].principal.value + ls[i].premium.value)],
                  Debts(ls)[..i + 1])
  {
    var ds := Debts(ls);
    assert ds[..i + 1] == ds[..i] + [ds[i]];
    HoldsAppend(debts, ds[..i], ds[i]);
  }

  /** The books after the first i liabilities. */
  ghost predicate Owing(ls: seq<Liability>, i: nat, assets: seq<Asset>, principal: Book, debts: Book,
                        meta: map<Key, nat>)
    requires i <= |ls|
  {
    && AllOwed(ls[..i]) && Holds(principal, Principals(ls)[..i]) && Holds(debts, Debts(ls)[..i])
    && Noted(ls, i, assets, meta)
  }

  ghost predicate Noted(ls: seq<Liability>, i: nat, assets: seq<Asset>, meta: map<Key, nat>)
    requires i <= |ls|
  {
    var seen := assets + Assets(Principals(ls)[..i]);
    Consistent(seen) && Records(meta, seen)
  }

  /** A liability may be added to the books when it is valid and its decimals are those on record. */
  predicate Addable(l: Liability, meta: map<Key, nat>) {
    ValidLiability(l) && (l.asset.key in meta ==> meta[l.asset.key] == l.asset.decimals)
  }

  /** The funding check compares sizes and then every principal: the two maps are the same. */
  method SameBooks(principal: Book, borrowed: Book) returns (ok: bool)
    ensures ok <==> principal == borrowed
  {
    if |principal| != |borrowed| { return false; }
    var todo := principal.Keys;
    while todo != {}
      invariant todo <= principal.Keys
      invariant forall k :: k in principal && k !in todo ==> k in borrowed && principal[k] == borrowed[k]
      decreases |todo|
    {
      var k :| k in todo;
      if k !in borrowed || principal[k] != borrowed[k] { return false; }
      todo := todo - {k};
    }
    SameSize(principal.Keys, borrowed.Keys);
    ok := true;
  }

  lemma SameSize(a: set<Key>, b: set<Key>)
    requires a <= b && |a| == |b|
    ensures a == b
  {
    assert |b - a| == |b| - |a|;
    assert b - a == {};
  }

  /** Every debt is taken from its own asset. */
  method Repay(after: Book, debts: Book) returns (ok: bool, rest: Book)
    ensures ok <==> forall k :: k in debts ==> k in after && debts[k] <= after[k]
    ensures ok ==> rest.Keys == after.Keys && forall k :: k in after ==> rest[k] == after[k] - Held(debts, k)
  {
    rest := after;
    var todo := debts.Keys;
    while todo != {}
      invariant todo <= debts.Keys && rest.Keys == after.Keys
      invariant forall k :: k in debts && k !in todo ==> k in after && debts[k] <= after[k]
      invariant forall k :: k in after ==> rest[k] == if k in todo then after[k] else after[k] - Held(debts, k)
      decreases |todo|
    {
      var k :| k in todo;
      if k !in rest || rest[k] < debts[k] { return false, rest; }
      rest := rest[k := rest[k] - debts[k]];
      todo := todo - {k};
    }
    ok := true;
  }

  lemma {:induction false} TotalGrows(bs: seq<Balance>, i: nat, k: Key)
    requires AllValid(bs) && i <= |bs|
    ensures 0 <= Total(bs[..i], k) <= Total(bs, k)
    decreases |bs|
  {
    if i == |bs| {
      assert bs[..i] == bs;
      if bs != [] { assert bs[|bs| - 1] in bs; TotalGrows(bs[..|bs| - 1], |bs| - 1, k); }
    } else {
      assert bs[|bs| - 1] in bs;
      TotalGrows(bs[..|bs| - 1], i, k);
      assert bs[..|bs| - 1][..i] == bs[..i];
    }
  }

  ghost predicate Agrees(meta: map<Key, nat>, bs: seq<Balance>) {
    forall b :: b in bs && b.asset.key in meta ==> meta[b.asset.key] == b.asset.decimals
  }

  /** Costs are taken one by one; that succeeds exactly when each asset covers the sum of its costs. */
  method PayCosts(rest0: Book, costs: seq<Balance>, meta: map<Key, nat>) returns (ok: bool, rest: Book)
    requires forall k :: k in rest0 ==> rest0[k] >= 0
    ensures ok <==> AllValid(costs) && Agrees(meta, costs) && forall k :: k in Keys(costs) ==>
        Total(costs, k) <= Held(rest0, k)
    ensures ok ==> rest.Keys == rest0.Keys && forall k :: Held(rest, k) == Held(rest0, k) - Total(costs, k)
    ensures ok ==> forall k :: k in rest ==> rest[k] >= 0
  {
    rest := rest0;
    for i := 0 to |costs|
      invariant AllValid(costs[..i]) && Agrees(meta, costs[..i]) && rest.Keys == rest0.Keys
      invariant forall k :: k in rest ==> rest[k] >= 0
      invariant forall k :: Held(rest, k) == Held(rest0, k) - Total(costs[..i], k)
    {
      var c := costs[i];
      assert c in costs && costs[..i + 1] == costs[..i] + [c];
      if !Valid(c) { return false, rest; }
      var k := c.asset.key;
      if k in meta && meta[k] != c.asset.decimals { return false, rest; }
      forall j { TotalAppend(costs[..i], c, j); }
      if c.raw.value == 0 { continue; }
      if k !in rest || rest[k] < c.raw.value {
        if AllValid(costs) { TotalGrows(costs, i + 1, k); }
        assert k in Keys(costs);
        return false, rest;
      }
      rest := rest[k := rest[k] - c.raw.value];
    }
    assert costs[..|costs|] == costs;
    forall k | k in Keys(costs) ensures Total(costs, k) <= Held(rest0, k) { assert Held(rest, k) >= 0; }
    ok := true;
  }

  lemma {:induction false} UnitValueIs(v: Valuation, decimals: nat, k: Key)
    requires k in v.prices && v.prices[k].usd.Some?
    ensures Pow10(decimals) > 0
    ensures UnitValue(v, decimals, k) * Pow10(decimals) as real
        == v.prices[k].usd.value * ((10_000 - v.prices[k].haircut) as real / 10_000.0)
    decreases decimals
  {
    if decimals > 0 {
      UnitValueIs(v, decimals - 1, k);
      var u, p := UnitValue(v, decimals - 1, k), Pow10(decimals - 1) as real;
      assert Pow10(decimals) as real == 10.0 * p;
      assert (u / 10.0) * (10.0 * p) == u * p;
    }
  }

  /** The code's value of an amount is the unit value times the amount. */
  lemma ValueOf(v: Valuation, decimals: nat, k: Key, raw: int)
    requires k in v.prices && v.prices[k].usd.Some?
    ensures Pow10(decimals) > 0
    ensures var p := v.prices[k];
            raw as real / Pow10(decimals) as real * p.usd.value * ((10_000 - p.haircut) as real / 10_000.0)
            == UnitValue(v, decimals, k) * raw as real
  {
    UnitValueIs(v, decimals, k);
    var p := v.prices[k];
    Rearrange(raw as real, Pow10(decimals) as real, UnitValue(v, decimals, k), p.usd.value,
        (10_000 - p.haircut) as real / 10_000.0);
  }

  lemma Rearrange(a: real, d: real, u: real, p: real, c: real)
    requires d > 0.0 && u * d == p * c
    ensures a / d * p * c == u * a
  {
    var q := a / d;
    assert q * d == a;
    assert q * p * c == q * (u * d) == u * (q * d);
  }

  /** The unit values at the decimals on record. */
  ghost function RecordedUnits(v: Valuation, meta: map<Key, nat>): Key -> real {
    (k: Key) => UnitValue(v, if k in meta then meta[k] else 0, k)
  }

  ghost function Worth(unit: Key -> real, m: Book): Key -> real { (k: Key) => unit(k) * (Held(m, k) as real) }

  method ValueOne(v: Valuation, meta: map<Key, nat>, m: Book, k: Key) returns (x: Option<real>)
    requires Policy(v) && k in m && k in meta && m[k] >= 0
    ensures x == None <==> m[k] > 0 && !Priceable(v, k, m[k])
    ensures x.Some? ==> x.value == Worth(RecordedUnits(v, meta), m)(k)
  {
    if m[k] == 0 { return Some(0.0); }
    if !Priceable(v, k, m[k]) { return None; }
    ValueOf(v, meta[k], k, m[k]);
    var p := v.prices[k];
    x := Some(m[k] as real / Pow10(meta[k]) as real * p.usd.value * ((10_000 - p.haircut) as real / 10_000.0));
  }

  /** The value of a book, or None when some positive amount has no acceptable price. */
  method Value(v: Valuation, meta: map<Key, nat>, m: Book) returns (total: Option<real>)
    requires Policy(v) && (forall k :: k in m ==> k in meta && m[k] >= 0)
    ensures total.Some? <==> AllPriceable(v, m)
    ensures total.Some? ==> total.value == SumOver(m.Keys, Worth(RecordedUnits(v, meta), m))
  {
    total := SumValues(v, meta, m, Worth(RecordedUnits(v, meta), m));
  }

  method SumValues(v: Valuation, meta: map<Key, nat>, m: Book, ghost f: Key -> real) returns (total: Option<real>)
    requires Policy(v) && (forall k :: k in m ==> k in meta && m[k] >= 0)
    requires f == Worth(RecordedUnits(v, meta), m)
    ensures total.Some? <==> AllPriceable(v, m)
    ensures total.Some? ==> total.value == SumOver(m.Keys, f)
  {
    var sum := 0.0;
    var todo := m.Keys;
    while todo != {}
      invariant todo <= m.Keys && sum + SumOver(todo, f) == SumOver(m.Keys, f)
      invariant forall k :: k in m && k !in todo ==> ValuedAt(v, m, k)
      decreases |todo|
    {
      var k :| k in todo;
      SumRemove(todo, f, k);
      todo := todo - {k};
      var x := ValueOne(v, meta, m, k);
      if x == None {
        assert !ValuedAt(v, m, k);
        return None;
      }
      sum := sum + x.value;
    }
    total := Some(sum);
  }

  /** Nothing held, or an acceptable price for it. */
  predicate ValuedAt(v: Valuation, m: Book, k: Key)
    requires k in m
  {
    m[k] <= 0 || Priceable(v, k, m[k])
  }

  // ---------------------------------------------------------------- the evaluation

  lemma RecordsDecimals(meta: map<Key, nat>, assets: seq<Asset>, k: Key)
    requires Records(meta, assets)
    ensures DecimalsOf(assets, k) == (if k in meta then meta[k] else 0)
  {
    LastNamed(assets, k);
  }

  lemma {:induction false} LastNamed(assets: seq<Asset>, k: Key)
    ensures if exists a :: a in assets && a.key == k
        then exists a :: a in assets && a.key == k && a.decimals == DecimalsOf(assets, k)
            else DecimalsOf(assets, k) == 0
    decreases |assets|
  {
    if assets != [] {
      assert assets == assets[..|assets| - 1] + [assets[|assets| - 1]];
      LastNamed(assets[..|assets| - 1], k);
    }
  }

  /** What is known once all lists are added up. */
  ghost predicate Booked(x: Input, after: Book, owned: Book, borrowed: Book, principal: Book, debts: Book,
                         meta: map<Key, nat>) {
    && WellFormed(x) && Holds(after, x.after) && Holds(owned, x.owned) && Holds(borrowed, x.borrowed)
    && Holds(principal, Principals(x.liabilities)) && Holds(debts, Debts(x.liabilities)) && Records(meta, Named(x))
  }

  /** The four accumulation loops. */
  method BookAll(x: Input)
    returns (ok: bool, after: Book, owned: Book, borrowed: Book, principal: Book, debts: Book, meta: map<Key, nat>)
    ensures ok <==> WellFormed(x)
    ensures ok ==> Booked(x, after, owned, borrowed, principal, debts, meta)
  {
    owned, borrowed, principal, debts := map[], map[], map[], map[];
    ghost var a, o, b := Assets(x.after), Assets(x.owned), Assets(x.borrowed);
    Prefixes(a, o, b, Assets(Principals(x.liabilities)));
    ok, after, meta := AddAll(x.after, map[], []);
    assert [] + a == a;
    if !ok { return; }
    ok, owned, meta := AddAll(x.owned, meta, a);
    if !ok { return; }
    ok, borrowed, meta := AddAll(x.borrowed, meta, a + o);
    if !ok { return; }
    ok, principal, debts, meta := AddLiabilities(x.liabilities, meta, a + o + b);
  }

  lemma Prefixes(a: seq<Asset>, b: seq<Asset>, c: seq<Asset>, d: seq<Asset>)
    ensures Consistent(a + b + c + d) ==> Consistent(a + b + c) && Consistent(a + b) && Consistent(a)
  {
    if Consistent(a + b + c + d) {
      ConsistentPrefix(a + b + c, d);
      ConsistentPrefix(a + b, c);
      ConsistentPrefix(a, b);
    }
  }

  lemma HeldKeys(m: Book, bs: seq<Balance>, k: Key)
    requires Holds(m, bs) && AllValid(bs)
    ensures k in m <==> k in Keys(bs)
    ensures k in m ==> m[k] == Total(bs, k) >= 0
    ensures k !in m ==> Total(bs, k) == 0
  {
    assert Held(m, k) == Total(bs, k);
    assert bs[..|bs|] == bs;
    TotalGrows(bs, |bs|, k);
  }

  lemma BooksEqual(m: Book, bs: seq<Balance>, n: Book, cs: seq<Balance>)
    requires Holds(m, bs) && Holds(n, cs)
    ensures m == n <==> Keys(bs) == Keys(cs) && forall k :: k in Keys(cs) ==> Total(bs, k) == Total(cs, k)
  {
    forall k | k in m && k in n ensures m[k] == n[k] <==> Total(bs, k) == Total(cs, k) {
      assert Held(m, k) == Total(bs, k) && Held(n, k) == Total(cs, k);
    }
  }

  lemma DebtHeld(x: Input, debts: Book, k: Key)
    requires Holds(debts, Debts(x.liabilities))
    ensures Held(debts, k) == Debt(x, k) && (k in debts <==> k in Keys(Principals(x.liabilities)))
  {
    assert Held(debts, k) == Total(Debts(x.liabilities), k);
    DebtsAreBoth(x.liabilities, k);
  }

  lemma DebtCovered(x: Input, after: Book, debts: Book, k: Key)
    requires WellFormed(x) && Holds(after, x.after) && Holds(debts, Debts(x.liabilities)) && k in debts
    ensures k in after && debts[k] <= after[k] <==> Debt(x, k) <= Total(x.after, k)
  {
    DebtHeld(x, debts, k);
    HeldKeys(after, x.after, k);
    DebtPositive(x.liabilities, k);
  }

  lemma DebtsCovered(x: Input, after: Book, debts: Book)
    requires WellFormed(x) && Holds(after, x.after) && Holds(debts, Debts(x.liabilities))
    requires Keys(Principals(x.liabilities)) == Keys(x.borrowed)
    ensures (forall k :: k in debts ==> k in after && debts[k] <= after[k]) <==>
        (forall k :: k in Keys(x.borrowed) ==> Debt(x, k) <= Total(x.after, k))
  {
    forall k ensures k in debts <==> k in Keys(x.borrowed) { DebtHeld(x, debts, k); }
    forall k | k in debts ensures k in after && debts[k] <= after[k] <==> Debt(x, k) <= Total(x.after, k) {
      DebtCovered(x, after, debts, k);
    }
  }

  lemma FundedByBooks(x: Input, after: Book, owned: Book, borrowed: Book, principal: Book, debts: Book,
                      meta: map<Key, nat>)
    requires Booked(x, after, owned, borrowed, principal, debts, meta)
    ensures Funded(x) <==> principal == borrowed && forall k :: k in debts ==> k in after && debts[k] <= after[k]
  {
    BooksEqual(principal, Principals(x.liabilities), borrowed, x.borrowed);
    if principal == borrowed { DebtsCovered(x, after, debts); }
  }

  /** What is left after repayment, in every asset. */
  lemma RepaidHolds(x: Input, after: Book, debts: Book, rest: Book, k: Key)
    requires WellFormed(x) && Holds(after, x.after) && Holds(debts, Debts(x.liabilities))
    requires forall j :: j in debts ==> j in after && debts[j] <= after[j]
    requires rest.Keys == after.Keys && forall j :: j in after ==> rest[j] == after[j] - Held(debts, j)
    ensures Held(rest, k) == Total(x.after, k) - Debt(x, k) >= 0
  {
    DebtHeld(x, debts, k);
    HeldKeys(after, x.after, k);
  }

  lemma SettledByBooks(x: Input, rest: Book, meta: map<Key, nat>)
    requires Funded(x) && Records(meta, Named(x)) && forall k :: Held(rest, k) == Total(x.after, k) - Debt(x, k)
    ensures Settled(x) <==>
        AllValid(x.costs) && Agrees(meta, x.costs) && forall k :: k in Keys(x.costs) ==>
        Total(x.costs, k) <= Held(rest, k)
  {
    if Agrees(meta, x.costs) {
      forall c, a | c in x.costs && a in Named(x) && c.asset.key == a.key ensures c.asset.decimals == a.decimals {}
    }
    if forall c, a :: c in x.costs && a in Named(x) && c.asset.key == a.key ==> c.asset.decimals == a.decimals {
      forall c | c in x.costs && c.asset.key in meta ensures meta[c.asset.key] == c.asset.decimals {
        var a :| a in Named(x) && a.key == c.asset.key;
      }
    }
  }

  method CheckLimits(rest: Book, limits: map<Key, int>) returns (ok: bool)
    ensures ok <==> forall k :: k in rest && rest[k] > 0 ==> k in limits && rest[k] <= limits[k]
  {
    var todo := rest.Keys;
    while todo != {}
      invariant todo <= rest.Keys
      invariant forall k :: k in rest && k !in todo && rest[k] > 0 ==> k in limits && rest[k] <= limits[k]
      decreases |todo|
    {
      var k :| k in todo;
      if rest[k] > 0 && (k !in limits || limits[k] < 0 || rest[k] > limits[k]) { return false; }
      todo := todo - {k};
    }
    ok := true;
  }

  lemma Distribute(u: real, a: int, b: int)
    ensures u * ((a - b) as real) == u * (a as real) - u * (b as real)
  {
    assert (a - b) as real == a as real - b as real;
  }

  /** The difference of the two valuations is the closed form, whatever the unit values. */
  lemma NetByBooks(x: Input, unit: Key -> real, rest: Book, owned: Book)
    requires rest.Keys == Keys(x.after) && owned.Keys == Keys(x.owned)
    requires forall k :: Held(rest, k) == Residual(x, k) && Held(owned, k) == Total(x.owned, k)
    ensures SumOver(Keys(x.after) + Keys(x.owned), Gain(unit, Profits(x)))
        == SumOver(rest.Keys, Worth(unit, rest)) - SumOver(owned.Keys, Worth(unit, owned))
  {
    var all := Keys(x.after) + Keys(x.owned);
    var f, g, h := Worth(unit, rest), Worth(unit, owned), Gain(unit, Profits(x));
    forall k | k in all ensures h(k) == f(k) - g(k) { GainSplits(unit, Profits(x), rest, owned, k); }
    WorthOutside(unit, rest);
    WorthOutside(unit, owned);
    SumDifference(all, rest.Keys, owned.Keys, f, g, h);
  }

  lemma GainSplits(unit: Key -> real, profit: Key -> int, rest: Book, owned: Book, k: Key)
    requires profit(k) == Held(rest, k) - Held(owned, k)
    ensures Gain(unit, profit)(k) == Worth(unit, rest)(k) - Worth(unit, owned)(k)
  {
    var u, a, b := unit(k), Held(rest, k), Held(owned, k);
    assert Gain(unit, profit)(k) == u * ((a - b) as real);
    assert Worth(unit, rest)(k) == u * (a as real) && Worth(unit, owned)(k) == u * (b as real);
    Distribute(u, a, b);
  }

  lemma WorthOutside(unit: Key -> real, m: Book)
    ensures forall k :: k !in m ==> Worth(unit, m)(k) == 0.0
  {
    forall k | k !in m ensures Worth(unit, m)(k) == 0.0 { assert Held(m, k) == 0; }
  }

  lemma SumDifference(all: set<Key>, ks: set<Key>, js: set<Key>, f: Key -> real, g: Key -> real, h: Key -> real)
    requires ks <= all && js <= all && (forall k :: k in all ==> h(k) == f(k) - g(k))
    requires (forall k :: k !in ks ==> f(k) == 0.0) && (forall k :: k !in js ==> g(k) == 0.0)
    ensures SumOver(all, h) == SumOver(ks, f) - SumOver(js, g)
  {
    SumMinus(all, f, g, h);
    SumExtend(ks, all, f);
    SumExtend(js, all, g);
  }

  lemma SameUnits(x: Input, meta: map<Key, nat>)
    requires Records(meta, Named(x))
    ensures SumOver(Keys(x.after) + Keys(x.owned), Gain(RecordedUnits(x.valuation, meta), Profits(x))) == NetValue(x)
  {
    var all := Keys(x.after) + Keys(x.owned);
    var u, w := RecordedUnits(x.valuation, meta), Units(x);
    forall k ensures u(k) == w(k) { RecordsDecimals(meta, Named(x), k); }
    GainByUnits(all, Profits(x), u, w);
  }

  lemma GainByUnits(all: set<Key>, profit: Key -> int, u: Key -> real, w: Key -> real)
    requires forall k :: u(k) == w(k)
    ensures SumOver(all, Gain(u, profit)) == SumOver(all, Gain(w, profit))
  {
    SumEqual(all, Gain(u, profit), Gain(w, profit));
  }

  lemma GainByProfits(all: set<Key>, m: Key -> int, n: Key -> int, w: Key -> real)
    requires forall k :: m(k) == n(k)
    ensures SumOver(all, Gain(w, m)) == SumOver(all, Gain(w, n))
  {
    SumEqual(all, Gain(w, m), Gain(w, n));
  }

  lemma DebtPositive(ls: seq<Liability>, k: Key)
    requires AllOwed(ls) && k in Keys(Debts(ls))
    ensures Total(Debts(ls), k) > 0
  {
    var ds := Debts(ls);
    assert AllValid(ds) by {
      forall d | d in ds ensures Valid(d) { var i :| 0 <= i < |ds| && ds[i] == d; assert ls[i] in ls; }
    }
    var d :| d in ds && d.asset.key == k;
    var i :| 0 <= i < |ds| && ds[i] == d;
    assert ls[i] in ls && ds[..i + 1] == ds[..i] + [d];
    TotalAppend(ds[..i], d, k);
    TotalGrows(ds, i, k);
    TotalGrows(ds, i + 1, k);
  }

  function Residuals(rest: Book): map<Key, int> { map k | k in rest && rest[k] > 0 :: rest[k] }

  /** From the books to the repaid and cost-free rest. */
  method Settle(x: Input) returns (satisfied: bool, settled: bool, rest: Book, owned: Book, meta: map<Key, nat>)
    ensures satisfied <==> Funded(x)
    ensures settled <==> Settled(x)
    ensures settled ==> Records(meta, Named(x)) && rest.Keys == Keys(x.after) && Holds(owned, x.owned)
    ensures settled ==> forall k :: Held(rest, k) == Residual(x, k) >= 0
  {
    var ok, after, borrowed, principal, debts;
    satisfied, settled, rest := false, false, map[];
    ok, after, owned, borrowed, principal, debts, meta := BookAll(x);
    if !ok { return; }
    FundedByBooks(x, after, owned, borrowed, principal, debts, meta);
    var same := SameBooks(principal, borrowed);
    if !same { return; }
    satisfied, rest := Repay(after, debts);
    if !satisfied { return; }
    forall k ensures Held(rest, k) == Total(x.after, k) - Debt(x, k) >= 0 { RepaidHolds(x, after, debts, rest, k); }
    SettledByBooks(x, rest, meta);
    assert forall k :: k in rest ==> rest[k] == Held(rest, k);
    settled, rest := PayCosts(rest, x.costs, meta);
    if settled {
      forall k ensures Held(rest, k) == Residual(x, k) >= 0 { assert k in rest ==> rest[k] >= 0; }
    }
  }

  lemma NamedKeys(x: Input, meta: map<Key, nat>, k: Key)
    requires Records(meta, Named(x)) && (k in Keys(x.after) || k in Keys(x.owned))
    ensures k in meta
  {
    if k in Keys(x.after) {
      var i :| 0 <= i < |x.after| && x.after[i].asset.key == k;
      assert Assets(x.after)[i] in Named(x);
    } else {
      var i :| 0 <= i < |x.owned| && x.owned[i].asset.key == k;
      assert Assets(x.owned)[i] in Named(x);
    }
  }

  /** Rest and owned books as the valuation needs them. */
  ghost predicate Ready(x: Input, meta: map<Key, nat>, rest: Book, owned: Book) {
    && Records(meta, Named(x)) && AllValid(x.owned)
    && rest.Keys == Keys(x.after) && Holds(owned, x.owned) && forall k :: Held(rest, k) == Residual(x, k) >= 0
  }

  ghost predicate AllPriceable(v: Valuation, m: Book) { forall k :: k in m && m[k] > 0 ==> Priceable(v, k, m[k]) }

  lemma ReadyFacts(x: Input, meta: map<Key, nat>, rest: Book, owned: Book)
    requires Ready(x, meta, rest, owned)
    ensures forall k :: k in rest ==> k in meta && rest[k] >= 0
    ensures forall k :: k in owned ==> k in meta && owned[k] >= 0
    ensures Priced(x) <==> AllPriceable(x.valuation, rest) && AllPriceable(x.valuation, owned)
  {
    forall k | k in rest ensures k in meta && rest[k] == Residual(x, k) >= 0 {
      NamedKeys(x, meta, k);
      assert rest[k] == Held(rest, k);
    }
    forall k | k in owned ensures k in meta && owned[k] == Total(x.owned, k) >= 0 {
      NamedKeys(x, meta, k);
      HeldKeys(owned, x.owned, k);
    }
  }

  lemma NetExact(x: Input, meta: map<Key, nat>, rest: Book, owned: Book)
    requires Ready(x, meta, rest, owned)
    ensures var u := RecordedUnits(x.valuation, meta);
            NetValue(x) == SumOver(rest.Keys, Worth(u, rest)) - SumOver(owned.Keys, Worth(u, owned))
  {
    NetByBooks(x, RecordedUnits(x.valuation, meta), rest, owned);
    SameUnits(x, meta);
  }

  /** The value of what is left minus that of what was owned. */
  method NetOf(x: Input, meta: map<Key, nat>, rest: Book, owned: Book) returns (net: Option<real>)
    requires Policy(x.valuation) && Ready(x, meta, rest, owned)
    ensures net.Some? <==> Priced(x)
    ensures net.Some? ==> net.value == NetValue(x)
  {
    ReadyFacts(x, meta, rest, owned);
    net := None;
    var a := Value(x.valuation, meta, rest);
    if a == None { return; }
    var b := Value(x.valuation, meta, owned);
    if b == None { return; }
    NetExact(x, meta, rest, owned);
    net := Some(a.value - b.value);
  }

  lemma RestFacts(x: Input, rest: Book)
    requires rest.Keys == Keys(x.after) && forall k :: Held(rest, k) == Residual(x, k)
    ensures Residuals(rest) == map k | k in Keys(x.after) && Residual(x, k) > 0 :: Residual(x, k)
    ensures WithinLimits(x) <==>
        forall k :: k in rest && rest[k] > 0 ==> k in x.valuation.limits && rest[k] <= x.valuation.limits[k]
  {
    assert forall k :: k in rest ==> rest[k] == Held(rest, k);
  }

  /** The whole evaluation against its closed form. */
  method EvaluatePortfolio(x: Input) returns (r: Result)
    ensures r.satisfied <==> Funded(x)
    ensures r.residual == if Settled(x) then map k | k in Keys(x.after) && Residual(x, k) > 0 :: Residual(x, k)
        else map[]
    ensures r.complete <==> Complete(x)
    ensures r.net == if Complete(x) then Some(NetValue(x)) else None
    ensures r.positive <==> Complete(x) && NetValue(x) > 0.0
  {
    var satisfied, settled, rest, owned, meta := Settle(x);
    r := Result(satisfied, false, map[], None, false);
    if !settled { return; }
    RestFacts(x, rest);
    r := r.(residual := Residuals(rest));
    var limited := CheckLimits(rest, x.valuation.limits);
    if !limited || !Policy(x.valuation) { return; }
    var net := NetOf(x, meta, rest, owned);
    if net == None { return; }
    r := r.(complete := true, net := net, positive := net.value > 0.0);
  }

  // ---------------------------------------------------------------- order and splitting do not matter

  /** The same assets, the same totals, and both lists valid or neither. */
  ghost predicate Similar(bs: seq<Balance>, cs: seq<Balance>) {
    && (AllValid(bs) <==> AllValid(cs)) && (forall k :: Total(bs, k) == Total(cs, k))
    && (forall a :: a in Assets(bs) <==> a in Assets(cs))
  }

  ghost predicate SimilarDebts(ls: seq<Liability>, ms: seq<Liability>) {
    (AllOwed(ls) <==> AllOwed(ms)) && Similar(Principals(ls), Principals(ms)) && Similar(Premiums(ls), Premiums(ms))
  }

  ghost predicate SimilarInput(x: Input, y: Input) {
    && Similar(x.after, y.after) && Similar(x.owned, y.owned) && Similar(x.borrowed, y.borrowed)
        && Similar(x.costs, y.costs)
    && SimilarDebts(x.liabilities, y.liabilities) && x.valuation == y.valuation
  }

  lemma AssetIn(bs: seq<Balance>, a: Asset)
    ensures a in Assets(bs) <==> exists b :: b in bs && b.asset == a
  {
    if a in Assets(bs) { var i :| 0 <= i < |bs| && Assets(bs)[i] == a; assert bs[i] in bs; }
    if exists b :: b in bs && b.asset == a {
      var b :| b in bs && b.asset == a;
      var i :| 0 <= i < |bs| && bs[i] == b;
      assert Assets(bs)[i] == a;
    }
  }

  lemma KeyOfAsset(bs: seq<Balance>, k: Key)
    ensures k in Keys(bs) <==> exists a :: a in Assets(bs) && a.key == k
  {
    if k in Keys(bs) { var b :| b in bs && b.asset.key == k; AssetIn(bs, b.asset); }
    if exists a :: a in Assets(bs) && a.key == k { var a :| a in Assets(bs) && a.key == k; AssetIn(bs, a); }
  }

  lemma SimilarKeys(bs: seq<Balance>, cs: seq<Balance>)
    requires Similar(bs, cs)
    ensures Keys(bs) == Keys(cs)
  {
    forall k ensures k in Keys(bs) <==> k in Keys(cs) { KeyOfAsset(bs, k); KeyOfAsset(cs, k); }
  }

  lemma SimilarNames(x: Input, y: Input)
    requires SimilarInput(x, y)
    ensures forall a :: a in Named(x) <==> a in Named(y)
    ensures Consistent(Named(x)) <==> Consistent(Named(y))
  {}

  lemma CostsAgree(x: Input, y: Input)
    requires SimilarInput(x, y)
    requires forall c, a :: c in x.costs && a in Named(x) && c.asset.key == a.key ==> c.asset.decimals == a.decimals
    ensures forall c, a :: c in y.costs && a in Named(y) && c.asset.key == a.key ==> c.asset.decimals == a.decimals
  {
    SimilarNames(x, y);
    forall c, a | c in y.costs && a in Named(y) && c.asset.key == a.key ensures c.asset.decimals == a.decimals {
      AssetIn(y.costs, c.asset);
      AssetIn(x.costs, c.asset);
      var d :| d in x.costs && d.asset == c.asset;
    }
  }

  lemma SimilarResiduals(x: Input, y: Input, k: Key)
    requires SimilarInput(x, y)
    ensures Debt(x, k) == Debt(y, k) && Residual(x, k) == Residual(y, k) && Total(x.owned, k) == Total(y.owned, k)
  {
    assert Total(x.after, k) == Total(y.after, k) && Total(x.costs, k) == Total(y.costs, k);
  }

  lemma SimilarSettles(x: Input, y: Input)
    requires SimilarInput(x, y)
    ensures Funded(x) ==> Funded(y)
    ensures Settled(x) ==> Settled(y)
  {
    SimilarNames(x, y);
    SimilarKeys(x.borrowed, y.borrowed);
    SimilarKeys(x.costs, y.costs);
    SimilarKeys(Principals(x.liabilities), Principals(y.liabilities));
    forall k ensures Debt(x, k) == Debt(y, k) && Residual(x, k) == Residual(y, k) { SimilarResiduals(x, y, k); }
    if Settled(x) { CostsAgree(x, y); }
  }

  lemma SimilarDecimals(assets: seq<Asset>, others: seq<Asset>, k: Key)
    requires Consistent(assets) && forall a :: a in assets <==> a in others
    ensures DecimalsOf(assets, k) == DecimalsOf(others, k)
  {
    LastNamed(assets, k);
    LastNamed(others, k);
  }

  lemma SimilarNet(x: Input, y: Input)
    requires SimilarInput(x, y) && Consistent(Named(x))
    ensures NetValue(x) == NetValue(y)
  {
    SimilarKeys(x.after, y.after);
    SimilarKeys(x.owned, y.owned);
    SimilarNames(x, y);
    var all := Keys(x.after) + Keys(x.owned);
    var u, w := Units(x), Units(y);
    forall k ensures u(k) == w(k) { SimilarDecimals(Named(x), Named(y), k); }
    GainByUnits(all, Profits(x), u, w);
    var m, n := Profits(x), Profits(y);
    forall k ensures m(k) == n(k) { SimilarResiduals(x, y, k); }
    GainByProfits(all, m, n, w);
  }

  /** Acceptance at every stage, the residuals and the net value are those of any similar input. */
  lemma OutcomeDependsOnTotals(x: Input, y: Input)
    requires SimilarInput(x, y)
    ensures (Funded(x) <==> Funded(y)) && (Settled(x) <==> Settled(y)) && (Complete(x) <==> Complete(y))
    ensures forall k :: Residual(x, k) == Residual(y, k)
    ensures Complete(x) ==> NetValue(x) == NetValue(y)
  {
    SimilarSettles(x, y);
    SimilarSettles(y, x);
    SimilarKeys(x.after, y.after);
    SimilarKeys(x.owned, y.owned);
    forall k ensures Residual(x, k) == Residual(y, k) && Total(x.owned, k) == Total(y.owned, k) {
      SimilarResiduals(x, y, k);
    }
    if Complete(x) { SimilarNet(x, y); }
  }

  lemma {:induction false} TotalConcat(bs: seq<Balance>, cs: seq<Balance>, k: Key)
    ensures Total(bs + cs, k) == Total(bs, k) + Total(cs, k)
    decreases |cs|
  {
    if cs == [] { assert bs + cs == bs; }
    else {
      TotalConcat(bs, cs[..|cs| - 1], k);
      assert (bs + cs)[..|bs + cs| - 1] == bs + cs[..|cs| - 1];
    }
  }

  lemma WithoutLast<T>(s: seq<T>, t: seq<T>) returns (i: nat)
    requires s != [] && multiset(s) == multiset(t)
    ensures i < |t| && t[i] == s[|s| - 1] && multiset(s[..|s| - 1]) == multiset(t[..i] + t[i + 1..])
  {
    var x, init := s[|s| - 1], s[..|s| - 1];
    assert s == init + [x];
    assert x in multiset(t);
    i :| 0 <= i < |t| && t[i] == x;
    assert t == t[..i] + [x] + t[i + 1..];
    assert multiset(init) == multiset(s) - multiset{x};
    assert multiset(t[..i] + t[i + 1..]) == multiset(t) - multiset{x};
  }

  lemma {:induction false} TotalPermuted(bs: seq<Balance>, cs: seq<Balance>, k: Key)
    requires multiset(bs) == multiset(cs)
    ensures Total(bs, k) == Total(cs, k)
    decreases |bs|
  {
    if bs == [] {
      assert |cs| == |multiset(cs)| == 0;
    } else {
      var b := bs[|bs| - 1];
      var i := WithoutLast(bs, cs);
      var p, q := cs[..i], cs[i + 1..];
      assert cs == p + [b] + q;
      TotalConcat(p + [b], q, k);
      TotalAppend(p, b, k);
      TotalConcat(p, q, k);
      TotalPermuted(bs[..|bs| - 1], p + q, k);
    }
  }

  /** Reordering a list of balances or costs gives a similar one. */
  lemma PermutedIsSimilar(bs: seq<Balance>, cs: seq<Balance>)
    requires multiset(bs) == multiset(cs)
    ensures Similar(bs, cs)
  {
    forall k ensures Total(bs, k) == Total(cs, k) { TotalPermuted(bs, cs, k); }
    SameMembers(bs, cs);
    forall a ensures a in Assets(bs) <==> a in Assets(cs) { AssetIn(bs, a); AssetIn(cs, a); }
  }

  lemma SameMembers(bs: seq<Balance>, cs: seq<Balance>)
    requires multiset(bs) == multiset(cs)
    ensures forall b :: b in bs <==> b in cs
  {
    assert forall b :: (b in bs <==> b in multiset(bs)) && (b in cs <==> b in multiset(cs));
  }

  /** Splitting a balance or a cost into two non-negative parts of the same asset gives a similar list. */
  lemma SplitIsSimilar(p: seq<Balance>, q: seq<Balance>, asset: Asset, u: int, v: int)
    requires u >= 0 && v >= 0
    ensures Similar(p + [Balance(asset, Some(u + v))] + q, p + [Balance(asset, Some(u)), Balance(asset, Some(v))] + q)
  {
    var whole, parts := [Balance(asset, Some(u + v))], [Balance(asset, Some(u)), Balance(asset, Some(v))];
    var bs, cs := p + whole + q, p + parts + q;
    forall k ensures Total(bs, k) == Total(cs, k) {
      TotalConcat(p + whole, q, k);
      TotalConcat(p, whole, k);
      TotalConcat(p + parts, q, k);
      TotalConcat(p, parts, k);
      TotalAppend([], whole[0], k);
      TotalAppend([], parts[0], k);
      TotalAppend([parts[0]], parts[1], k);
      assert [] + [parts[0]] == [parts[0]] && [parts[0]] + [parts[1]] == parts && [] + whole == whole;
    }
    forall a ensures a in Assets(bs) <==> a in Assets(cs) {
      AssetIn(bs, a);
      AssetIn(cs, a);
      assert whole[0] in bs && parts[0] in cs;
    }
    SplitValid(p, q, asset, u, v);
  }

  lemma SplitValid(p: seq<Balance>, q: seq<Balance>, asset: Asset, u: int, v: int)
    requires u >= 0 && v >= 0
    ensures AllValid(p + [Balance(asset, Some(u + v))] + q) <==>
        AllValid(p + [Balance(asset, Some(u)), Balance(asset, Some(v))] + q)
  {
    var bs, cs := p + [Balance(asset, Some(u + v))] + q, p + [Balance(asset, Some(u)), Balance(asset, Some(v))] + q;
    if AllValid(bs) {
      assert Balance(asset, Some(u + v)) in bs && (forall b :: b in p || b in q ==> b in bs);
      forall b | b in cs ensures Valid(b) {}
    }
    if AllValid(cs) {
      assert Balance(asset, Some(u)) in cs && (forall b :: b in p || b in q ==> b in cs);
      forall b | b in bs ensures Valid(b) {}
    }
  }

  /** Reordering the liabilities gives similar ones. */
  lemma {:induction false} PermutedDebts(ls: seq<Liability>, ms: seq<Liability>)
    requires multiset(ls) == multiset(ms)
    ensures SimilarDebts(ls, ms)
  {
    assert forall l :: (l in ls <==> l in multiset(ls)) && (l in ms <==> l in multiset(ms));
    MapPermuted(ls, ms);
    PermutedIsSimilar(Principals(ls), Principals(ms));
    PermutedIsSimilar(Premiums(ls), Premiums(ms));
  }

  lemma {:induction false} MapPermuted(ls: seq<Liability>, ms: seq<Liability>)
    requires multiset(ls) == multiset(ms)
    ensures multiset(Principals(ls)) == multiset(Principals(ms)) && multiset(Premiums(ls)) == multiset(Premiums(ms))
    decreases |ls|
  {
    if ls == [] {
      assert |ms| == |multiset(ms)| == 0;
    } else {
      var n, l := |ls| - 1, ls[|ls| - 1];
      var i := WithoutLast(ls, ms);
      var p, q := ms[..i], ms[i + 1..];
      assert ms == p + [l] + q;
      MapPermuted(ls[..n], p + q);
      assert Principals(ls) == Principals(ls[..n]) + [Balance(l.asset, l.principal)];
      assert Principals(ms) == Principals(p) + [Balance(l.asset, l.principal)] + Principals(q);
      assert Principals(p + q) == Principals(p) + Principals(q);
      assert Premiums(ls) == Premiums(ls[..n]) + [Balance(l.asset, l.premium)];
      assert Premiums(ms) == Premiums(p) + [Balance(l.asset, l.premium)] + Premiums(q);
      assert Premiums(p + q) == Premiums(p) + Premiums(q);
    }
  }

  // ---------------------------------------------------------------- no asset finances another

  /** A settled portfolio leaves no asset negative: principal, premium and costs are all paid in kind. */
  lemma NoAssetFinancesAnother(x: Input, k: Key)
    requires Settled(x)
    ensures Residual(x, k) >= 0
    ensures Residual(x, k)
        == Total(x.after, k) - Total(x.borrowed, k) - Total(Premiums(x.liabilities), k) - Total(x.costs, k)
  {
    NotNamedIsZero(x.costs, k);
    NotNamedIsZero(x.borrowed, k);
    NotNamedIsZero(Principals(x.liabilities), k);
    NotNamedIsZero(Debts(x.liabilities), k);
    DebtsAreBoth(x.liabilities, k);
    assert x.after[..|x.after|] == x.after;
    TotalGrows(x.after, |x.after|, k);
  }

  lemma {:induction false} NotNamedIsZero(bs: seq<Balance>, k: Key)
    ensures k !in Keys(bs) ==> Total(bs, k) == 0
    decreases |bs|
  {
    if bs != [] && k !in Keys(bs) {
      var init, last := bs[..|bs| - 1], bs[|bs| - 1];
      assert bs == init + [last];
      KeysAppend(init, last);
      NotNamedIsZero(init, k);
    }
  }

  // ---------------------------------------------------------------- debt proceeds are not equity

  /** The same portfolio with n more borrowed, received and owed of one asset, at no premium. */
  function Levered(x: Input, a: Asset, n: int): Input {
    x.(borrowed := x.borrowed + [Balance(a, Some(n))], after := x.after + [Balance(a, Some(n))],
       liabilities := x.liabilities + [Liability(a, Some(n), Some(0))])
  }

  ghost predicate CanLever(x: Input, a: Asset, n: int) {
    && Complete(x) && Addressed(a) && n > 0 && Consistent(Named(x) + [a])
    && forall c :: c in x.costs && c.asset.key == a.key ==> c.asset.decimals == a.decimals
  }

  lemma LeveredTotals(x: Input, a: Asset, n: int, k: Key)
    ensures var y, d := Levered(x, a, n), if a.key == k then n else 0;
            && Total(y.after, k) == Total(x.after, k) + d && Total(y.borrowed, k) == Total(x.borrowed, k) + d
            && Total(Principals(y.liabilities), k) == Total(Principals(x.liabilities), k) + d
            && Debt(y, k) == Debt(x, k) + d && Residual(y, k) == Residual(x, k)
  {
    LeveredLists(x, a, n);
    var b := Balance(a, Some(n));
    TotalAppend(x.after, b, k);
    TotalAppend(x.borrowed, b, k);
    TotalAppend(Principals(x.liabilities), b, k);
    TotalAppend(Premiums(x.liabilities), Balance(a, Some(0)), k);
  }

  lemma LeveredLists(x: Input, a: Asset, n: int)
    ensures var y := Levered(x, a, n);
            && y.after == x.after + [Balance(a, Some(n))] && y.borrowed == x.borrowed + [Balance(a, Some(n))]
                && y.costs == x.costs
            && Principals(y.liabilities) == Principals(x.liabilities) + [Balance(a, Some(n))]
            && Premiums(y.liabilities) == Premiums(x.liabilities) + [Balance(a, Some(0))]
  {}

  lemma LeveredNames(x: Input, a: Asset, n: int)
    ensures forall b :: b in Named(Levered(x, a, n)) <==> b in Named(x) + [a]
  {
    var y := Levered(x, a, n);
    assert Assets(y.after) == Assets(x.after) + [a] && Assets(y.borrowed) == Assets(x.borrowed) + [a];
    assert Principals(y.liabilities) == Principals(x.liabilities) + [Balance(a, Some(n))];
    assert Assets(Principals(y.liabilities)) == Assets(Principals(x.liabilities)) + [a];
  }

  lemma UnfundedKey(x: Input, k: Key)
    requires Funded(x) && k !in Keys(x.borrowed)
    ensures Total(x.borrowed, k) == Total(Principals(x.liabilities), k) == Debt(x, k) == 0 <= Total(x.after, k)
  {
    NotNamedIsZero(x.borrowed, k);
    NotNamedIsZero(Principals(x.liabilities), k);
    DebtsAreBoth(x.liabilities, k);
    NotNamedIsZero(Debts(x.liabilities), k);
    assert x.after[..|x.after|] == x.after;
    TotalGrows(x.after, |x.after|, k);
  }

  lemma FundedKey(x: Input, k: Key)
    requires Funded(x)
    ensures Total(Principals(x.liabilities), k) == Total(x.borrowed, k) && Debt(x, k) <= Total(x.after, k)
  {
    if k !in Keys(x.borrowed) { UnfundedKey(x, k); }
  }

  lemma LeveredCovers(x: Input, a: Asset, n: int, k: Key)
    requires Funded(x)
    ensures var y := Levered(x, a, n);
            Total(Principals(y.liabilities), k) == Total(y.borrowed, k) && Debt(y, k) <= Total(y.after, k)
  {
    LeveredTotals(x, a, n, k);
    FundedKey(x, k);
  }

  lemma LeveredFunded(x: Input, a: Asset, n: int)
    requires CanLever(x, a, n)
    ensures Funded(Levered(x, a, n))
  {
    var y := Levered(x, a, n);
    LeveredNames(x, a, n);
    assert Principals(y.liabilities) == Principals(x.liabilities) + [Balance(a, Some(n))];
    assert Keys(y.borrowed) == Keys(Principals(y.liabilities)) by {
      KeysAppend(x.borrowed, Balance(a, Some(n)));
      KeysAppend(Principals(x.liabilities), Balance(a, Some(n)));
    }
    forall k ensures Total(Principals(y.liabilities), k) == Total(y.borrowed, k) && Debt(y, k) <= Total(y.after, k) {
      LeveredCovers(x, a, n, k);
    }
  }

  lemma LeveredSettled(x: Input, a: Asset, n: int)
    requires CanLever(x, a, n)
    ensures Settled(Levered(x, a, n))
  {
    var y := Levered(x, a, n);
    LeveredFunded(x, a, n);
    LeveredNames(x, a, n);
    forall k ensures Residual(y, k) == Residual(x, k) { LeveredTotals(x, a, n, k); }
  }

  /** An asset held neither before nor after has gained nothing. */
  lemma NothingGained(x: Input, k: Key)
    requires Settled(x) && k !in Keys(x.after)
    ensures Residual(x, k) == 0
  {
    NoAssetFinancesAnother(x, k);
    NotNamedIsZero(x.after, k);
    DebtsAreBoth(x.liabilities, k);
    assert x.costs[..|x.costs|] == x.costs;
    TotalGrows(x.costs, |x.costs|, k);
    DebtsValid(x.liabilities);
    assert Debts(x.liabilities)[..|x.liabilities|] == Debts(x.liabilities);
    TotalGrows(Debts(x.liabilities), |x.liabilities|, k);
  }

  lemma DebtsValid(ls: seq<Liability>)
    requires AllOwed(ls)
    ensures AllValid(Debts(ls))
  {
    var ds := Debts(ls);
    forall d | d in ds ensures Valid(d) { var i :| 0 <= i < |ds| && ds[i] == d; assert ls[i] in ls; }
  }

  lemma LeveredComplete(x: Input, a: Asset, n: int)
    requires CanLever(x, a, n)
    ensures Complete(Levered(x, a, n))
  {
    var y := Levered(x, a, n);
    LeveredSettled(x, a, n);
    KeysAppend(x.after, Balance(a, Some(n)));
    forall k ensures Residual(y, k) == Residual(x, k) { LeveredTotals(x, a, n, k); }
    forall k | k in Keys(y.after) && Residual(y, k) > 0 ensures k in Keys(x.after) {
      if k !in Keys(x.after) { NothingGained(x, k); }
    }
  }

  lemma LeveredUnits(x: Input, a: Asset, n: int, k: Key)
    requires CanLever(x, a, n) && (k in Keys(x.after) || k in Keys(x.owned))
    ensures Units(Levered(x, a, n))(k) == Units(x)(k)
  {
    var y := Levered(x, a, n);
    LeveredNames(x, a, n);
    KeyOfAsset(x.after, k);
    KeyOfAsset(x.owned, k);
    LastNamed(Named(x), k);
    LastNamed(Named(y), k);
    assert exists b :: b in Named(x) && b.key == k;
    var b :| b in Named(x) && b.key == k && b.decimals == DecimalsOf(Named(x), k);
    assert b in Named(y) && b in Named(x) + [a];
    var c :| c in Named(y) && c.key == k && c.decimals == DecimalsOf(Named(y), k);
    assert c in Named(x) + [a];
  }

  /** Debt proceeds are not equity: borrowing more of an asset and holding the proceeds keeps the portfolio
      accepted, every residual, and the net value. */
  lemma DebtIsNotEquity(x: Input, a: Asset, n: int)
    requires CanLever(x, a, n)
    ensures Complete(Levered(x, a, n)) && NetValue(Levered(x, a, n)) == NetValue(x)
    ensures forall k :: Residual(Levered(x, a, n), k) == Residual(x, k)
  {
    var y := Levered(x, a, n);
    LeveredComplete(x, a, n);
    forall k ensures Residual(y, k) == Residual(x, k) { LeveredTotals(x, a, n, k); }
    KeysAppend(x.after, Balance(a, Some(n)));
    var held, holding := Keys(x.after) + Keys(x.owned), Keys(y.after) + Keys(y.owned);
    var m, m', u, u' := Profits(x), Profits(y), Units(x), Units(y);
    forall k ensures m(k) == m'(k) {}
    forall k | k in held ensures u(k) == u'(k) { LeveredUnits(x, a, n, k); }
    forall k | k in holding && k !in held ensures m'(k) == 0 { NothingGained(x, k); NotNamedIsZero(x.owned, k); }
    SumChanges(held, holding, m, m', u, u');
  }

  lemma SumChanges(ks: set<Key>, more: set<Key>, m: Key -> int, n: Key -> int, u: Key -> real, w: Key -> real)
    requires ks <= more && (forall k :: k in ks ==> m(k) == n(k) && u(k) == w(k))
        && (forall k :: k in more && k !in ks ==> n(k) == 0)
    ensures SumOver(ks, Gain(u, m)) == SumOver(more, Gain(w, n))
  {
    SumEqual(ks, Gain(u, m), Gain(w, n));
    SumExtend(ks, more, Gain(w, n));
  }
}
