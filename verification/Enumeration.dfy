/** Sequence machinery shared by the route enumerations: bounded extension, prefixing, permutations and
    combinations, each with an exact characterisation of its members. */
module Enumeration {

  ghost predicate Distinct<T>(s: seq<T>) { forall i, j :: 0 <= i < j < |s| ==> s[i] != s[j] }

  ghost predicate Ascending(s: seq<nat>) { forall i, j :: 0 <= i < j < |s| ==> s[i] < s[j] }

  // ---------------------------------------------------------------- bounded extension

  /** `out` followed by as much of `more` as fits below `maximum`. */
  function Extend<T>(out: seq<T>, more: seq<T>, maximum: nat): seq<T> {
    if |out| + |more| <= maximum then out + more
    else if |out| >= maximum then out
    else out + more[..maximum - |out|]
  }

  /** Extending piece by piece is extending by the whole. */
  lemma ExtendTwice<T>(out: seq<T>, a: seq<T>, b: seq<T>, maximum: nat)
    ensures Extend(Extend(out, a, maximum), b, maximum) == Extend(out, a + b, maximum)
  { }

  lemma ExtendFull<T>(out: seq<T>, a: seq<T>, b: seq<T>, maximum: nat)
    requires |Extend(out, a, maximum)| >= maximum
    ensures Extend(out, a + b, maximum) == Extend(out, a, maximum)
  { }

  lemma ExtendIsPrefix<T>(out: seq<T>, more: seq<T>, maximum: nat)
    requires |out| <= maximum
    ensures Extend(out, more, maximum) <= out + more && |Extend(out, more, maximum)| <= maximum
    ensures |Extend(out, more, maximum)| == maximum || Extend(out, more, maximum) == out + more
  { }

  function PrefixAll<T>(x: T, tails: seq<seq<T>>): (r: seq<seq<T>>)
    ensures |r| == |tails|
  {
    seq(|tails|, i requires 0 <= i < |tails| => [x] + tails[i])
  }

  function PathAll<T>(path: seq<T>, tails: seq<seq<T>>): (r: seq<seq<T>>)
    ensures |r| == |tails|
  {
    seq(|tails|, i requires 0 <= i < |tails| => path + tails[i])
  }

  lemma PathAllNested<T>(path: seq<T>, x: T, tails: seq<seq<T>>)
    ensures PathAll(path, PrefixAll(x, tails)) == PathAll(path + [x], tails)
  {
    forall i | 0 <= i < |tails| ensures PathAll(path, PrefixAll(x, tails))[i] == PathAll(path + [x], tails)[i] {
      assert path + ([x] + tails[i]) == (path + [x]) + tails[i];
    }
  }

  lemma PathAllAppend<T>(path: seq<T>, a: seq<seq<T>>, b: seq<seq<T>>)
    ensures PathAll(path, a + b) == PathAll(path, a) + PathAll(path, b)
  { }

  lemma PathAllEmpty<T>(tails: seq<seq<T>>)
    ensures PathAll([], tails) == tails
  {
    forall i | 0 <= i < |tails| ensures PathAll([], tails)[i] == tails[i] { assert [] + tails[i] == tails[i]; }
  }

  // ---------------------------------------------------------------- permutations

  function Without<T>(s: seq<T>, i: nat): seq<T>
    requires i < |s|
  {
    s[..i] + s[i + 1..]
  }

  /** All sequences of n distinct positions of `values`, heads in order. */
  function Perms(values: seq<nat>, n: nat): seq<seq<nat>>
    decreases n, |values| + 1
  {
    if n == 0 then [[]] else PermsUpTo(values, n, |values|)
  }

  /** Those whose head is among the first k values. */
  function PermsUpTo(values: seq<nat>, n: nat, k: nat): seq<seq<nat>>
    requires n > 0 && k <= |values|
    decreases n, k
  {
    if k == 0 then []
    else PermsUpTo(values, n, k - 1) + PrefixAll(values[k - 1], Perms(Without(values, k - 1), n - 1))
  }

  /** The recursive walk of `permutations`, appending to the captured result. */
  method Walk(path: seq<nat>, remaining: seq<nat>, n: nat, result: seq<seq<nat>>) returns (out: seq<seq<nat>>)
    requires |path| <= n
    ensures out == result + PathAll(path, Perms(remaining, n - |path|))
    decreases n - |path|
  {
    if |path| == n {
      assert PathAll(path, [[]]) == [path] by { assert path + [] == path; }
      return result + [path];
    }
    out := result;
    var m := n - |path|;
    assert PathAll(path, PermsUpTo(remaining, m, 0)) == [];
    for i := 0 to |remaining|
      invariant out == result + PathAll(path, PermsUpTo(remaining, m, i))
    {
      var next := remaining[..i] + remaining[i + 1..];
      out := Walk(path + [remaining[i]], next, n, out);
      PathAllNested(path, remaining[i], Perms(next, m - 1));
      PathAllAppend(path, PermsUpTo(remaining, m, i), PrefixAll(remaining[i], Perms(next, m - 1)));
    }
  }

  method Permutations(values: seq<nat>, n: nat) returns (result: seq<seq<nat>>)
    ensures result == Perms(values, n)
  {
    result := Walk([], values, n, []);
    PathAllEmpty(Perms(values, n));
  }

  ghost predicate IsArrangement(p: seq<nat>, values: seq<nat>, n: nat) {
    |p| == n && Distinct(p) && forall x :: x in p ==> x in values
  }

  lemma PrefixAllMember<T>(x: T, tails: seq<seq<T>>, p: seq<T>)
    ensures p in PrefixAll(x, tails) <==> p != [] && p[0] == x && p[1..] in tails
  {
    var r := PrefixAll(x, tails);
    if p in r {
      var i :| 0 <= i < |r| && r[i] == p;
      assert p == [x] + tails[i] && p[1..] == tails[i];
    }
    if p != [] && p[0] == x && p[1..] in tails {
      var i :| 0 <= i < |tails| && tails[i] == p[1..];
      assert r[i] == [x] + p[1..] == p;
    }
  }

  lemma WithoutMember(values: seq<nat>, i: nat, x: nat)
    requires i < |values| && Distinct(values)
    ensures Distinct(Without(values, i))
    ensures x in Without(values, i) <==> x in values && x != values[i]
  {
    var w := Without(values, i);
    assert forall j :: 0 <= j < |w| ==> w[j] == values[if j < i then j else j + 1];
    if x in values && x != values[i] {
      var j :| 0 <= j < |values| && values[j] == x;
      assert w[if j < i then j else j - 1] == x;
    }
  }

  /** The permutations are exactly the arrangements of n distinct values. */
  lemma {:induction false} PermsExact(values: seq<nat>, n: nat, p: seq<nat>)
    requires Distinct(values)
    ensures p in Perms(values, n) <==> IsArrangement(p, values, n)
    decreases n, |values| + 1
  {
    if n == 0 {
      assert p in [[]] <==> p == [];
    } else {
      PermsUpToExact(values, n, |values|, p);
      if IsArrangement(p, values, n) { assert p[0] in values && values[..|values|] == values; }
    }
  }

  lemma {:induction false} PermsUpToExact(values: seq<nat>, n: nat, k: nat, p: seq<nat>)
    requires n > 0 && k <= |values| && Distinct(values)
    ensures p in PermsUpTo(values, n, k) <==> IsArrangement(p, values, n) && p[0] in values[..k]
    decreases n, k
  {
    if k > 0 {
      var x, rest := values[k - 1], Without(values, k - 1);
      PermsUpToExact(values, n, k - 1, p);
      PrefixAllMember(x, Perms(rest, n - 1), p);
      WithoutMember(values, k - 1, x);
      if p != [] && p[0] == x {
        PermsExact(rest, n - 1, p[1..]);
        ArrangementHead(values, k - 1, n, p);
      }
      assert values[..k] == values[..k - 1] + [x];
    }
  }

  lemma ArrangementHead(values: seq<nat>, i: nat, n: nat, p: seq<nat>)
    requires n > 0 && i < |values| && Distinct(values) && p != [] && p[0] == values[i]
    ensures IsArrangement(p, values, n) <==> IsArrangement(p[1..], Without(values, i), n - 1)
  {
    var rest := Without(values, i);
    forall x ensures x in rest <==> x in values && x != values[i] { WithoutMember(values, i, x); }
    assert p == [p[0]] + p[1..];
    if IsArrangement(p, values, n) {
      forall x | x in p[1..] ensures x in rest {
        var j :| 0 <= j < |p[1..]| && p[1..][j] == x;
        assert p[j + 1] == x && p[0] != p[j + 1];
      }
      forall a, b | 0 <= a < b < |p[1..]| ensures p[1..][a] != p[1..][b] { assert p[a + 1] != p[b + 1]; }
    }
    if IsArrangement(p[1..], rest, n - 1) {
      forall a, b | 0 <= a < b < |p| ensures p[a] != p[b] {
        assert p[b] == p[1..][b - 1] && p[b] in p[1..];
        if a > 0 { assert p[a] == p[1..][a - 1]; }
      }
    }
  }

  ghost predicate LexLess(p: seq<nat>, q: seq<nat>) {
    p != [] && q != [] && (p[0] < q[0] || (p[0] == q[0] && LexLess(p[1..], q[1..])))
  }

  ghost predicate LexAscending(ps: seq<seq<nat>>) { forall i, j :: 0 <= i < j < |ps| ==> LexLess(ps[i], ps[j]) }

  /** Over ascending values the enumeration is strictly lexicographic, so it has no repeats. */
  lemma {:induction false} PermsLexicographic(values: seq<nat>, n: nat)
    requires Ascending(values)
    ensures LexAscending(Perms(values, n))
    decreases n, |values| + 1
  {
    if n > 0 { PermsUpToLexicographic(values, n, |values|); }
  }

  lemma {:induction false} PermsUpToLexicographic(values: seq<nat>, n: nat, k: nat)
    requires n > 0 && k <= |values| && Ascending(values)
    ensures LexAscending(PermsUpTo(values, n, k))
    decreases n, k
  {
    if k > 0 {
      var a := PermsUpTo(values, n, k - 1);
      var x, rest := values[k - 1], Without(values, k - 1);
      var tails := Perms(rest, n - 1);
      var b := PrefixAll(x, tails);
      PermsUpToLexicographic(values, n, k - 1);
      assert Ascending(rest);
      PermsLexicographic(rest, n - 1);
      forall i, j | 0 <= i < j < |a + b| ensures LexLess((a + b)[i], (a + b)[j]) {
        if i >= |a| {
          assert LexLess(tails[i - |a|], tails[j - |a|]);
          assert b[i - |a|][1..] == tails[i - |a|] && b[j - |a|][1..] == tails[j - |a|];
        } else if j >= |a| {
          assert a[i] in a;
          PermsUpToExact(values, n, k - 1, a[i]);
        }
      }
    }
  }

  // ---------------------------------------------------------------- combinations

  /** One element from each choice list, the first varying slowest. */
  function Combos<T>(choices: seq<seq<T>>): seq<seq<T>> {
    if choices == [] then [[]] else Spread(choices[0], Combos(choices[1..]))
  }

  function Spread<T>(heads: seq<T>, tails: seq<seq<T>>): seq<seq<T>> {
    if heads == [] then [] else Spread(heads[..|heads| - 1], tails) + PrefixAll(heads[|heads| - 1], tails)
  }

  ghost predicate IsChoice<T>(c: seq<T>, choices: seq<seq<T>>) {
    |c| == |choices| && forall i :: 0 <= i < |c| ==> c[i] in choices[i]
  }

  lemma {:induction false} SpreadMember<T>(heads: seq<T>, tails: seq<seq<T>>, c: seq<T>)
    ensures c in Spread(heads, tails) <==> c != [] && c[0] in heads && c[1..] in tails
  {
    if heads != [] {
      SpreadMember(heads[..|heads| - 1], tails, c);
      PrefixAllMember(heads[|heads| - 1], tails, c);
      assert heads == heads[..|heads| - 1] + [heads[|heads| - 1]];
    }
  }

  /** The combinations are exactly the ways to pick one element per list. */
  lemma {:induction false} CombosExact<T>(choices: seq<seq<T>>, c: seq<T>)
    ensures c in Combos(choices) <==> IsChoice(c, choices)
  {
    if choices == [] {
      assert c in [[]] <==> c == [];
    } else {
      SpreadMember(choices[0], Combos(choices[1..]), c);
      if c != [] {
        CombosExact(choices[1..], c[1..]);
        assert c == [c[0]] + c[1..] && choices == [choices[0]] + choices[1..];
        if IsChoice(c, choices) {
          forall i | 0 <= i < |c[1..]| ensures c[1..][i] in choices[1..][i] { assert c[i + 1] in choices[i + 1]; }
        }
        if IsChoice(c[1..], choices[1..]) && c[0] in choices[0] {
          forall i | 0 <= i < |c| ensures c[i] in choices[i] {
            if i > 0 { assert c[i] == c[1..][i - 1] && choices[i] == choices[1..][i - 1]; }
          }
        }
      }
    }
  }
}
