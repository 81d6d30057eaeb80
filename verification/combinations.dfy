/** k-combinations of index ranges, in the order `itertools.combinations(range(n), k)` yields
    them: lexicographic order of the (strictly increasing) index tuples. The reconstruction
    uses this enumerator twice, for 4-subsets of a chamber's hits and for 3- or 4-subsets of
    the doubled position list. */
module Combinatorics {

  /** A strictly increasing `k`-tuple of indices drawn from `lo..n-1`. */
  predicate IsCombination(c: seq<nat>, lo: nat, n: nat, k: nat) {
    && |c| == k
    && (forall i :: 0 <= i < |c| ==> lo <= c[i] < n)
    && (forall i, j :: 0 <= i < j < |c| ==> c[i] < c[j])
  }

  function Prepend(x: nat, cs: seq<seq<nat>>): (r: seq<seq<nat>>)
    ensures |r| == |cs|
    ensures forall i :: 0 <= i < |cs| ==> r[i] == [x] + cs[i]
  {
    seq(|cs|, i requires 0 <= i < |cs| => [x] + cs[i])
  }

  /** The `k`-combinations of `lo..n-1`: first those that start with `lo`, then the rest. */
  function CombinationsFrom(lo: nat, n: nat, k: nat): seq<seq<nat>>
    decreases n - lo
  {
    if k == 0 then [[]]
    else if lo >= n then []
    else Prepend(lo, CombinationsFrom(lo + 1, n, k - 1)) + CombinationsFrom(lo + 1, n, k)
  }

  /** `list(combinations(range(n), k))`. */
  function Combinations(n: nat, k: nat): seq<seq<nat>> {
    CombinationsFrom(0, n, k)
  }

  /** Strict lexicographic order on index tuples. */
  predicate LexLess(a: seq<nat>, b: seq<nat>) {
    exists p :: 0 <= p < |a| && p < |b| && a[..p] == b[..p] && a[p] < b[p]
  }

  /** Every enumerated tuple is a strictly increasing `k`-tuple within `lo..n-1`. */
  lemma {:induction false} CombinationsFromSound(lo: nat, n: nat, k: nat)
    ensures forall c :: c in CombinationsFrom(lo, n, k) ==> IsCombination(c, lo, n, k)
    decreases n - lo
  {
    if k > 0 && lo < n {
      CombinationsFromSound(lo + 1, n, k - 1);
      CombinationsFromSound(lo + 1, n, k);
      var first := CombinationsFrom(lo + 1, n, k - 1);
      var rest := CombinationsFrom(lo + 1, n, k);
      forall c | c in CombinationsFrom(lo, n, k)
        ensures IsCombination(c, lo, n, k)
      {
        if c in Prepend(lo, first) {
          var i :| 0 <= i < |first| && c == [lo] + first[i];
          assert IsCombination(first[i], lo + 1, n, k - 1);
        } else {
          assert c in rest;
        }
      }
    }
  }

  /** Every strictly increasing `k`-tuple within `lo..n-1` is enumerated. */
  lemma {:induction false} CombinationsFromComplete(c: seq<nat>, lo: nat, n: nat, k: nat)
    requires IsCombination(c, lo, n, k)
    ensures c in CombinationsFrom(lo, n, k)
    decreases n - lo
  {
    if k == 0 {
      assert c == [];
    } else {
      assert lo <= c[0] < n;
      if c[0] == lo {
        var t := c[1..];
        assert IsCombination(t, lo + 1, n, k - 1) by {
          forall i | 0 <= i < |t| ensures lo + 1 <= t[i] {
            assert c[0] < c[i + 1];
          }
        }
        CombinationsFromComplete(t, lo + 1, n, k - 1);
        var first := CombinationsFrom(lo + 1, n, k - 1);
        var i :| 0 <= i < |first| && first[i] == t;
        assert c == [lo] + t;
        assert Prepend(lo, first)[i] == c;
      } else {
        assert IsCombination(c, lo + 1, n, k) by {
          forall i | 0 <= i < |c| ensures lo + 1 <= c[i] {
            if i > 0 { assert c[0] < c[i]; }
          }
        }
        CombinationsFromComplete(c, lo + 1, n, k);
      }
    }
  }

  lemma LexLessPrepend(x: nat, a: seq<nat>, b: seq<nat>)
    requires LexLess(a, b)
    ensures LexLess([x] + a, [x] + b)
  {
    var p :| 0 <= p < |a| && p < |b| && a[..p] == b[..p] && a[p] < b[p];
    assert ([x] + a)[..p + 1] == [x] + a[..p];
    assert ([x] + b)[..p + 1] == [x] + b[..p];
  }

  /** The enumeration is strictly increasing in lexicographic order: earlier means smaller,
      and no tuple is listed twice. */
  lemma {:induction false} CombinationsFromOrdered(lo: nat, n: nat, k: nat)
    ensures forall i, j :: 0 <= i < j < |CombinationsFrom(lo, n, k)| ==>
      LexLess(CombinationsFrom(lo, n, k)[i], CombinationsFrom(lo, n, k)[j])
    decreases n - lo
  {
    if k > 0 && lo < n {
      var first := CombinationsFrom(lo + 1, n, k - 1);
      var rest := CombinationsFrom(lo + 1, n, k);
      var pre := Prepend(lo, first);
      var all := CombinationsFrom(lo, n, k);
      assert all == pre + rest;
      CombinationsFromOrdered(lo + 1, n, k - 1);
      CombinationsFromOrdered(lo + 1, n, k);
      CombinationsFromSound(lo + 1, n, k);
      forall i, j | 0 <= i < j < |all|
        ensures LexLess(all[i], all[j])
      {
        if j < |pre| {
          LexLessPrepend(lo, first[i], first[j]);
        } else if i >= |pre| {
          assert all[i] == rest[i - |pre|] && all[j] == rest[j - |pre|];
        } else {
          assert all[j] == rest[j - |pre|];
          assert rest[j - |pre|] in rest;
          assert all[i][..0] == all[j][..0];
        }
      }
    }
  }

  function Binomial(n: nat, k: nat): nat {
    if k == 0 then 1
    else if n == 0 then 0
    else Binomial(n - 1, k - 1) + Binomial(n - 1, k)
  }

  /** The enumeration lists exactly C(n - lo, k) tuples. */
  lemma {:induction false} CombinationsFromCount(lo: nat, n: nat, k: nat)
    ensures |CombinationsFrom(lo, n, k)| == Binomial(if lo <= n then n - lo else 0, k)
    decreases n - lo
  {
    if k > 0 && lo < n {
      CombinationsFromCount(lo + 1, n, k - 1);
      CombinationsFromCount(lo + 1, n, k);
    }
  }

  /** The shape of every enumerated tuple: `k` indices, each below `n`. */
  lemma CombinationsShape(n: nat, k: nat)
    ensures forall j :: 0 <= j < |Combinations(n, k)| ==> |Combinations(n, k)[j]| == k
    ensures forall j, i :: 0 <= j < |Combinations(n, k)| && 0 <= i < |Combinations(n, k)[j]| ==>
      Combinations(n, k)[j][i] < n
  {
    CombinationsFromSound(0, n, k);
    forall j | 0 <= j < |Combinations(n, k)|
      ensures IsCombination(Combinations(n, k)[j], 0, n, k)
    {
      assert Combinations(n, k)[j] in Combinations(n, k);
    }
  }

  /** Everything the reconstruction relies on about `Combinations(n, k)`, in one place. */
  lemma CombinationsFacts(n: nat, k: nat)
    ensures forall c :: c in Combinations(n, k) <==> IsCombination(c, 0, n, k)
    ensures forall j :: 0 <= j < |Combinations(n, k)| ==> IsCombination(Combinations(n, k)[j], 0, n, k)
    ensures forall i, j :: 0 <= i < j < |Combinations(n, k)| ==>
      LexLess(Combinations(n, k)[i], Combinations(n, k)[j])
    ensures |Combinations(n, k)| == Binomial(n, k)
  {
    CombinationsFromSound(0, n, k);
    forall c | IsCombination(c, 0, n, k) ensures c in Combinations(n, k) {
      CombinationsFromComplete(c, 0, n, k);
    }
    CombinationsFromOrdered(0, n, k);
    CombinationsFromCount(0, n, k);
  }
}
