/** Sequence vocabulary for tables modelled as sequences of rows: fancy indexing, the set of
    distinct values of a column, boolean-mask filtering, "last matching entry" lookup and
    concatenation of several tables. */
module Seqs {
  import opened Wrappers

  /** Every index in `idx` addresses an element of a sequence of length `n`. */
  predicate InRange(idx: seq<nat>, n: nat) {
    forall k :: 0 <= k < |idx| ==> idx[k] < n
  }

  /** `s[idx]`: the elements of `s` at the positions listed in `idx`, in that order. */
  function Select<T>(s: seq<T>, idx: seq<nat>): (r: seq<T>)
    requires InRange(idx, |s|)
    ensures |r| == |idx|
    ensures forall k :: 0 <= k < |idx| ==> r[k] == s[idx[k]]
  {
    seq(|idx|, k requires 0 <= k < |idx| => s[idx[k]])
  }

  /** The distinct values of `s` (what `unique()` returns, as a set). */
  function ValueSet<T>(s: seq<T>): set<T> {
    set x | x in s
  }

  predicate NoDuplicates<T(==)>(s: seq<T>) {
    forall i, j :: 0 <= i < j < |s| ==> s[i] != s[j]
  }

  /** Counting distinct values: `len(unique(s)) == len(s)` exactly when no value repeats. */
  lemma {:induction false} DistinctCount<T>(s: seq<T>)
    ensures |ValueSet(s)| <= |s|
    ensures |ValueSet(s)| == |s| <==> NoDuplicates(s)
  {
    if s != [] {
      var t := s[1..];
      DistinctCount(t);
      assert ValueSet(s) == {s[0]} + ValueSet(t) by {
        assert s == [s[0]] + t;
      }
      if s[0] in ValueSet(t) {
        assert ValueSet(s) == ValueSet(t);
        var j :| 0 <= j < |t| && t[j] == s[0];
        assert s[0] == s[j + 1];
      } else {
        assert |ValueSet(s)| == |ValueSet(t)| + 1;
        if NoDuplicates(t) {
          forall i, j | 0 <= i < j < |s|
            ensures s[i] != s[j]
          {
            assert s[j] == t[j - 1];
            if i == 0 {
              assert t[j - 1] in ValueSet(t);
            } else {
              assert s[i] == t[i - 1];
            }
          }
        }
        if NoDuplicates(s) {
          forall i, j | 0 <= i < j < |t|
            ensures t[i] != t[j]
          {
            assert t[i] == s[i + 1] && t[j] == s[j + 1];
          }
        }
      }
    }
  }

  /** `s[mask]` for the mask `p`: the elements satisfying `p`, in their original order. */
  function Filter<T>(s: seq<T>, p: T -> bool): (r: seq<T>)
    ensures |r| <= |s|
    ensures forall k :: 0 <= k < |r| ==> r[k] in s && p(r[k])
  {
    if s == [] then []
    else
      var init, last := s[..|s| - 1], s[|s| - 1];
      assert s == init + [last];
      Filter(init, p) + (if p(last) then [last] else [])
  }

  /** The mask drops no element that satisfies it. */
  lemma {:induction false} FilterComplete<T>(s: seq<T>, p: T -> bool)
    ensures forall k :: 0 <= k < |s| && p(s[k]) ==> s[k] in Filter(s, p)
  {
    if s != [] {
      var init, last := s[..|s| - 1], s[|s| - 1];
      FilterComplete(init, p);
      assert forall k :: 0 <= k < |init| ==> s[k] == init[k];
    }
  }

  /** Filtering commutes with concatenation, so a filter keeps the relative order of rows. */
  lemma {:induction false} FilterConcat<T>(a: seq<T>, b: seq<T>, p: T -> bool)
    ensures Filter(a + b, p) == Filter(a, p) + Filter(b, p)
  {
    if b == [] {
      assert a + b == a;
    } else {
      var init, last := b[..|b| - 1], b[|b| - 1];
      FilterConcat(a, init, p);
      assert (a + b)[..|a + b| - 1] == a + init;
    }
  }

  /** Applying the same mask twice keeps the same rows as applying it once. */
  lemma {:induction false} FilterIdempotent<T>(s: seq<T>, p: T -> bool)
    ensures Filter(Filter(s, p), p) == Filter(s, p)
  {
    if s != [] {
      var init, last := s[..|s| - 1], s[|s| - 1];
      var tail := if p(last) then [last] else [];
      FilterIdempotent(init, p);
      FilterConcat(Filter(init, p), tail, p);
      if p(last) {
        assert Filter(tail, p) == Filter([], p) + [last];
      }
    }
  }

  /** Two masks applied one after the other keep the rows satisfying both (`pq` is their
      conjunction). */
  lemma {:induction false} FilterFilter<T>(s: seq<T>, p: T -> bool, q: T -> bool, pq: T -> bool)
    requires forall x :: pq(x) == (p(x) && q(x))
    ensures Filter(Filter(s, p), q) == Filter(s, pq)
  {
    if s != [] {
      var init, last := s[..|s| - 1], s[|s| - 1];
      var tail := if p(last) then [last] else [];
      FilterFilter(init, p, q, pq);
      FilterConcat(Filter(init, p), tail, q);
      if p(last) {
        assert Filter(tail, q) == Filter([], q) + (if q(last) then [last] else []);
      }
    }
  }

  /** Index of the last element of `es` satisfying `p`: when entries are applied in order and
      each overwrites what the previous ones wrote, this is the one that stays. */
  function LastMatch<E>(es: seq<E>, p: E -> bool): (r: Option<nat>)
    ensures r.Some? ==> r.value < |es| && p(es[r.value])
    ensures r.Some? ==> forall j :: r.value < j < |es| ==> !p(es[j])
    ensures r.None? <==> forall j :: 0 <= j < |es| ==> !p(es[j])
  {
    if es == [] then None
    else if p(es[|es| - 1]) then Some(|es| - 1)
    else LastMatch(es[..|es| - 1], p)
  }

  /** Concatenation of several tables (`pd.concat` along rows). */
  function Flatten<T>(ss: seq<seq<T>>): (r: seq<T>)
    ensures forall k :: 0 <= k < |r| ==> exists i :: 0 <= i < |ss| && r[k] in ss[i]
  {
    if ss == [] then []
    else Flatten(ss[..|ss| - 1]) + ss[|ss| - 1]
  }

  /** Concatenation keeps every row of every table. */
  lemma {:induction false} FlattenComplete<T>(ss: seq<seq<T>>)
    ensures forall i, j :: 0 <= i < |ss| && 0 <= j < |ss[i]| ==> ss[i][j] in Flatten(ss)
  {
    if ss != [] {
      var init := ss[..|ss| - 1];
      FlattenComplete(init);
      assert forall i :: 0 <= i < |init| ==> ss[i] == init[i];
    }
  }

  /** Concatenating one more table appends its rows. */
  lemma FlattenSnoc<T>(ss: seq<seq<T>>, i: nat)
    requires i < |ss|
    ensures Flatten(ss[..i + 1]) == Flatten(ss[..i]) + ss[i]
  {
    assert ss[..i + 1][..i] == ss[..i];
  }

  /** Strictly ascending positions: where the entries of a subsequence sit in the whole. */
  predicate Increasing(pos: seq<nat>) {
    forall i, j :: 0 <= i < j < |pos| ==> pos[i] < pos[j]
  }
}
