/** Sequence operations the two components use through JavaScript's array
    methods: `filter`, and the first-occurrence de-duplication that
    `Array.from(new Set(xs))` performs. */
module Seqs {

  /** `a` can be obtained from `b` by deleting elements: it keeps the
      relative order of the elements it retains. */
  ghost predicate IsSubsequence<T>(a: seq<T>, b: seq<T>)
    decreases |b|
  {
    a == [] ||
    (b != [] && ((a[0] == b[0] && IsSubsequence(a[1..], b[1..])) || IsSubsequence(a, b[1..])))
  }

  /** `Array.prototype.filter`: the elements of `s` that satisfy `p`, in the
      order they have in `s`. */
  function Filter<T>(s: seq<T>, p: T -> bool): (r: seq<T>)
    ensures |r| <= |s|
    ensures IsSubsequence(r, s)
    ensures forall i :: 0 <= i < |r| ==> r[i] in s && p(r[i])
    ensures forall i :: 0 <= i < |s| && p(s[i]) ==> multiset(r)[s[i]] == multiset(s)[s[i]]
    ensures (forall i :: 0 <= i < |s| ==> p(s[i])) <==> r == s
    decreases |s|
  {
    if s == [] then []
    else
      var rest := Filter(s[1..], p);
      var r := if p(s[0]) then [s[0]] + rest else rest;
      FilterStep(s, p, rest, r);
      FilterCountStep(s, p, rest, r);
      r
  }

  /** The step of `Filter` for order and membership: if `rest` is the
      filtered `s[1..]`, then `rest` with `s[0]` put in front when it passes
      is the filtered `s`. */
  lemma FilterStep<T>(s: seq<T>, p: T -> bool, rest: seq<T>, r: seq<T>)
    requires s != []
    requires |rest| <= |s[1..]|
    requires IsSubsequence(rest, s[1..])
    requires forall i :: 0 <= i < |rest| ==> rest[i] in s[1..] && p(rest[i])
    requires (forall i :: 0 <= i < |s[1..]| ==> p(s[1..][i])) <==> rest == s[1..]
    requires r == if p(s[0]) then [s[0]] + rest else rest
    ensures |r| <= |s|
    ensures IsSubsequence(r, s)
    ensures forall i :: 0 <= i < |r| ==> r[i] in s && p(r[i])
    ensures (forall i :: 0 <= i < |s| ==> p(s[i])) <==> r == s
  {
    assert s == [s[0]] + s[1..];
  }

  /** The step of `Filter` that keeps how often each passing element occurs:
      if `rest` keeps the counts of the passing elements of `s[1..]` and holds
      only elements of `s[1..]`, then `r`, which is `rest` with `s[0]` put in
      front when it passes, keeps the counts of the passing elements of `s`. */
  lemma FilterCountStep<T>(s: seq<T>, p: T -> bool, rest: seq<T>, r: seq<T>)
    requires s != []
    requires forall k :: 0 <= k < |rest| ==> rest[k] in s[1..]
    requires forall i :: 0 <= i < |s[1..]| && p(s[1..][i]) ==>
               multiset(rest)[s[1..][i]] == multiset(s[1..])[s[1..][i]]
    requires r == if p(s[0]) then [s[0]] + rest else rest
    ensures forall i :: 0 <= i < |s| && p(s[i]) ==> multiset(r)[s[i]] == multiset(s)[s[i]]
  {
    assert s == [s[0]] + s[1..];
    assert multiset(s) == multiset{s[0]} + multiset(s[1..]);
    assert multiset(r) == (if p(s[0]) then multiset{s[0]} else multiset{}) + multiset(rest);
    forall i | 0 <= i < |s| && p(s[i])
      ensures multiset(r)[s[i]] == multiset(s)[s[i]]
    {
      var x := s[i];
      if x in s[1..] {
        var j :| 0 <= j < |s[1..]| && s[1..][j] == x;
        assert multiset(rest)[x] == multiset(s[1..])[x];
      } else {
        assert i == 0;
        assert x !in rest;
        assert multiset(rest)[x] == 0 == multiset(s[1..])[x];
      }
    }
  }

  /** Filtering a sequence with one more element at the end filters the
      prefix and then considers that element. */
  lemma {:induction false} FilterSnoc<T>(s: seq<T>, x: T, p: T -> bool)
    ensures Filter(s + [x], p) == Filter(s, p) + (if p(x) then [x] else [])
    decreases |s|
  {
    if s == [] {
      assert [x][1..] == [];
    } else {
      assert (s + [x])[1..] == s[1..] + [x];
      FilterSnoc(s[1..], x, p);
    }
  }

  /** Filtering with two tests that agree on every element gives the same
      result. */
  lemma {:induction false} FilterCongruent<T>(s: seq<T>, p: T -> bool, q: T -> bool)
    requires forall i :: 0 <= i < |s| ==> p(s[i]) == q(s[i])
    ensures Filter(s, p) == Filter(s, q)
    decreases |s|
  {
    if s != [] {
      FilterCongruent(s[1..], p, q);
    }
  }

  /** Two sequences that agree, position by position, on whether `p` and `q`
      hold give filtered results of the same length. */
  lemma {:induction false} FilterSameShape<T, U>(s: seq<T>, p: T -> bool, t: seq<U>, q: U -> bool)
    requires |s| == |t|
    requires forall i :: 0 <= i < |s| ==> (p(s[i]) <==> q(t[i]))
    ensures |Filter(s, p)| == |Filter(t, q)|
    decreases |s|
  {
    if s != [] {
      assert p(s[0]) <==> q(t[0]);
      FilterSameShape(s[1..], p, t[1..], q);
    }
  }

  predicate NoDuplicates<T(==)>(s: seq<T>)
  {
    forall i, j :: 0 <= i < j < |s| ==> s[i] != s[j]
  }

  /** The position of the first occurrence of `x` in `s`. */
  function FirstIndex<T(==)>(s: seq<T>, x: T): (k: nat)
    requires x in s
    ensures k < |s| && s[k] == x && x !in s[..k]
  {
    if s[0] == x then 0 else 1 + FirstIndex(s[1..], x)
  }

  /** `Array.from(new Set(s))`: the distinct elements of `s`, each once, in
      the order in which they first occur in `s`. */
  function Distinct<T(==)>(s: seq<T>): (r: seq<T>)
    ensures NoDuplicates(r)
    ensures forall i :: 0 <= i < |r| ==> r[i] in s
    ensures forall i :: 0 <= i < |s| ==> s[i] in r
    ensures |r| <= |s|
    decreases |s|
  {
    if s == [] then []
    else
      var last := s[|s| - 1];
      var r := Distinct(s[..|s| - 1]);
      assert s == s[..|s| - 1] + [last];
      if last in r then r else r + [last]
  }

  /** A first occurrence in a prefix is the first occurrence in the whole. */
  lemma FirstIndexPrefix<T>(s: seq<T>, n: nat, x: T)
    requires n <= |s| && x in s[..n]
    ensures FirstIndex(s, x) == FirstIndex(s[..n], x)
  {
    var k := FirstIndex(s[..n], x);
    var k' := FirstIndex(s, x);
    assert s[..n][..k] == s[..k];
    forall i | 0 <= i < k ensures s[i] != x {
      assert s[..k][i] == s[i];
    }
    forall i | 0 <= i < k' ensures s[i] != x {
      assert s[..k'][i] == s[i];
    }
    assert s[k] == x;
  }

  /** The elements of `Distinct(s)` come in the order of their first
      occurrences in `s`, as a JavaScript `Set` iterates in insertion order. */
  lemma {:induction false} DistinctFirstOccurrenceOrder<T>(s: seq<T>)
    ensures forall i, j :: 0 <= i < j < |Distinct(s)| ==>
              FirstIndex(s, Distinct(s)[i]) < FirstIndex(s, Distinct(s)[j])
    decreases |s|
  {
    if s != [] {
      var n := |s| - 1;
      var pre := s[..n];
      var last := s[n];
      DistinctFirstOccurrenceOrder(pre);
      var r := Distinct(pre);
      var d := Distinct(s);
      forall i, j | 0 <= i < j < |d|
        ensures FirstIndex(s, d[i]) < FirstIndex(s, d[j])
      {
        assert d[i] == r[i];
        FirstIndexPrefix(s, n, d[i]);
        if j < |r| {
          assert d[j] == r[j];
          FirstIndexPrefix(s, n, d[j]);
        } else {
          assert d[j] == last && last !in pre;
          assert FirstIndex(s, last) == n by {
            assert s[..n] == pre;
          }
        }
      }
    }
  }
}
