// The two collection idioms of the catalogue code: a list comprehension with
// an `if` (a filter that keeps order) and a lookup in an insertion-ordered
// dict, modelled as a sequence of (key, value) entries.

module Collections {

  datatype Option<T> = None | Some(value: T)

  /** `[x for x in xs if p(x)]`: the elements of xs satisfying p. */
  function Filter<T(==,!new)>(xs: seq<T>, p: T -> bool): (r: seq<T>)
    ensures |r| <= |xs|
    ensures forall x :: x in r <==> x in xs && p(x)
  {
    if xs == [] then [] else (if p(xs[0]) then [xs[0]] else []) + Filter(xs[1..], p)
  }

  /** Filtering keeps every accepted value as often as it occurs, and no rejected value. */
  lemma {:induction false} FilterMultiplicity<T(!new)>(xs: seq<T>, p: T -> bool)
    ensures forall x :: multiset(Filter(xs, p))[x] == if p(x) then multiset(xs)[x] else 0
  {
    if xs != [] {
      FilterMultiplicity(xs[1..], p);
      assert xs == [xs[0]] + xs[1..];
    }
  }

  /** Filtering a concatenation filters each part and keeps them in order. */
  lemma {:induction false} FilterAppend<T(!new)>(xs: seq<T>, ys: seq<T>, p: T -> bool)
    ensures Filter(xs + ys, p) == Filter(xs, p) + Filter(ys, p)
  {
    if xs != [] {
      assert (xs + ys)[1..] == xs[1..] + ys;
      FilterAppend(xs[1..], ys, p);
    } else {
      assert xs + ys == ys;
    }
  }

  /** When no element passes, the filter yields nothing. */
  lemma {:induction false} FilterRejectsAll<T(!new)>(xs: seq<T>, p: T -> bool)
    requires forall i :: 0 <= i < |xs| ==> !p(xs[i])
    ensures Filter(xs, p) == []
  {
    if xs != [] {
      FilterRejectsAll(xs[1..], p);
    }
  }

  /** When exactly one element passes, the filter yields just that element. */
  lemma {:induction false} FilterKeepsOne<T(!new)>(xs: seq<T>, p: T -> bool, k: nat)
    requires k < |xs| && p(xs[k])
    requires forall i :: 0 <= i < |xs| && i != k ==> !p(xs[i])
    ensures Filter(xs, p) == [xs[k]]
  {
    if k == 0 {
      FilterRejectsAll(xs[1..], p);
    } else {
      FilterKeepsOne(xs[1..], p, k - 1);
    }
  }

  /** When exactly the first two elements pass, the filter yields just those two. */
  lemma {:induction false} FilterKeepsFirstTwo<T(!new)>(xs: seq<T>, p: T -> bool)
    requires |xs| >= 2 && p(xs[0]) && p(xs[1])
    requires forall i :: 2 <= i < |xs| ==> !p(xs[i])
    ensures Filter(xs, p) == [xs[0], xs[1]]
  {
    FilterRejectsAll(xs[2..], p);
    assert xs[1..][1..] == xs[2..];
  }

  /** xs can be obtained from ys by deleting elements, so it keeps ys's order. */
  predicate IsSubsequence<T(==)>(xs: seq<T>, ys: seq<T>)
    decreases |ys|
  {
    if xs == [] then true
    else if ys == [] then false
    else (xs[0] == ys[0] && IsSubsequence(xs[1..], ys[1..])) || IsSubsequence(xs, ys[1..])
  }

  /** Every sequence is a subsequence of itself. */
  lemma {:induction false} SubsequenceOfItself<T>(xs: seq<T>)
    ensures IsSubsequence(xs, xs)
  {
    if xs != [] {
      SubsequenceOfItself(xs[1..]);
    }
  }

  /** A filter returns its survivors in their original order. */
  lemma {:induction false} FilterIsSubsequence<T(!new)>(xs: seq<T>, p: T -> bool)
    ensures IsSubsequence(Filter(xs, p), xs)
  {
    if xs != [] {
      FilterIsSubsequence(xs[1..], p);
      if !p(xs[0]) {
        assert Filter(xs, p) == Filter(xs[1..], p);
      } else {
        var r := Filter(xs, p);
        assert r[0] == xs[0] && r[1..] == Filter(xs[1..], p);
      }
    }
  }

  /** The keys of a dict, in insertion order. */
  function Keys<V>(entries: seq<(string, V)>): (ks: seq<string>)
    ensures |ks| == |entries|
    ensures forall i :: 0 <= i < |entries| ==> ks[i] == entries[i].0
  {
    if entries == [] then [] else [entries[0].0] + Keys(entries[1..])
  }

  /** A dict never holds one key twice. */
  predicate DistinctKeys<V>(entries: seq<(string, V)>) {
    forall i, j :: 0 <= i < j < |entries| ==> entries[i].0 != entries[j].0
  }

  /** `d.get(key)`: the value stored under key, or None when key is absent. */
  function Lookup<V>(entries: seq<(string, V)>, key: string): (r: Option<V>)
    ensures r.None? <==> key !in Keys(entries)
    ensures r.Some? ==> (key, r.value) in entries
  {
    if entries == [] then None
    else if entries[0].0 == key then Some(entries[0].1)
    else Lookup(entries[1..], key)
  }

  /** With distinct keys, the lookup of the i-th key yields the i-th value. */
  lemma {:induction false} LookupAt<V>(entries: seq<(string, V)>, i: nat)
    requires DistinctKeys(entries)
    requires i < |entries|
    ensures Lookup(entries, entries[i].0) == Some(entries[i].1)
  {
    if i > 0 {
      assert entries[0].0 != entries[i].0;
      assert entries[1..][i - 1] == entries[i];
      LookupAt(entries[1..], i - 1);
    }
  }
}
