/** Order-preserving filtering (what `retain` does to a vector) and finite sums. */
module Seqs {

  function Filter<T>(s: seq<T>, keep: T -> bool): (r: seq<T>)
    ensures |r| <= |s|
  {
    if s == [] then []
    else
      var rest := Filter(s[..|s| - 1], keep);
      if keep(s[|s| - 1]) then rest + [s[|s| - 1]] else rest
  }

  lemma FilterSnoc<T>(s: seq<T>, x: T, keep: T -> bool)
    ensures Filter(s + [x], keep) == if keep(x) then Filter(s, keep) + [x] else Filter(s, keep)
  {
    assert (s + [x])[..|s|] == s;
  }

  lemma {:induction false} FilterIn<T>(s: seq<T>, keep: T -> bool, x: T)
    ensures x in Filter(s, keep) <==> x in s && keep(x)
  {
    if s != [] {
      FilterIn(s[..|s| - 1], keep, x);
      assert s == s[..|s| - 1] + [s[|s| - 1]];
    }
  }

  lemma {:induction false} FilterAll<T>(s: seq<T>, keep: T -> bool)
    requires forall x :: x in s ==> keep(x)
    ensures Filter(s, keep) == s
  {
    if s != [] {
      FilterAll(s[..|s| - 1], keep);
      assert s == s[..|s| - 1] + [s[|s| - 1]];
    }
  }

  lemma {:induction false} FilterCongruent<T>(s: seq<T>, keep: T -> bool, other: T -> bool)
    requires forall x :: x in s ==> keep(x) == other(x)
    ensures Filter(s, keep) == Filter(s, other)
  {
    if s != [] {
      FilterCongruent(s[..|s| - 1], keep, other);
      assert s[|s| - 1] in s;
    }
  }

  /** A filter that loses no element keeps each. */
  lemma {:induction false} FilterFull<T>(s: seq<T>, keep: T -> bool)
    requires |Filter(s, keep)| == |s|
    ensures forall x :: x in s ==> keep(x)
  {
    if s != [] {
      FilterFull(s[..|s| - 1], keep);
      assert s == s[..|s| - 1] + [s[|s| - 1]];
    }
  }

  /** Filters that agree on what `first` keeps may be swapped past it. */
  lemma {:induction false} FilterSwap<T>(s: seq<T>, first: T -> bool, second: T -> bool, other: T -> bool)
    requires forall x :: x in s && first(x) ==> second(x) == other(x)
    ensures Filter(Filter(s, second), first) == Filter(Filter(s, first), other)
  {
    if s != [] {
      var init, x := s[..|s| - 1], s[|s| - 1];
      FilterSwap(init, first, second, other);
      FilterSnoc(Filter(init, second), x, first);
      FilterSnoc(Filter(init, first), x, other);
    }
  }

  /** If `keep` rejects exactly position i and `other` accepts it, one element is lost. */
  lemma {:induction false} FilterDropsOne<T>(s: seq<T>, i: nat, keep: T -> bool, other: T -> bool)
    requires i < |s| && !keep(s[i]) && other(s[i])
    requires forall j :: 0 <= j < |s| && j != i ==> keep(s[j])
    ensures |Filter(Filter(s, keep), other)| == |Filter(s, other)| - 1
  {
    var init, x := s[..|s| - 1], s[|s| - 1];
    if i == |s| - 1 {
      FilterAll(init, keep);
    } else {
      FilterDropsOne(init, i, keep, other);
      FilterSnoc(Filter(init, keep), x, other);
    }
  }

  lemma {:induction false} FilterRemovesAt<T>(s: seq<T>, i: nat, keep: T -> bool)
    requires i < |s| && !keep(s[i])
    requires forall j :: 0 <= j < |s| && j != i ==> keep(s[j])
    ensures Filter(s, keep) == s[..i] + s[i + 1..]
  {
    var init, x := s[..|s| - 1], s[|s| - 1];
    if i == |s| - 1 {
      FilterAll(init, keep);
    } else {
      FilterRemovesAt(init, i, keep);
      assert s[i + 1..] == init[i + 1..] + [x];
    }
  }

  // ---------- sums over finite sets ----------

  ghost function Sum<K(!new)>(keys: set<K>, f: K -> nat): nat {
    if keys == {} then 0
    else
      var k :| k in keys;
      f(k) + Sum(keys - {k}, f)
  }

  /** The sum does not depend on the order in which keys are taken. */
  lemma {:induction false} SumSplit<K(!new)>(keys: set<K>, f: K -> nat, k: K)
    requires k in keys
    ensures Sum(keys, f) == f(k) + Sum(keys - {k}, f)
  {
    var c :| c in keys && Sum(keys, f) == f(c) + Sum(keys - {c}, f);
    if c != k {
      SumSplit(keys - {c}, f, k);
      SumSplit(keys - {k}, f, c);
      assert keys - {c} - {k} == keys - {k} - {c};
    }
  }

  lemma {:induction false} SumCongruent<K(!new)>(keys: set<K>, f: K -> nat, g: K -> nat)
    requires forall k :: k in keys ==> f(k) == g(k)
    ensures Sum(keys, f) == Sum(keys, g)
  {
    if keys != {} {
      var k :| k in keys;
      SumSplit(keys, f, k);
      SumSplit(keys, g, k);
      SumCongruent(keys - {k}, f, g);
    }
  }

  lemma {:induction false} SumZero<K(!new)>(keys: set<K>, f: K -> nat)
    requires forall k :: k in keys ==> f(k) == 0
    ensures Sum(keys, f) == 0
  {
    if keys != {} {
      var k :| k in keys;
      SumSplit(keys, f, k);
      SumZero(keys - {k}, f);
    }
  }

  lemma SumBump<K(!new)>(keys: set<K>, f: K -> nat, g: K -> nat, at: K)
    requires at in keys && g(at) == f(at) + 1
    requires forall k :: k in keys && k != at ==> g(k) == f(k)
    ensures Sum(keys, g) == Sum(keys, f) + 1
  {
    SumSplit(keys, f, at);
    SumSplit(keys, g, at);
    SumCongruent(keys - {at}, f, g);
  }
}
