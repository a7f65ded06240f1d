/** Small value-level helpers shared by the backend and front-end models. */
module Util {

  datatype Option<+T> = None | Some(value: T)

  /** No value occurs twice in `s`. */
  predicate NoDuplicates<T(==)>(s: seq<T>) {
    forall i, j :: 0 <= i < j < |s| ==> s[i] != s[j]
  }

  /**
   * The elements of `s` without repetitions, each kept where it first
   * occurs (the order a `SELECT DISTINCT` scan over a table yields in this model).
   */
  function Distinct<T(==)>(s: seq<T>): (r: seq<T>)
    ensures NoDuplicates(r)
    ensures forall i :: 0 <= i < |s| ==> s[i] in r
    ensures forall i :: 0 <= i < |r| ==> r[i] in s
  {
    if |s| == 0 then []
    else
      var front := s[..|s| - 1];
      assert s == front + [s[|s| - 1]];
      var d := Distinct(front);
      if s[|s| - 1] in d then d else d + [s[|s| - 1]]
  }

  /** The keys of `s` never decrease from left to right. */
  predicate SortedBy<T>(s: seq<T>, key: T -> int) {
    forall i, j :: 0 <= i < j < |s| ==> key(s[i]) <= key(s[j])
  }

  /** Puts `x` in front of the first element of `s` whose key is not smaller. */
  function Insert<T(==)>(x: T, s: seq<T>, key: T -> int): (r: seq<T>)
    requires SortedBy(s, key)
    ensures SortedBy(r, key)
    ensures multiset(r) == multiset(s) + multiset{x}
    ensures |r| == |s| + 1
    ensures r[0] == if |s| == 0 || key(x) <= key(s[0]) then x else s[0]
  {
    if |s| == 0 then [x]
    else if key(x) <= key(s[0]) then [x] + s
    else
      var rest := Insert(x, s[1..], key);
      assert s == [s[0]] + s[1..];
      [s[0]] + rest
  }

  /**
   * Sort by an integer key, in ascending key order: the result is ordered by
   * the key and holds the input's elements. The insertion below keeps equal
   * keys in input order; the contract leaves the order of ties open, as SQL
   * `ORDER BY` does.
   */
  function SortBy<T(==)>(s: seq<T>, key: T -> int): (r: seq<T>)
    ensures SortedBy(r, key)
    ensures multiset(r) == multiset(s)
    ensures |r| == |s|
  {
    if |s| == 0 then []
    else
      assert s == [s[0]] + s[1..];
      Insert(s[0], SortBy(s[1..], key), key)
  }

  /** A permutation of a sequence without repetitions has none either. */
  lemma {:induction false} PermutationKeepsNoDuplicates<T>(s: seq<T>, r: seq<T>)
    requires NoDuplicates(s)
    requires multiset(r) == multiset(s)
    ensures NoDuplicates(r)
  {
    forall i, j | 0 <= i < j < |r|
      ensures r[i] != r[j]
    {
      if r[i] == r[j] {
        TwiceCountsTwice(r, i, j);
        OnceCountsOnce(s, r[i]);
      }
    }
  }

  lemma TwiceCountsTwice<T>(s: seq<T>, i: nat, j: nat)
    requires i < j < |s| && s[i] == s[j]
    ensures multiset(s)[s[i]] >= 2
  {
    assert s == s[..i] + [s[i]] + s[i + 1..j] + [s[j]] + s[j + 1..];
  }

  lemma {:induction false} OnceCountsOnce<T>(s: seq<T>, x: T)
    requires NoDuplicates(s)
    ensures multiset(s)[x] <= 1
  {
    if |s| > 0 {
      assert s == [s[0]] + s[1..];
      OnceCountsOnce(s[1..], x);
      if s[0] == x {
        assert x !in s[1..];
      }
    }
  }

  function Sum(s: seq<int>): int {
    if |s| == 0 then 0 else s[0] + Sum(s[1..])
  }

  /** The smallest value of a non-empty sequence. */
  function Min(s: seq<int>): (m: int)
    requires |s| > 0
    ensures m in s
    ensures forall v :: v in s ==> m <= v
  {
    if |s| == 1 then s[0]
    else
      var m := Min(s[1..]);
      assert s == [s[0]] + s[1..];
      if s[0] <= m then s[0] else m
  }

  /** The largest value of a non-empty sequence. */
  function Max(s: seq<int>): (m: int)
    requires |s| > 0
    ensures m in s
    ensures forall v :: v in s ==> v <= m
  {
    if |s| == 1 then s[0]
    else
      var m := Max(s[1..]);
      assert s == [s[0]] + s[1..];
      if m <= s[0] then s[0] else m
  }
}
