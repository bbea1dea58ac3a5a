/** Small facts about sequences used as Java lists. */
module Seqs {

  /** A list with no repeated element. */
  predicate NoDup<T(==)>(s: seq<T>)
  {
    forall i, j :: 0 <= i < j < |s| ==> s[i] != s[j]
  }

  /** `s` lists every element of `keys` exactly once: one possible iteration
      order of a hash map or hash set whose key set is `keys`. */
  ghost predicate IsEnumeration<T(!new)>(s: seq<T>, keys: set<T>)
  {
    NoDup(s) && forall x :: x in s <==> x in keys
  }

  /** Number of occurrences of `x` in `s`. */
  function Count<T(==)>(x: T, s: seq<T>): nat
  {
    if s == [] then 0 else (if s[0] == x then 1 else 0) + Count(x, s[1..])
  }

  lemma {:induction false} CountAbsent<T>(x: T, s: seq<T>)
    ensures Count(x, s) == 0 <==> x !in s
  {
    if s != [] {
      CountAbsent(x, s[1..]);
    }
  }

  lemma {:induction false} NoDupAppend<T>(s: seq<T>, x: T)
    requires NoDup(s) && x !in s
    ensures NoDup(s + [x])
  {
  }
}
