/**
 * `sorted(...)` on a list of strings. Python's sort is a library routine;
 * it is modelled by insertion sort, and `SortedUnique` shows that any
 * algorithm returning a sorted permutation returns this same list.
 */
module Sorting {
  import opened PyStr

  /** Every element is `<=` every later one, in Python's string order. */
  predicate IsSorted(s: seq<string>) {
    forall i, j :: 0 <= i < j < |s| ==> Below(s[i], s[j])
  }

  /** Puts `x` into the sorted list `s` before the first element above it. */
  function Insert(x: string, s: seq<string>): (r: seq<string>)
    requires IsSorted(s)
    ensures IsSorted(r)
    ensures multiset(r) == multiset(s) + multiset{x}
  {
    if s == [] then [x]
    else if Below(x, s[0]) then
      forall j | 0 <= j < |s| ensures Below(x, s[j]) {
        if j > 0 { BelowTransitive(x, s[0], s[j]); }
      }
      assert s == [s[0]] + s[1..];
      [x] + s
    else
      var t := Insert(x, s[1..]);
      forall k | 0 <= k < |t| ensures Below(s[0], t[k]) {
        assert t[k] in multiset(t);
        if t[k] == x {
          BelowTotal(x, s[0]);
        } else {
          assert t[k] in multiset(s[1..]);
          var j :| 0 <= j < |s[1..]| && s[1..][j] == t[k];
          assert s[1 + j] == t[k];
        }
      }
      assert s == [s[0]] + s[1..];
      [s[0]] + t
  }

  /** `sorted(s)`: the names in ascending order, duplicates kept. */
  function SortNames(s: seq<string>): (r: seq<string>)
    ensures IsSorted(r)
    ensures multiset(r) == multiset(s)
  {
    if s == [] then []
    else
      assert s == s[..|s| - 1] + [s[|s| - 1]];
      Insert(s[|s| - 1], SortNames(s[..|s| - 1]))
  }

  /** The first element of a sorted list is at or below every element of it. */
  lemma SortedHeadIsLeast(s: seq<string>, x: string)
    requires IsSorted(s) && x in multiset(s)
    ensures Below(s[0], x)
  {
    var j :| 0 <= j < |s| && s[j] == x;
    if j == 0 { BelowReflexive(x); }
  }

  /** The last element of a sorted list is at or above every element of it. */
  lemma SortedLastIsGreatest(s: seq<string>, x: string)
    requires IsSorted(s) && x in multiset(s)
    ensures Below(x, s[|s| - 1])
  {
    var j :| 0 <= j < |s| && s[j] == x;
    if j == |s| - 1 { BelowReflexive(x); }
  }

  lemma TailMultiset(s: seq<string>)
    requires s != []
    ensures multiset(s[1..]) == multiset(s) - multiset{s[0]}
  {
    assert s == [s[0]] + s[1..];
  }

  /**
   * A multiset of strings has exactly one sorted arrangement; so `sorted`
   * depends only on which names occur how often, not on their input order.
   */
  lemma {:induction false} SortedUnique(a: seq<string>, b: seq<string>)
    requires IsSorted(a) && IsSorted(b)
    requires multiset(a) == multiset(b)
    ensures a == b
    decreases |a|
  {
    if a != [] {
      assert a[0] in multiset(a) && b[0] in multiset(b);
      SortedHeadIsLeast(b, a[0]);
      SortedHeadIsLeast(a, b[0]);
      BelowAntisymmetric(a[0], b[0]);
      TailMultiset(a);
      TailMultiset(b);
      SortedUnique(a[1..], b[1..]);
    }
  }
}
