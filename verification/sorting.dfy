/**
  Sorting a list of trial snapshots. The list is ordered by `number` alone;
  like Python's `list.sort`, the sort is stable, so snapshots that
  share a number keep their relative order.
*/
module Sorting {
  import opened Trials
  import opened Comparison

  /** Every snapshot is `<=` each one after it. */
  predicate SortedByNumber(s: seq<FrozenTrial>) {
    forall i, j :: 0 <= i < j < |s| ==> LessEq(s[i], s[j])
  }

  /** The snapshots of `s` whose number is `n`, in their order in `s`. */
  function WithNumber(s: seq<FrozenTrial>, n: nat): seq<FrozenTrial> {
    if s == [] then []
    else (if s[0].number == n then [s[0]] else []) + WithNumber(s[1..], n)
  }

  /** `r` lists, for every number, the snapshots carrying it in the same order
      as `s` does. */
  ghost predicate SameOrderPerNumber(r: seq<FrozenTrial>, s: seq<FrozenTrial>) {
    forall n :: WithNumber(r, n) == WithNumber(s, n)
  }

  /** Insert `x` in front of the first snapshot that is not `< x`. */
  function Insert(x: FrozenTrial, s: seq<FrozenTrial>): (r: seq<FrozenTrial>)
    requires SortedByNumber(s)
    ensures SortedByNumber(r)
    ensures multiset(r) == multiset(s) + multiset{x}
    ensures |r| == |s| + 1 && (r[0] == x || (s != [] && r[0] == s[0]))
  {
    if s == [] then [x]
    else if LessEq(x, s[0]) then [x] + s
    else
      var rest := Insert(x, s[1..]);
      assert s == [s[0]] + s[1..];
      [s[0]] + rest
  }

  /** Stable insertion sort by `number`. */
  function Sort(s: seq<FrozenTrial>): (r: seq<FrozenTrial>)
    ensures SortedByNumber(r)
    ensures multiset(r) == multiset(s)
  {
    if s == [] then []
    else
      assert s == [s[0]] + s[1..];
      Insert(s[0], Sort(s[1..]))
  }

  /** `WithNumber` keeps exactly the snapshots of `s` numbered `n`. */
  lemma {:induction false} WithNumberMembers(s: seq<FrozenTrial>, n: nat)
    ensures forall y :: y in WithNumber(s, n) <==> y in s && y.number == n
  {
    if s != [] {
      WithNumberMembers(s[1..], n);
      assert s == [s[0]] + s[1..];
    }
  }

  /** Inserting `x` adds it in front of the snapshots already numbered like it
      and leaves every other number's subsequence alone. */
  lemma {:induction false} InsertWithNumber(x: FrozenTrial, s: seq<FrozenTrial>, n: nat)
    requires SortedByNumber(s)
    ensures WithNumber(Insert(x, s), n) == (if x.number == n then [x] else []) + WithNumber(s, n)
  {
    if s == [] {
    } else if LessEq(x, s[0]) {
      assert ([x] + s)[1..] == s;
    } else {
      var rest := Insert(x, s[1..]);
      InsertWithNumber(x, s[1..], n);
      assert ([s[0]] + rest)[1..] == rest;
    }
  }

  /** Sorting is stable: for every number, the snapshots carrying it appear in
      the result in the same order as in the input. */
  lemma {:induction false} SortStable(s: seq<FrozenTrial>, n: nat)
    ensures WithNumber(Sort(s), n) == WithNumber(s, n)
  {
    if s != [] {
      SortStable(s[1..], n);
      InsertWithNumber(s[0], Sort(s[1..]), n);
    }
  }

  /** Two sorted lists that agree, number by number, on the order of their
      snapshots are the same list. */
  lemma {:induction false} SortedUnique(a: seq<FrozenTrial>, b: seq<FrozenTrial>)
    requires SortedByNumber(a) && SortedByNumber(b)
    requires SameOrderPerNumber(a, b)
    ensures a == b
    decreases |a|
  {
    if a == [] {
      if b != [] {
        WithNumberMembers(b, b[0].number);
        assert false;
      }
    } else if b == [] {
      WithNumberMembers(a, a[0].number);
      assert false;
    } else {
      var m := a[0].number;
      WithNumberMembers(a, m);
      WithNumberMembers(b, m);
      WithNumberMembers(a, b[0].number);
      WithNumberMembers(b, b[0].number);
      assert a[0] in WithNumber(b, m);
      assert b[0] in WithNumber(a, b[0].number);
      assert b[0].number == m;
      assert WithNumber(a, m) == WithNumber(b, m);
      assert WithNumber(a, m) == [a[0]] + WithNumber(a[1..], m);
      assert WithNumber(b, m) == [b[0]] + WithNumber(b[1..], m);
      assert WithNumber(a, m)[0] == a[0];
      assert WithNumber(b, m)[0] == b[0];
      forall n
        ensures WithNumber(a[1..], n) == WithNumber(b[1..], n)
      {
        assert WithNumber(a, n) == WithNumber(b, n);
        assert WithNumber(a, n) == (if n == m then [a[0]] else []) + WithNumber(a[1..], n);
        assert WithNumber(b, n) == (if n == m then [b[0]] else []) + WithNumber(b[1..], n);
        if n == m {
          assert WithNumber(a, n)[1..] == WithNumber(a[1..], n);
          assert WithNumber(b, n)[1..] == WithNumber(b[1..], n);
        } else {
          assert WithNumber(a, n) == WithNumber(a[1..], n);
          assert WithNumber(b, n) == WithNumber(b[1..], n);
        }
      }
      assert SameOrderPerNumber(a[1..], b[1..]);
      SortedUnique(a[1..], b[1..]);
      assert a == [a[0]] + a[1..];
      assert b == [b[0]] + b[1..];
    }
  }

  /** `Sort(s)` is the one list that is sorted by number and keeps, for every
      number, the input's order of the snapshots carrying it. */
  lemma {:induction false} SortCharacterised(s: seq<FrozenTrial>, r: seq<FrozenTrial>)
    ensures r == Sort(s) <==> SortedByNumber(r) && SameOrderPerNumber(r, s)
  {
    var sorted := Sort(s);
    forall n ensures WithNumber(sorted, n) == WithNumber(s, n) {
      SortStable(s, n);
    }
    assert SameOrderPerNumber(sorted, s);
    if SortedByNumber(r) && SameOrderPerNumber(r, s) {
      assert SameOrderPerNumber(r, sorted);
      SortedUnique(r, sorted);
    }
  }

  /** The test's sorting scenario: `[other, trial]` with `trial < other` sorts
      to `[trial, other]`; snapshots with equal numbers keep their order. */
  lemma SortPair(a: FrozenTrial, b: FrozenTrial)
    ensures Less(a, b) ==> Sort([b, a]) == [a, b]
    ensures a.number == b.number ==> Sort([b, a]) == [b, a]
  {
  }
}
