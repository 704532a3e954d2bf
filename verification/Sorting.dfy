/** Stable sorting by an integer key, as `list.sort` and `sorted` do it. */
module Sorting {
  import opened Common

  /** `x` goes behind every element whose key is not larger. */
  function Insert<T>(s: seq<T>, x: T, key: T -> int): (r: seq<T>)
    ensures |r| == |s| + 1
  {
    if |s| == 0 || key(s[|s| - 1]) <= key(x) then s + [x]
    else Insert(s[..|s| - 1], x, key) + [s[|s| - 1]]
  }

  function StableSort<T>(s: seq<T>, key: T -> int): (r: seq<T>)
    ensures |r| == |s|
  {
    if |s| == 0 then [] else Insert(StableSort(s[..|s| - 1], key), s[|s| - 1], key)
  }

  predicate SortedBy<T>(s: seq<T>, key: T -> int) {
    forall i, j :: 0 <= i < j < |s| ==> key(s[i]) <= key(s[j])
  }

  lemma {:induction false} InsertMembers<T>(s: seq<T>, x: T, key: T -> int)
    ensures forall y :: y in Insert(s, x, key) <==> y == x || y in s
  {
    if |s| > 0 && key(s[|s| - 1]) > key(x) {
      InsertMembers(s[..|s| - 1], x, key);
      assert s == s[..|s| - 1] + [s[|s| - 1]];
    }
  }

  lemma {:induction false} SortMembers<T>(s: seq<T>, key: T -> int)
    ensures forall y :: y in StableSort(s, key) <==> y in s
  {
    if |s| > 0 {
      SortMembers(s[..|s| - 1], key);
      InsertMembers(StableSort(s[..|s| - 1], key), s[|s| - 1], key);
      assert s == s[..|s| - 1] + [s[|s| - 1]];
    }
  }

  lemma {:induction false} InsertBelow<T>(s: seq<T>, x: T, key: T -> int, bound: int, i: nat)
    requires (forall j :: 0 <= j < |s| ==> key(s[j]) <= bound) && key(x) <= bound && i <= |s|
    ensures key(Insert(s, x, key)[i]) <= bound
  {
    if |s| > 0 && key(s[|s| - 1]) > key(x) && i < |s| {
      InsertBelow(s[..|s| - 1], x, key, bound, i);
    }
  }

  lemma {:induction false} InsertSorted<T>(s: seq<T>, x: T, key: T -> int)
    requires SortedBy(s, key)
    ensures SortedBy(Insert(s, x, key), key)
  {
    if |s| > 0 && key(s[|s| - 1]) > key(x) {
      var rest, last := s[..|s| - 1], s[|s| - 1];
      InsertSorted(rest, x, key);
      forall i | 0 <= i <= |rest|
        ensures key(Insert(rest, x, key)[i]) <= key(last)
      {
        InsertBelow(rest, x, key, key(last), i);
      }
    }
  }

  lemma {:induction false} SortSorted<T>(s: seq<T>, key: T -> int)
    ensures SortedBy(StableSort(s, key), key)
  {
    if |s| > 0 {
      SortSorted(s[..|s| - 1], key);
      InsertSorted(StableSort(s[..|s| - 1], key), s[|s| - 1], key);
    }
  }

  lemma {:induction false} InsertMultiset<T>(s: seq<T>, x: T, key: T -> int)
    ensures multiset(Insert(s, x, key)) == multiset(s) + multiset{x}
  {
    if |s| > 0 && key(s[|s| - 1]) > key(x) {
      InsertMultiset(s[..|s| - 1], x, key);
      assert s == s[..|s| - 1] + [s[|s| - 1]];
    }
  }

  lemma {:induction false} SortMultiset<T>(s: seq<T>, key: T -> int)
    ensures multiset(StableSort(s, key)) == multiset(s)
  {
    if |s| > 0 {
      SortMultiset(s[..|s| - 1], key);
      InsertMultiset(StableSort(s[..|s| - 1], key), s[|s| - 1], key);
      assert s == s[..|s| - 1] + [s[|s| - 1]];
    }
  }
}
