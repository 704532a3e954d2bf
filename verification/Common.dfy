/** Small building blocks shared by the models: an option type, first positions
    in a sequence, and sums over sequences. */
module Common {

  datatype Option<+T> = None | Some(value: T)

  function Max(x: int, y: int): int {
    if x < y then y else x
  }

  function Min(x: int, y: int): int {
    if x < y then x else y
  }

  /** `max(0, x)`. */
  function Max0(x: int): (r: nat)
    ensures r >= x
  {
    if x < 0 then 0 else x
  }

  /** Position of the first element that satisfies `p`, or the length. */
  function FirstIndex<T>(s: seq<T>, p: T -> bool): (i: nat)
    ensures i <= |s|
  {
    if |s| == 0 then 0 else if p(s[0]) then 0 else 1 + FirstIndex(s[1..], p)
  }

  lemma {:induction false} FirstIndexIsFirst<T>(s: seq<T>, p: T -> bool)
    ensures FirstIndex(s, p) < |s| ==> p(s[FirstIndex(s, p)])
    ensures forall j :: 0 <= j < FirstIndex(s, p) ==> !p(s[j])
  {
    if |s| > 0 && !p(s[0]) {
      FirstIndexIsFirst(s[1..], p);
      assert forall j :: 1 <= j < |s| ==> s[j] == s[1..][j - 1];
    }
  }

  /** The sequence without the element at position `i`. */
  function RemoveAt<T>(s: seq<T>, i: nat): (r: seq<T>)
    requires i < |s|
    ensures |r| == |s| - 1
    ensures forall j :: 0 <= j < i ==> r[j] == s[j]
    ensures forall j :: i <= j < |r| ==> r[j] == s[j + 1]
  {
    s[..i] + s[i + 1..]
  }

  lemma RemoveAtMembers<T>(s: seq<T>, i: nat)
    requires i < |s|
    ensures forall x :: x in RemoveAt(s, i) ==> x in s
    ensures forall j :: 0 <= j < |s| && j != i ==> s[j] in RemoveAt(s, i)
  {
    var r := RemoveAt(s, i);
    forall j | 0 <= j < |s| && j != i
      ensures s[j] in r
    {
      assert s[j] == r[if j < i then j else j - 1];
    }
  }
}

/** Sums of a natural-number measure over a sequence. */
module Sums {
  import opened Common

  function SumBy<T>(s: seq<T>, f: T -> nat): nat {
    if |s| == 0 then 0 else SumBy(s[..|s| - 1], f) + f(s[|s| - 1])
  }

  lemma {:induction false} SumAppend<T>(s: seq<T>, x: T, f: T -> nat)
    ensures SumBy(s + [x], f) == SumBy(s, f) + f(x)
  {
    assert (s + [x])[..|s|] == s;
  }

  lemma {:induction false} SumConcat<T>(s: seq<T>, t: seq<T>, f: T -> nat)
    ensures SumBy(s + t, f) == SumBy(s, f) + SumBy(t, f)
  {
    if |t| == 0 {
      assert s + t == s;
    } else {
      var t' := t[..|t| - 1];
      assert s + t == (s + t') + [t[|t| - 1]];
      SumAppend(s + t', t[|t| - 1], f);
      SumConcat(s, t', f);
    }
  }

  lemma {:induction false} SumSplit<T>(s: seq<T>, i: nat, f: T -> nat)
    requires i < |s|
    ensures SumBy(s, f) == SumBy(s[..i], f) + f(s[i]) + SumBy(s[i + 1..], f)
  {
    assert s == s[..i] + [s[i]] + s[i + 1..];
    SumConcat(s[..i] + [s[i]], s[i + 1..], f);
    SumAppend(s[..i], s[i], f);
  }

  lemma SumUpdate<T>(s: seq<T>, i: nat, x: T, f: T -> nat)
    requires i < |s|
    ensures SumBy(s[i := x], f) == SumBy(s, f) - f(s[i]) + f(x)
  {
    SumSplit(s, i, f);
    SumSplit(s[i := x], i, f);
    assert s[i := x][..i] == s[..i] && s[i := x][i + 1..] == s[i + 1..];
  }

  lemma SumRemove<T>(s: seq<T>, i: nat, f: T -> nat)
    requires i < |s|
    ensures SumBy(RemoveAt(s, i), f) == SumBy(s, f) - f(s[i])
  {
    SumSplit(s, i, f);
    SumConcat(s[..i], s[i + 1..], f);
  }

  lemma {:induction false} SumFrame<T>(s: seq<T>, f: T -> nat, g: T -> nat)
    requires forall x :: x in s ==> f(x) == g(x)
    ensures SumBy(s, f) == SumBy(s, g)
  {
    if |s| > 0 {
      SumFrame(s[..|s| - 1], f, g);
    }
  }

  lemma {:induction false} SumSplitsInto<T>(s: seq<T>, f: T -> nat, g: T -> nat, h: T -> nat)
    requires forall x :: x in s ==> f(x) == g(x) + h(x)
    ensures SumBy(s, f) == SumBy(s, g) + SumBy(s, h)
  {
    if |s| > 0 {
      SumSplitsInto(s[..|s| - 1], f, g, h);
    }
  }
}
