/** Sums of a weight over a sequence: how many callers, pages or objects are in some state. */
module Tally {

  function Bit(b: bool): int { if b then 1 else 0 }

  function Sum<T>(w: T -> int, s: seq<T>): int {
    if s == [] then 0 else Sum(w, s[..|s| - 1]) + w(s[|s| - 1])
  }

  ghost predicate Natural<T(!new)>(w: T -> int) {
    forall x :: 0 <= w(x)
  }

  lemma {:induction false} SumUpdate<T>(w: T -> int, s: seq<T>, i: nat, x: T)
    requires i < |s|
    ensures Sum(w, s[i := x]) == Sum(w, s) - w(s[i]) + w(x)
  {
    var n := |s| - 1;
    if i == n {
      assert s[i := x][..n] == s[..n];
    } else {
      assert s[i := x][..n] == s[..n][i := x];
      SumUpdate(w, s[..n], i, x);
    }
  }

  lemma SumAppend<T>(w: T -> int, s: seq<T>, x: T)
    ensures Sum(w, s + [x]) == Sum(w, s) + w(x)
  {
    assert (s + [x])[..|s|] == s;
  }

  lemma {:induction false} SumNatural<T(!new)>(w: T -> int, s: seq<T>)
    requires Natural(w)
    ensures 0 <= Sum(w, s)
  {
    if s != [] {
      SumNatural(w, s[..|s| - 1]);
    }
  }

  lemma {:induction false} SumAtLeast<T(!new)>(w: T -> int, s: seq<T>, i: nat)
    requires Natural(w) && i < |s|
    ensures w(s[i]) <= Sum(w, s)
  {
    var n := |s| - 1;
    SumNatural(w, s[..n]);
    if i < n {
      SumAtLeast(w, s[..n], i);
    }
  }

  /** Two elements account for at least their joint weight. */
  lemma {:induction false} SumOfTwo<T(!new)>(w: T -> int, s: seq<T>, i: nat, j: nat)
    requires Natural(w) && i < j < |s|
    ensures w(s[i]) + w(s[j]) <= Sum(w, s)
  {
    var n := |s| - 1;
    if j == n {
      SumAtLeast(w, s[..n], i);
    } else {
      SumOfTwo(w, s[..n], i, j);
    }
  }

  /** A positive sum has an element with positive weight. */
  lemma {:induction false} SumWitness<T>(w: T -> int, s: seq<T>) returns (i: nat)
    requires Sum(w, s) > 0
    ensures i < |s| && w(s[i]) > 0
  {
    i := |s| - 1;
    if w(s[i]) <= 0 {
      i := SumWitness(w, s[..i]);
    }
  }

  lemma {:induction false} SumZero<T>(w: T -> int, s: seq<T>)
    requires forall i :: 0 <= i < |s| ==> w(s[i]) == 0
    ensures Sum(w, s) == 0
  {
    if s != [] {
      SumZero(w, s[..|s| - 1]);
    }
  }

  lemma {:induction false} SumBounded<T>(w: T -> int, s: seq<T>, max: nat)
    requires forall i :: 0 <= i < |s| ==> w(s[i]) <= max
    ensures Sum(w, s) <= max * |s|
  {
    if s != [] {
      SumBounded(w, s[..|s| - 1], max);
    }
  }

  /** A weight that is smaller everywhere has the smaller sum. */
  lemma {:induction false} SumMonotone<T>(v: T -> int, w: T -> int, s: seq<T>)
    requires forall i :: 0 <= i < |s| ==> v(s[i]) <= w(s[i])
    ensures Sum(v, s) <= Sum(w, s)
  {
    if s != [] {
      SumMonotone(v, w, s[..|s| - 1]);
    }
  }
}
