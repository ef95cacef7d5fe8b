/** Sums over sequences, for counting threads, leases and queue entries in the step systems. */
module Counting {

  function Sum<T>(s: seq<T>, f: T -> int): int {
    if s == [] then 0 else Sum(s[..|s| - 1], f) + f(s[|s| - 1])
  }

  lemma {:induction false} SumUpdate<T>(s: seq<T>, i: nat, x: T, f: T -> int)
    requires i < |s|
    ensures Sum(s[i := x], f) == Sum(s, f) - f(s[i]) + f(x)
  {
    var front := s[..|s| - 1];
    if i == |s| - 1 {
      assert s[i := x][..|s| - 1] == front;
    } else {
      SumUpdate(front, i, x, f);
      assert s[i := x][..|s| - 1] == front[i := x];
    }
  }

  lemma SumAppend<T>(s: seq<T>, x: T, f: T -> int)
    ensures Sum(s + [x], f) == Sum(s, f) + f(x)
  {
    assert (s + [x])[..|s|] == s;
  }

  /** A sum of non-negative terms is at least each term. */
  lemma {:induction false} SumBounds<T>(s: seq<T>, f: T -> int)
    requires forall x | x in s :: f(x) >= 0
    ensures Sum(s, f) >= 0
    ensures forall i | 0 <= i < |s| :: f(s[i]) <= Sum(s, f)
  {
    if s != [] {
      var front := s[..|s| - 1];
      SumBounds(front, f);
      forall i | 0 <= i < |s| ensures f(s[i]) <= Sum(s, f) {
        assert s[|s| - 1] in s;
        if i < |s| - 1 {
          assert front[i] == s[i];
        }
      }
    }
  }

  /** And a positive sum of such terms has a positive term. */
  lemma {:induction false} SumWitness<T>(s: seq<T>, f: T -> int) returns (i: nat)
    requires Sum(s, f) > 0
    ensures i < |s| && f(s[i]) > 0
  {
    if f(s[|s| - 1]) > 0 {
      i := |s| - 1;
    } else {
      i := SumWitness(s[..|s| - 1], f);
    }
  }

  /** Two different indices contribute separately. */
  lemma {:induction false} SumOfTwo<T>(s: seq<T>, i: nat, j: nat, f: T -> int)
    requires forall x | x in s :: f(x) >= 0
    requires i < j < |s|
    ensures f(s[i]) + f(s[j]) <= Sum(s, f)
  {
    var front := s[..|s| - 1];
    SumBounds(front, f);
    if j == |s| - 1 {
      assert front[i] == s[i];
    } else {
      assert s[|s| - 1] in s;
      SumOfTwo(front, i, j, f);
    }
  }

  lemma {:induction false} NoneSum<T>(s: seq<T>, f: T -> int)
    requires forall x | x in s :: f(x) == 0
    ensures Sum(s, f) == 0
  {
    if s != [] {
      assert s[|s| - 1] in s;
      NoneSum(s[..|s| - 1], f);
    }
  }

  lemma {:induction false} SumHead<T>(s: seq<T>, f: T -> int)
    requires s != []
    ensures Sum(s, f) == f(s[0]) + Sum(s[1..], f)
  {
    if |s| > 1 {
      SumHead(s[..|s| - 1], f);
      assert s[..|s| - 1][1..] == s[1..][..|s| - 2];
    }
  }
}
