/** Adding up a weight over the threads of a program: how many hold a semaphore,
    how many steps they still have before them. */
module Counting {

  function Sum<T>(s: seq<T>, weight: T -> int): int {
    if s == [] then 0 else weight(s[0]) + Sum(s[1..], weight)
  }

  /** When one thread moves, the sum changes by the difference of its weights. */
  lemma {:induction false} SumUpdate<T>(s: seq<T>, i: nat, v: T, weight: T -> int)
    requires i < |s|
    ensures Sum(s[i := v], weight) == Sum(s, weight) - weight(s[i]) + weight(v)
  {
    if i == 0 {
      assert s[0 := v][1..] == s[1..];
    } else {
      assert s[i := v][1..] == s[1..][i - 1 := v];
      SumUpdate(s[1..], i - 1, v, weight);
    }
  }

  lemma {:induction false} SumNonNegative<T(!new)>(s: seq<T>, weight: T -> int)
    requires forall x :: weight(x) >= 0
    ensures Sum(s, weight) >= 0
  {
    if s != [] {
      SumNonNegative(s[1..], weight);
    }
  }

  lemma {:induction false} SumAtLeast<T(!new)>(s: seq<T>, i: nat, weight: T -> int)
    requires i < |s| && forall x :: weight(x) >= 0
    ensures Sum(s, weight) >= weight(s[i])
  {
    SumNonNegative(s[1..], weight);
    if i > 0 {
      SumAtLeast(s[1..], i - 1, weight);
    }
  }

  lemma {:induction false} SumAtLeastTwo<T(!new)>(s: seq<T>, i: nat, j: nat, weight: T -> int)
    requires i < j < |s| && forall x :: weight(x) >= 0
    ensures Sum(s, weight) >= weight(s[i]) + weight(s[j])
  {
    if i == 0 {
      SumAtLeast(s[1..], j - 1, weight);
    } else {
      SumAtLeastTwo(s[1..], i - 1, j - 1, weight);
    }
  }

  lemma {:induction false} SumAtMost<T(!new)>(s: seq<T>, weight: T -> int, most: nat)
    requires forall x :: weight(x) <= most
    ensures Sum(s, weight) <= most * |s|
  {
    if s != [] {
      SumAtMost(s[1..], weight, most);
      assert most * |s| == most + most * |s[1..]|;
    }
  }

  /** A positive sum has a thread of positive weight. */
  lemma {:induction false} SumWitness<T>(s: seq<T>, weight: T -> int) returns (i: nat)
    requires Sum(s, weight) > 0
    ensures i < |s| && weight(s[i]) > 0
  {
    if weight(s[0]) > 0 {
      i := 0;
    } else {
      i := SumWitness(s[1..], weight);
      i := i + 1;
    }
  }

  /** If no thread has positive weight, the sum is not positive. */
  lemma {:induction false} SumZero<T>(s: seq<T>, weight: T -> int)
    requires forall i :: 0 <= i < |s| ==> weight(s[i]) == 0
    ensures Sum(s, weight) == 0
  {
    if s != [] {
      assert forall i :: 0 <= i < |s[1..]| ==> s[1..][i] == s[i + 1];
      SumZero(s[1..], weight);
    }
  }

  /** A new thread adds its own weight. */
  lemma {:induction false} SumAppend<T>(s: seq<T>, x: T, weight: T -> int)
    ensures Sum(s + [x], weight) == Sum(s, weight) + weight(x)
  {
    if s == [] {
      assert (s + [x])[1..] == [];
    } else {
      assert (s + [x])[1..] == s[1..] + [x];
      SumAppend(s[1..], x, weight);
    }
  }
}
