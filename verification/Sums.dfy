/** Sums over sequences of integers, defined from the back so that a loop scanning
    forward can use them as they stand. */
module Sums {

  function Sum(s: seq<int>): int {
    if s == [] then 0 else Sum(s[..|s| - 1]) + s[|s| - 1]
  }

  lemma {:induction false} SumUpdate(s: seq<int>, i: nat, x: int)
    requires i < |s|
    ensures Sum(s[i := x]) == Sum(s) - s[i] + x
  {
    var n := |s| - 1;
    if i == n {
      assert s[i := x][..n] == s[..n];
    } else {
      assert s[i := x][..n] == s[..n][i := x];
      SumUpdate(s[..n], i, x);
    }
  }

  lemma {:induction false} SumConcat(a: seq<int>, b: seq<int>)
    ensures Sum(a + b) == Sum(a) + Sum(b)
  {
    if b == [] {
      assert a + b == a;
    } else {
      assert (a + b)[..|a + b| - 1] == a + b[..|b| - 1];
      SumConcat(a, b[..|b| - 1]);
    }
  }

  /** Dropping entry i by moving the last entry onto it. */
  lemma {:induction false} SumSwapOut(s: seq<int>, i: nat)
    requires i < |s|
    ensures Sum(s[i := s[|s| - 1]][..|s| - 1]) == Sum(s) - s[i]
  {
    var n := |s| - 1;
    if i == n {
      assert s[i := s[n]][..n] == s[..n];
    } else {
      assert s[i := s[n]][..n] == s[..n][i := s[n]];
      SumUpdate(s[..n], i, s[n]);
    }
  }

  lemma {:induction false} SumAtMost(s: seq<int>, t: seq<int>)
    requires |s| == |t| && forall i | 0 <= i < |s| :: s[i] <= t[i]
    ensures Sum(s) <= Sum(t)
  {
    if s != [] { SumAtMost(s[..|s| - 1], t[..|t| - 1]); }
  }

  lemma {:induction false} SumZero(s: seq<int>)
    requires forall i | 0 <= i < |s| :: s[i] == 0
    ensures Sum(s) == 0
  {
    if s != [] { SumZero(s[..|s| - 1]); }
  }

  /** A sum of non-negative terms is at least each of them. */
  lemma SumAtLeast(s: seq<int>, i: nat)
    requires i < |s| && forall j | 0 <= j < |s| :: 0 <= s[j]
    ensures s[i] <= Sum(s)
  {
    SumUpdate(s, i, 0);
    SumAtMost(seq(|s|, _ => 0), s[i := 0]);
    SumZero(seq(|s|, _ => 0));
  }
}
