/** Sums over sequences: seat counts, money totals and per-process ledgers are all sums. */
module Sums {
  function Min(a: int, b: int): int { if a <= b then a else b }

  function Sum<T>(s: seq<T>, f: T -> int): int {
    if s == [] then 0 else f(s[0]) + Sum(s[1..], f)
  }

  lemma {:induction false} SumAppend<T>(s: seq<T>, t: seq<T>, f: T -> int)
    ensures Sum(s + t, f) == Sum(s, f) + Sum(t, f)
  {
    if s == [] {
      assert s + t == t;
    } else {
      assert (s + t)[0] == s[0] && (s + t)[1..] == s[1..] + t;
      SumAppend(s[1..], t, f);
    }
  }

  lemma {:induction false} SumUpdate<T>(s: seq<T>, i: nat, x: T, f: T -> int)
    requires i < |s|
    ensures Sum(s[i := x], f) == Sum(s, f) - f(s[i]) + f(x)
  {
    if i == 0 {
      assert s[i := x][1..] == s[1..];
    } else {
      assert s[i := x][0] == s[0] && s[i := x][1..] == s[1..][i - 1 := x];
      SumUpdate(s[1..], i - 1, x, f);
    }
  }

  /** Two sums whose terms agree position by position, up to a third sum of what was moved. */
  lemma {:induction false} SumBalance<S, T>(s: seq<S>, f: S -> int, t: seq<T>, g: T -> int, moved: S -> int)
    requires |s| == |t|
    requires forall i :: 0 <= i < |s| ==> f(s[i]) == g(t[i]) + moved(s[i])
    ensures Sum(s, f) == Sum(t, g) + Sum(s, moved)
  {
    if s != [] {
      assert forall i :: 0 <= i < |s[1..]| ==> s[1..][i] == s[i + 1] && t[1..][i] == t[i + 1];
      SumBalance(s[1..], f, t[1..], g, moved);
    }
  }

  lemma {:induction false} SumEqual<S, T>(s: seq<S>, f: S -> int, t: seq<T>, g: T -> int)
    requires |s| == |t|
    requires forall i :: 0 <= i < |s| ==> f(s[i]) == g(t[i])
    ensures Sum(s, f) == Sum(t, g)
  {
    if s != [] {
      assert forall i :: 0 <= i < |s[1..]| ==> s[1..][i] == s[i + 1] && t[1..][i] == t[i + 1];
      SumEqual(s[1..], f, t[1..], g);
    }
  }

  lemma {:induction false} SumZero<T>(s: seq<T>, f: T -> int)
    requires forall x :: x in s ==> f(x) == 0
    ensures Sum(s, f) == 0
  {
    if s != [] {
      SumZero(s[1..], f);
    }
  }

  /** A sum of non-negative terms is at least any one of them. */
  lemma {:induction false} SumAtLeast<T>(s: seq<T>, f: T -> int, i: nat)
    requires forall x :: x in s ==> f(x) >= 0
    ensures Sum(s, f) >= 0
    ensures i < |s| ==> Sum(s, f) >= f(s[i])
  {
    if s != [] {
      assert forall x :: x in s[1..] ==> x in s;
      if i > 0 {
        assert i < |s| ==> s[1..][i - 1] == s[i];
        SumAtLeast(s[1..], f, i - 1);
      } else {
        SumAtLeast(s[1..], f, 0);
      }
    }
  }

  /** A positive sum of non-negative terms has a positive term. */
  lemma {:induction false} SumPositive<T>(s: seq<T>, f: T -> int) returns (i: nat)
    requires Sum(s, f) > 0
    ensures i < |s| && f(s[i]) > 0
  {
    if f(s[0]) > 0 {
      i := 0;
    } else {
      var k := SumPositive(s[1..], f);
      i := k + 1;
    }
  }

  /** Indicator sums above one come from two positions. */
  lemma {:induction false} SumTwo<T>(s: seq<T>, f: T -> int) returns (i: nat, j: nat)
    requires forall x :: x in s ==> 0 <= f(x) <= 1
    requires Sum(s, f) > 1
    ensures i < j < |s| && f(s[i]) == 1 && f(s[j]) == 1
  {
    assert s != [];
    assert forall x :: x in s[1..] ==> x in s;
    if f(s[0]) == 1 {
      var k := SumPositive(s[1..], f);
      assert s[1..][k] in s[1..];
      i, j := 0, k + 1;
    } else {
      var a, b := SumTwo(s[1..], f);
      i, j := a + 1, b + 1;
    }
  }

  /** Two positions of an indicator sum make it more than one. */
  lemma {:induction false} SumPair<T>(s: seq<T>, f: T -> int, i: nat, j: nat)
    requires i < j < |s| && f(s[i]) == 1 && f(s[j]) == 1
    requires forall x :: x in s ==> f(x) >= 0
    ensures Sum(s, f) > 1
  {
    assert forall x :: x in s[1..] ==> x in s;
    if i == 0 {
      assert s[1..][j - 1] == s[j];
      SumAtLeast(s[1..], f, j - 1);
    } else {
      assert s[1..][i - 1] == s[i] && s[1..][j - 1] == s[j];
      SumPair(s[1..], f, i - 1, j - 1);
    }
  }
}
