/** Weighted totals over sequences, used by the step systems to state conservation laws. */
module Sums {

  ghost function Sum<T>(w: T -> nat, s: seq<T>): nat {
    if s == [] then 0 else w(s[0]) + Sum(w, s[1..])
  }

  lemma {:induction false} SumConcat<T>(w: T -> nat, a: seq<T>, b: seq<T>)
    ensures Sum(w, a + b) == Sum(w, a) + Sum(w, b)
  {
    if a == [] {
      assert a + b == b;
    } else {
      assert (a + b)[1..] == a[1..] + b;
      SumConcat(w, a[1..], b);
    }
  }

  lemma SumPush<T>(w: T -> nat, s: seq<T>, x: T)
    ensures Sum(w, s + [x]) == Sum(w, s) + w(x)
  {
    SumConcat(w, s, [x]);
    assert Sum(w, [x]) == w(x) + Sum(w, []);
  }

  lemma {:induction false} SumUpdate<T>(w: T -> nat, s: seq<T>, i: nat, x: T)
    requires i < |s|
    ensures w(s[i]) <= Sum(w, s)
    ensures Sum(w, s[i := x]) == Sum(w, s) - w(s[i]) + w(x)
  {
    if i == 0 {
      assert s[0 := x][1..] == s[1..];
    } else {
      assert s[i := x][1..] == s[1..][i - 1 := x];
      SumUpdate(w, s[1..], i - 1, x);
    }
  }

  lemma {:induction false} SumPositive<T>(w: T -> nat, s: seq<T>) returns (i: nat)
    requires Sum(w, s) > 0
    ensures i < |s| && w(s[i]) > 0
  {
    if w(s[0]) > 0 {
      i := 0;
    } else {
      var k := SumPositive(w, s[1..]);
      i := k + 1;
    }
  }

  lemma {:induction false} SumZero<T>(w: T -> nat, s: seq<T>)
    requires forall i :: 0 <= i < |s| ==> w(s[i]) == 0
    ensures Sum(w, s) == 0
  {
    if s != [] {
      SumZero(w, s[1..]);
    }
  }

  lemma {:induction false} SumEqual<T>(w: T -> nat, v: T -> nat, s: seq<T>)
    requires forall i :: 0 <= i < |s| ==> w(s[i]) == v(s[i])
    ensures Sum(w, s) == Sum(v, s)
  {
    if s != [] {
      SumEqual(w, v, s[1..]);
    }
  }

  // w, n times.
  ghost function Repeat(n: nat, w: nat): nat {
    if n == 0 then 0 else w + Repeat(n - 1, w)
  }

  lemma {:induction false} RepeatIsProduct(n: nat, w: nat)
    ensures Repeat(n, w) == n * w
  {
    if n > 0 {
      RepeatIsProduct(n - 1, w);
    }
  }

  lemma {:induction false} SumConstant<T>(w: T -> nat, s: seq<T>, c: nat)
    requires forall i :: 0 <= i < |s| ==> w(s[i]) == c
    ensures Sum(w, s) == Repeat(|s|, c)
  {
    if s != [] {
      SumConstant(w, s[1..], c);
    }
  }
}
