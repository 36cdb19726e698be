/**
 Combining the matches of a custom detector's regular expressions: productIndices, permutateMatches
 and the channel its results go through. No product overflows.
 */
module MatchProducts {

  const MAX_TOTAL_MATCHES := 100

  function Product(ls: seq<nat>): nat {
    if ls == [] then 1 else ls[0] * Product(ls[1..])
  }

  // One index for each length.
  predicate InRange(t: seq<nat>, ls: seq<nat>) { |t| == |ls| && forall k :: 0 <= k < |ls| ==> t[k] < ls[k] }

  function Quotient(i: nat, a: nat): nat
    requires a > 0
  {
    i / a
  }

  function Remainder(i: nat, a: nat): nat
    requires a > 0
  {
    i % a
  }

  predicate Positive(ls: seq<nat>) { forall k :: 0 <= k < |ls| ==> ls[k] > 0 }

  // The i-th tuple, the first index running fastest.
  function Digits(i: nat, ls: seq<nat>): seq<nat>
    requires Positive(ls)
    decreases |ls|
  {
    if ls == [] then [] else [Remainder(i, ls[0])] + Digits(Quotient(i, ls[0]), ls[1..])
  }

  // The place of a tuple.
  function Place(t: seq<nat>, ls: seq<nat>): nat
    requires |t| == |ls|
  {
    if ls == [] then 0 else t[0] + ls[0] * Place(t[1..], ls[1..])
  }

  // ---------------------------------------------------------------- arithmetic

  lemma Split(i: nat, a: nat)
    requires a > 0
    ensures Remainder(i, a) < a && i == Remainder(i, a) + a * Quotient(i, a)
  {
  }

  lemma QuotientBelow(i: nat, a: nat, b: nat)
    requires a > 0 && i < a * b
    ensures Quotient(i, a) < b
  {
    Split(i, a);
    hide Quotient, Remainder;
    if Quotient(i, a) >= b { Monotone(a, b, Quotient(i, a)); }
  }

  lemma Monotone(a: nat, b: nat, c: nat)
    requires b <= c
    ensures a * b <= a * c
  {
  }

  lemma DivMod(q: nat, r: nat, a: nat)
    requires r < a
    ensures Quotient(r + a * q, a) == q && Remainder(r + a * q, a) == r
  {
    var n := r + a * q;
    Split(n, a);
    hide Quotient, Remainder;
    Unique(n, a, Quotient(n, a), Remainder(n, a), q, r);
  }

  lemma Unique(n: nat, a: nat, q: int, r: int, q': int, r': int)
    requires a > 0 && n == a * q + r == a * q' + r' && 0 <= r < a && 0 <= r' < a
    ensures q == q' && r == r'
  {
    assert a * (q - q') == r' - r;
    if q > q' { Monotone(a, 1, q - q'); }
    if q < q' { assert a * (q' - q) == r - r'; Monotone(a, 1, q' - q); }
  }

  // Dividing by the running product is dividing by one length after the other.
  lemma DivDiv(i: nat, a: nat, b: nat)
    requires a > 0 && b > 0
    ensures a * b > 0 && Quotient(Quotient(i, a), b) == Quotient(i, a * b)
  {
    Split(i, a);
    Split(Quotient(i, a), b);
    Split(i, a * b);
    hide Quotient, Remainder;
    var h, q, r := Quotient(i, a), Quotient(Quotient(i, a), b), Remainder(Quotient(i, a), b);
    Distribute(a, r, b, q);
    Monotone(a, r + 1, b);
    assert a * (r + 1) == a * r + a;
    Unique(i, a * b, q, a * r + Remainder(i, a), Quotient(i, a * b), Remainder(i, a * b));
  }

  lemma Distribute(a: nat, r: nat, b: nat, q: nat)
    ensures a * (r + b * q) == a * r + (a * b) * q
  {
    assert a * (b * q) == (a * b) * q;
  }

  lemma {:induction false} ProductPositive(ls: seq<nat>)
    ensures Product(ls) > 0 <==> Positive(ls)
  {
    if ls != [] {
      ProductPositive(ls[1..]);
      assert Positive(ls) <==> ls[0] > 0 && Positive(ls[1..]) by {
        assert forall k :: 0 < k < |ls| ==> ls[k] == ls[1..][k - 1];
      }
    }
  }

  // ---------------------------------------------------------------- tuples and their places

  lemma {:induction false} DigitsInRange(i: nat, ls: seq<nat>)
    requires Positive(ls)
    ensures InRange(Digits(i, ls), ls)
    decreases |ls|
  {
    if ls != [] {
      Split(i, ls[0]);
      hide Quotient, Remainder;
      var rest := Digits(Quotient(i, ls[0]), ls[1..]);
      DigitsInRange(Quotient(i, ls[0]), ls[1..]);
      assert forall k :: 0 < k < |ls| ==> ls[k] == ls[1..][k - 1];
      assert forall k :: 0 < k < |ls| ==> ([Remainder(i, ls[0])] + rest)[k] == rest[k - 1];
    }
  }

  lemma {:induction false} PlaceOfDigits(i: nat, ls: seq<nat>)
    requires Positive(ls) && i < Product(ls)
    ensures InRange(Digits(i, ls), ls) && Place(Digits(i, ls), ls) == i
    decreases |ls|
  {
    DigitsInRange(i, ls);
    if ls != [] {
      QuotientBelow(i, ls[0], Product(ls[1..]));
      Split(i, ls[0]);
      hide Quotient, Remainder;
      var q := Quotient(i, ls[0]);
      PlaceOfDigits(q, ls[1..]);
      var t := Digits(i, ls);
      assert t[1..] == Digits(q, ls[1..]);
      assert Place(t, ls) == t[0] + ls[0] * Place(t[1..], ls[1..]);
    }
  }

  lemma {:induction false} DigitsOfPlace(t: seq<nat>, ls: seq<nat>)
    requires InRange(t, ls)
    ensures Positive(ls) && Place(t, ls) < Product(ls) && Digits(Place(t, ls), ls) == t
  {
    if ls != [] {
      hide Quotient, Remainder;
      assert forall k :: 0 < k < |ls| ==> ls[k] == ls[1..][k - 1] && t[k] == t[1..][k - 1];
      DigitsOfPlace(t[1..], ls[1..]);
      var q := Place(t[1..], ls[1..]);
      DivMod(q, t[0], ls[0]);
      Monotone(ls[0], q + 1, Product(ls[1..]));
      assert ls[0] * (q + 1) == ls[0] * q + ls[0];
    }
  }

  // ---------------------------------------------------------------- productIndices

  function Min(a: nat, b: nat): nat { if a < b then a else b }

  /** The first tuples in order. */
  function Tuples(ls: seq<nat>, count: nat): (ts: seq<seq<nat>>)
    requires Positive(ls)
    ensures |ts| == count && forall i :: 0 <= i < count ==> ts[i] == Digits(i, ls)
  {
    if count == 0 then [] else Tuples(ls, count - 1) + [Digits(count - 1, ls)]
  }

  /** No two tuples are the same and each is in range; if there are no more than the limit, they are all
      the tuples. */
  lemma TuplesAreTheProduct(ls: seq<nat>, count: nat)
    requires Positive(ls) && count <= Product(ls)
    ensures var ts := Tuples(ls, count);
      && (forall i :: 0 <= i < count ==> InRange(ts[i], ls))
      && (forall i, j :: 0 <= i < j < count ==> ts[i] != ts[j])
      && (count == Product(ls) ==> forall t :: InRange(t, ls) ==> t in ts)
  {
    var ts := Tuples(ls, count);
    forall i | 0 <= i < count ensures InRange(ts[i], ls) && Place(ts[i], ls) == i {
      PlaceOfDigits(i, ls);
    }
    if count == Product(ls) {
      forall t | InRange(t, ls) ensures t in ts {
        DigitsOfPlace(t, ls);
        assert ts[Place(t, ls)] == t;
      }
    }
  }

  method ProductIndices(ls: seq<nat>) returns (results: seq<seq<nat>>)
    ensures Product(ls) == 0 ==> results == []
    ensures Product(ls) > 0 ==> Positive(ls) && results == Tuples(ls, Min(Product(ls), 100))
  {
    var count: nat := 1;
    for k := 0 to |ls|
      invariant count * Product(ls[k..]) == Product(ls)
    {
      assert ls[k..][0] == ls[k] && ls[k..][1..] == ls[k + 1..];
      Associate(count, ls[k], Product(ls[k + 1..]));
      count := count * ls[k];
    }
    assert ls[|ls|..] == [];
    ProductPositive(ls);
    if count == 0 { return []; }
    if count > MAX_TOTAL_MATCHES { count := MAX_TOTAL_MATCHES; }
    results := [];
    for i := 0 to count
      invariant results == Tuples(ls, i)
    {
      var result := Tuple(i, ls);
      results := results + [result];
    }
  }

  lemma Associate(a: nat, b: nat, c: nat)
    ensures a * (b * c) == (a * b) * c
  {
  }

  // One tuple, with the running product of the lengths.
  method Tuple(i: nat, ls: seq<nat>) returns (result: seq<nat>)
    requires Positive(ls)
    ensures result == Digits(i, ls)
  {
    result := [];
    var j: nat := 1;
    assert ls[0..] == ls && Quotient(i, 1) == i;
    hide Quotient, Remainder;
    for k := 0 to |ls|
      invariant j > 0 && Positive(ls[k..])
      invariant result + Digits(Quotient(i, j), ls[k..]) == Digits(i, ls)
    {
      assert ls[k..][0] == ls[k] && ls[k..][1..] == ls[k + 1..];
      DivDiv(i, j, ls[k]);
      result := result + [Remainder(Quotient(i, j), ls[k])];
      j := j * ls[k];
    }
  }

  // ---------------------------------------------------------------- permutateMatches

  // The names of the expressions in some order, each with its matches.
  datatype Named<T> = Named(name: string, matches: seq<T>)

  predicate DistinctNames<T>(ms: seq<Named<T>>) { forall i, j :: 0 <= i < j < |ms| ==> ms[i].name != ms[j].name }

  function Lengths<T>(ms: seq<Named<T>>): (ls: seq<nat>)
    ensures |ls| == |ms| && forall k :: 0 <= k < |ms| ==> ls[k] == |ms[k].matches|
  {
    seq(|ms|, k requires 0 <= k < |ms| => |ms[k].matches|)
  }

  // One match of each name: the one at the name's index.
  predicate Picks<T(==)>(candidate: map<string, T>, ms: seq<Named<T>>, t: seq<nat>) {
    && InRange(t, Lengths(ms))
    && candidate.Keys == (set k | 0 <= k < |ms| :: ms[k].name)
    && forall k :: 0 <= k < |ms| ==> ms[k].name in candidate && candidate[ms[k].name] == ms[k].matches[t[k]]
  }

  method Candidate<T(==)>(ms: seq<Named<T>>, t: seq<nat>) returns (candidate: map<string, T>)
    requires DistinctNames(ms) && InRange(t, Lengths(ms))
    ensures Picks(candidate, ms, t)
  {
    candidate := map[];
    for i := 0 to |ms|
      invariant candidate.Keys == set k | 0 <= k < i :: ms[k].name
      invariant forall k :: 0 <= k < i ==> ms[k].name in candidate && candidate[ms[k].name] == ms[k].matches[t[k]]
    {
      candidate := candidate[ms[i].name := ms[i].matches[t[i]]];
    }
  }

  /** The combinations of one match for each name, one for each of the first tuples, which all differ: every
      combination if there are no more than the limit, and none if some expression does not match. */
  method PermutateMatches<T(==)>(ms: seq<Named<T>>) returns (out: seq<map<string, T>>)
    requires DistinctNames(ms)
    ensures |out| == Min(Product(Lengths(ms)), 100)
    ensures out != [] ==> Positive(Lengths(ms))
    ensures forall i :: 0 <= i < |out| ==> Picks(out[i], ms, Digits(i, Lengths(ms)))
    ensures forall i, j :: 0 <= i < j < |out| ==> Digits(i, Lengths(ms)) != Digits(j, Lengths(ms))
    ensures Product(Lengths(ms)) <= 100 ==>
      forall t :: InRange(t, Lengths(ms)) ==> exists i :: 0 <= i < |out| && Picks(out[i], ms, t)
  {
    hide Product, Digits, Picks, InRange;
    var indices := ProductIndices(Lengths(ms));
    out := [];
    if Product(Lengths(ms)) == 0 {
      NoTuple(Lengths(ms));
      return;
    }
    TuplesAreTheProduct(Lengths(ms), |indices|);
    for n := 0 to |indices|
      invariant |out| == n && forall i :: 0 <= i < n ==> Picks(out[i], ms, indices[i])
    {
      var candidate := Candidate(ms, indices[n]);
      out := out + [candidate];
    }
  }

  lemma NoTuple(ls: seq<nat>)
    requires Product(ls) == 0
    ensures forall t :: !InRange(t, ls)
  {
    forall t ensures !InRange(t, ls) {
      if InRange(t, ls) { DigitsOfPlace(t, ls); }
    }
  }
}
