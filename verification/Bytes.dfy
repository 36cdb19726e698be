/** Byte strings, and the searches of Go's bytes package the models rely on. */
module Bytes {

  type byte = x: int | 0 <= x < 256
  type Bytes = seq<byte>

  const NEWLINE: byte := 10

  predicate MatchAt(s: Bytes, sep: Bytes, i: int) {
    0 <= i && i + |sep| <= |s| && s[i..i + |sep|] == sep
  }

  // bytes.Index from position `from` on, as an absolute position: the first match, or -1.
  function IndexFrom(s: Bytes, sep: Bytes, from: nat): (r: int)
    ensures r == -1 || from <= r <= |s| - |sep|
    decreases |s| - from
  {
    if from + |sep| > |s| then -1
    else if s[from..from + |sep|] == sep then from
    else IndexFrom(s, sep, from + 1)
  }

  // bytes.Index
  function Index(s: Bytes, sep: Bytes): (r: int)
    ensures r == -1 || 0 <= r <= |s| - |sep|
  {
    IndexFrom(s, sep, 0)
  }

  ghost predicate FirstMatch(s: Bytes, sep: Bytes, from: nat, r: int) {
    if r == -1 then forall i :: from <= i ==> !MatchAt(s, sep, i)
    else from <= r && MatchAt(s, sep, r) && forall i :: from <= i < r ==> !MatchAt(s, sep, i)
  }

  lemma {:induction false} IndexFinds(s: Bytes, sep: Bytes, from: nat)
    ensures FirstMatch(s, sep, from, IndexFrom(s, sep, from))
    decreases |s| - from
  {
    if from + |sep| <= |s| && s[from..from + |sep|] != sep {
      IndexFinds(s, sep, from + 1);
      assert !MatchAt(s, sep, from);
    }
  }

  // The index of a first match, whatever way it was found.
  lemma IndexUnique(s: Bytes, sep: Bytes, from: nat, r: int)
    requires FirstMatch(s, sep, from, r)
    ensures IndexFrom(s, sep, from) == r
  {
    IndexFinds(s, sep, from);
    var i := IndexFrom(s, sep, from);
    assert i != -1 ==> MatchAt(s, sep, i);
    assert r != -1 ==> MatchAt(s, sep, r);
  }

  // Searching a suffix is searching from its start.
  lemma IndexInSuffix(s: Bytes, sep: Bytes, from: nat)
    requires from <= |s|
    ensures var r := Index(s[from..], sep);
      IndexFrom(s, sep, from) == if r == -1 then -1 else from + r
  {
    SuffixIndex(s, sep, from, 0);
  }

  // The positions of the non-overlapping occurrences of sep in s, scanning from `from`.
  function Occurrences(s: Bytes, sep: Bytes, from: nat): seq<nat>
    requires sep != []
    decreases |s| - from
  {
    var i := IndexFrom(s, sep, from);
    if i == -1 then [] else [i] + Occurrences(s, sep, i + |sep|)
  }

  // Matches from `from` on, in order and without overlap.
  ghost predicate Spread(s: Bytes, sep: Bytes, from: nat, r: seq<nat>) {
    && (forall k :: 0 <= k < |r| ==> from <= r[k] && MatchAt(s, sep, r[k]))
    && (forall j, k :: 0 <= j < k < |r| ==> r[j] + |sep| <= r[k])
  }

  lemma {:induction false} OccurrencesSpread(s: Bytes, sep: Bytes, from: nat)
    requires sep != []
    ensures Spread(s, sep, from, Occurrences(s, sep, from))
    decreases |s| - from
  {
    IndexFinds(s, sep, from);
    var i := IndexFrom(s, sep, from);
    if i != -1 {
      OccurrencesSpread(s, sep, i + |sep|);
      var rest := Occurrences(s, sep, i + |sep|);
      var r := [i] + rest;
      assert forall k :: 1 <= k < |r| ==> r[k] == rest[k - 1];
      assert Spread(s, sep, from, r);
    }
  }

  // bytes.Count for a non-empty separator.
  function Count(s: Bytes, sep: Bytes): nat
    requires sep != []
  {
    |Occurrences(s, sep, 0)|
  }

  lemma OccursIffIndexed(s: Bytes, sep: Bytes, from: nat)
    requires sep != []
    ensures Occurrences(s, sep, from) == [] <==> forall i :: from <= i ==> !MatchAt(s, sep, i)
  {
    IndexFinds(s, sep, from);
  }

  // b is a, every element moved up by d.
  ghost predicate Shifted(a: seq<nat>, b: seq<nat>, d: nat) {
    |a| == |b| && forall k :: 0 <= k < |a| ==> b[k] == d + a[k]
  }

  lemma ShiftedPush(a: seq<nat>, b: seq<nat>, d: nat, x: nat)
    requires Shifted(a, b, d)
    ensures Shifted([x] + a, [d + x] + b, d)
  {
  }

  // The occurrences of a suffix are those of the whole from its start on.
  lemma {:induction false} OccurrencesInSuffix(s: Bytes, sep: Bytes, cut: nat, from: nat)
    requires sep != [] && cut <= |s|
    ensures Shifted(Occurrences(s[cut..], sep, from), Occurrences(s, sep, cut + from), cut)
    decreases |s| - from
  {
    SuffixIndex(s, sep, cut, from);
    var i := IndexFrom(s[cut..], sep, from);
    if i != -1 {
      OccurrencesInSuffix(s, sep, cut, i + |sep|);
      ShiftedPush(Occurrences(s[cut..], sep, i + |sep|), Occurrences(s, sep, cut + (i + |sep|)), cut, i);
    }
  }

  lemma {:induction false} SuffixIndex(s: Bytes, sep: Bytes, cut: nat, from: nat)
    requires cut <= |s|
    ensures var r := IndexFrom(s[cut..], sep, from);
      IndexFrom(s, sep, cut + from) == if r == -1 then -1 else cut + r
    decreases |s| - from
  {
    if from + |sep| <= |s| - cut {
      assert s[cut..][from..from + |sep|] == s[cut + from..cut + from + |sep|];
      if s[cut..][from..from + |sep|] != sep {
        SuffixIndex(s, sep, cut, from + 1);
      }
    }
  }

  lemma PrefixIndex(s: Bytes, sep: Bytes, end: nat, from: nat)
    requires end <= |s|
    ensures var j := IndexFrom(s, sep, from);
      IndexFrom(s[..end], sep, from) == if j != -1 && j + |sep| <= end then j else -1
  {
    forall i ensures MatchAt(s[..end], sep, i) <==> MatchAt(s, sep, i) && i + |sep| <= end {
      if 0 <= i && i + |sep| <= end {
        assert s[..end][i..i + |sep|] == s[i..i + |sep|];
      }
    }
    IndexFinds(s, sep, from);
    var j := IndexFrom(s, sep, from);
    IndexUnique(s[..end], sep, from, if j != -1 && j + |sep| <= end then j else -1);
  }

  // a is the part of b that ends by `end`.
  ghost predicate EndsBy(a: seq<nat>, b: seq<nat>, length: nat, end: nat) {
    |a| <= |b| && a == b[..|a|] && (|a| < |b| ==> b[|a|] + length > end)
  }

  lemma EndsByPush(a: seq<nat>, b: seq<nat>, length: nat, end: nat, x: nat)
    requires EndsBy(a, b, length, end)
    ensures EndsBy([x] + a, [x] + b, length, end)
  {
    assert ([x] + b)[..|a| + 1] == [x] + b[..|a|];
  }

  lemma NoneInPrefix(s: Bytes, sep: Bytes, end: nat, from: nat)
    requires sep != [] && end <= |s| && IndexFrom(s[..end], sep, from) == -1
    requires var j := IndexFrom(s, sep, from); j == -1 || j + |sep| > end
    ensures EndsBy(Occurrences(s[..end], sep, from), Occurrences(s, sep, from), |sep|, end)
  {
    hide IndexFrom;
    assert Occurrences(s[..end], sep, from) == [];
  }

  lemma OccurrencesFrom(s: Bytes, sep: Bytes, from: nat)
    requires sep != [] && IndexFrom(s, sep, from) != -1
    ensures var i := IndexFrom(s, sep, from); Occurrences(s, sep, from) == [i] + Occurrences(s, sep, i + |sep|)
  {
    hide IndexFrom;
  }

  // The occurrences of a prefix are the first ones of the whole.
  lemma {:induction false} OccurrencesInPrefix(s: Bytes, sep: Bytes, end: nat, from: nat)
    requires sep != [] && end <= |s|
    ensures EndsBy(Occurrences(s[..end], sep, from), Occurrences(s, sep, from), |sep|, end)
    decreases |s| - from
  {
    hide *;
    PrefixIndex(s, sep, end, from);
    var i := IndexFrom(s[..end], sep, from);
    if i == -1 {
      NoneInPrefix(s, sep, end, from);
    } else {
      OccurrencesFrom(s[..end], sep, from);
      OccurrencesFrom(s, sep, from);
      OccurrencesInPrefix(s, sep, end, i + |sep|);
      EndsByPush(Occurrences(s[..end], sep, i + |sep|), Occurrences(s, sep, i + |sep|), |sep|, end, i);
    }
  }

  // bytes.Count of a newline.
  function Newlines(s: Bytes): nat {
    if s == [] then 0 else (if s[0] == NEWLINE then 1 else 0) + Newlines(s[1..])
  }

  lemma {:induction false} NewlinesConcat(a: Bytes, b: Bytes)
    ensures Newlines(a + b) == Newlines(a) + Newlines(b)
  {
    if a == [] {
      assert a + b == b;
    } else {
      assert (a + b)[1..] == a[1..] + b;
      NewlinesConcat(a[1..], b);
    }
  }

  /** bytes.Count for a newline: how many places hold one. */
  lemma {:induction false} NewlinesCounted(s: Bytes)
    ensures Newlines(s) == |set i | 0 <= i < |s| && s[i] == 10|
  {
    var at := set i | 0 <= i < |s| && s[i] == 10;
    if s == [] {
      assert at == {};
    } else {
      var front, last := s[..|s| - 1], s[|s| - 1];
      NewlinesCounted(front);
      assert s == front + [last];
      NewlinesConcat(front, [last]);
      assert Newlines([last]) == if last == 10 then 1 else 0;
      assert at == (set i | 0 <= i < |front| && front[i] == 10) + if last == 10 then {|s| - 1} else {};
    }
  }
}
