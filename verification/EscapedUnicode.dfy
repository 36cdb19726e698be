/**
 The escaped-unicode decoder: finding U+XXXX sequences, and replacing escapes by the characters they
 stand for.

 What the `.` of a pattern takes at a position is a parameter: nothing at the end of a line, else one
 byte, or one character of several bytes of which only the first can be ASCII.
 */
module EscapedUnicode {
  import opened Bytes
  import opened Utf8

  // start..end is the match, hexStart..hexEnd its digits.
  datatype Match = Match(start: nat, end: nat, hexStart: nat, hexEnd: nat)

  predicate IsWordByte(c: byte) {
    c == '_' as int || ('0' as int <= c <= '9' as int) || ('a' as int <= c <= 'z' as int) || ('A' as int <= c <= 'Z' as int)
  }

  predicate IsHex(c: byte) {
    ('0' as int <= c <= '9' as int) || ('a' as int <= c <= 'f' as int) || ('A' as int <= c <= 'F' as int)
  }

  type Dot = (Bytes, nat) -> nat

  ghost predicate IsDot(dot: Dot) {
    forall s: Bytes, i: nat :: i <= |s| ==> DotFits(s, i, dot(s, i))
  }

  ghost predicate DotFits(s: Bytes, i: nat, w: nat) { i + w <= |s| && forall k :: i < k < i + w ==> s[k] >= 0x80 }

  // ---------------------------------------------------------------- codePointMatches

  predicate CodePointAt(s: Bytes, i: nat) {
    i + 6 <= |s| && s[i] == 'U' as int && s[i + 1] == '+' as int && forall k :: i + 2 <= k < i + 6 ==> IsHex(s[k])
  }

  function CodePoint(s: Bytes, dot: Dot, i: nat): Match
    requires CodePointAt(s, i)
  {
    Match(i, i + 6 + dot(s, i + 6), i + 2, i + 6)
  }

  // The word boundary at the front: U is a word character.
  predicate OnBoundary(s: Bytes, i: nat)
    requires i < |s|
  {
    i == 0 || !IsWordByte(s[i - 1])
  }

  /** The byte before U is not a letter, a digit or '_', by their numbers in ASCII. */
  lemma BoundaryIs(s: Bytes, i: nat)
    requires 0 < i < |s|
    ensures var b := s[i - 1];
      OnBoundary(s, i) <==> !(48 <= b <= 57 || 65 <= b <= 90 || 97 <= b <= 122 || b == 95)
  {
  }

  // The leftmost, non-overlapping matches from `from` on.
  function AllMatches(s: Bytes, dot: Dot, from: nat): seq<Match>
    requires IsDot(dot)
    decreases |s| - from
  {
    if from >= |s| then []
    else if CodePointAt(s, from) then
      assert DotFits(s, from + 6, dot(s, from + 6));
      [CodePoint(s, dot, from)] + AllMatches(s, dot, CodePoint(s, dot, from).end)
    else AllMatches(s, dot, from + 1)
  }

  // The same for the pattern that has the word boundary written at its front.
  function AnchoredMatches(s: Bytes, dot: Dot, from: nat): seq<Match>
    requires IsDot(dot)
    decreases |s| - from
  {
    if from >= |s| then []
    else if CodePointAt(s, from) && OnBoundary(s, from) then
      assert DotFits(s, from + 6, dot(s, from + 6));
      [CodePoint(s, dot, from)] + AnchoredMatches(s, dot, CodePoint(s, dot, from).end)
    else AnchoredMatches(s, dot, from + 1)
  }

  function KeepOnBoundary(s: Bytes, ms: seq<Match>): seq<Match> {
    if ms == [] then []
    else
      var m := ms[|ms| - 1];
      KeepOnBoundary(s, ms[..|ms| - 1]) + if 0 < m.start <= |s| && IsWordByte(s[m.start - 1]) then [] else [m]
  }

  // The filter over the pattern's matches.
  method CodePointMatches(s: Bytes, all: seq<Match>) returns (kept: seq<Match>)
    requires forall i :: 0 <= i < |all| ==> all[i].start < |s|
    ensures kept == KeepOnBoundary(s, all)
  {
    kept := [];
    for i := 0 to |all|
      invariant kept == KeepOnBoundary(s, all[..i])
    {
      assert all[..i + 1][..i] == all[..i];
      var m := all[i];
      if m.start > 0 && IsWordByte(s[m.start - 1]) { continue; }
      kept := kept + [m];
    }
    assert all[..|all|] == all;
  }

  lemma {:induction false} KeepConcat(s: Bytes, a: seq<Match>, b: seq<Match>)
    ensures KeepOnBoundary(s, a + b) == KeepOnBoundary(s, a) + KeepOnBoundary(s, b)
  {
    if b == [] {
      assert a + b == a;
    } else {
      assert (a + b)[..|a + b| - 1] == a + b[..|b| - 1];
      KeepConcat(s, a, b[..|b| - 1]);
    }
  }

  // Nothing anchored starts inside a match, so the search may go on from anywhere in it.
  lemma {:induction false} NoneInside(s: Bytes, dot: Dot, i: nat, from: nat)
    requires IsDot(dot) && CodePointAt(s, i) && i < from <= CodePoint(s, dot, i).end
    ensures AnchoredMatches(s, dot, from) == AnchoredMatches(s, dot, CodePoint(s, dot, i).end)
    decreases |s| - from
  {
    var end := CodePoint(s, dot, i).end;
    assert DotFits(s, i + 6, dot(s, i + 6));
    if from < end {
      if CodePointAt(s, from) {
        assert from == i + 6;
        assert IsHex(s[i + 5]);
      }
      NoneInside(s, dot, i, from + 1);
    }
  }

  lemma {:induction false} KeepOne(s: Bytes, m: Match)
    requires m.start < |s|
    ensures KeepOnBoundary(s, [m]) == if OnBoundary(s, m.start) then [m] else []
  {
    hide IsWordByte;
    var ms := [m];
    assert ms[..|ms| - 1] == [] && ms[|ms| - 1] == m;
    assert KeepOnBoundary(s, []) == [];
    assert KeepOnBoundary(s, ms) == [] + if 0 < m.start <= |s| && IsWordByte(s[m.start - 1]) then [] else [m];
  }

  lemma {:induction false} KeepFirst(s: Bytes, m: Match, rest: seq<Match>)
    requires m.start < |s|
    ensures KeepOnBoundary(s, [m] + rest) == (if OnBoundary(s, m.start) then [m] else []) + KeepOnBoundary(s, rest)
  {
    hide KeepOnBoundary, OnBoundary;
    KeepConcat(s, [m], rest);
    KeepOne(s, m);
  }

  /** Filtering the matches of U+XXXX.? by the byte before them gives exactly the matches of the pattern
      with the word boundary. */
  lemma {:induction false} FilteredIsAnchored(s: Bytes, dot: Dot, from: nat)
    requires IsDot(dot)
    ensures KeepOnBoundary(s, AllMatches(s, dot, from)) == AnchoredMatches(s, dot, from)
    decreases |s| - from
  {
    if from < |s| {
      if CodePointAt(s, from) {
        assert DotFits(s, from + 6, dot(s, from + 6));
        var m := CodePoint(s, dot, from);
        FilteredIsAnchored(s, dot, m.end);
        if !OnBoundary(s, from) { NoneInside(s, dot, from, from + 1); }
        hide CodePointAt, OnBoundary, DotFits, KeepOnBoundary;
        KeepFirst(s, m, AllMatches(s, dot, m.end));
      } else {
        FilteredIsAnchored(s, dot, from + 1);
      }
    }
  }

  // ---------------------------------------------------------------- characters

  function HexDigit(c: byte): nat
    requires IsHex(c)
  {
    if c <= '9' as int then c - '0' as int else if c <= 'F' as int then c - 'A' as int + 10 else c - 'a' as int + 10
  }

  predicate AllHex(s: Bytes) { forall i :: 0 <= i < |s| ==> IsHex(s[i]) }

  // strconv.ParseUint(s, 16, 32), for up to eight digits.
  function HexValue(s: Bytes): (n: nat)
    requires AllHex(s)
  {
    if s == [] then 0 else 16 * HexValue(s[..|s| - 1]) + HexDigit(s[|s| - 1])
  }

  // n in k hexadecimal digits, with small letters or capitals.
  function HexText(n: nat, k: nat, capitals: bool): Bytes {
    if k == 0 then []
    else
      var small: Bytes := [48, 49, 50, 51, 52, 53, 54, 55, 56, 57, 97, 98, 99, 100, 101, 102];
      var large: Bytes := [48, 49, 50, 51, 52, 53, 54, 55, 56, 57, 65, 66, 67, 68, 69, 70];
      HexText(n / 16, k - 1, capitals) + [if capitals then large[n % 16] else small[n % 16]]
  }

  /** The digits of a number, in either case and with zeros in front, are read back as the number. */
  lemma {:induction false} HexTextRead(n: nat, k: nat, capitals: bool)
    requires n < Power16(k)
    ensures AllHex(HexText(n, k, capitals)) && HexValue(HexText(n, k, capitals)) == n
  {
    if k > 0 {
      HexTextRead(n / 16, k - 1, capitals);
      var before, s := HexText(n / 16, k - 1, capitals), HexText(n, k, capitals);
      assert s[..|s| - 1] == before;
      assert IsHex(s[|s| - 1]) && HexDigit(s[|s| - 1]) == n % 16;
    }
  }

  const MAX_RUNE := 0x10FFFF

  // utf8.EncodeRune; the surrogates are not characters.
  function EncodeRune(cp: nat): Bytes
    requires cp <= MAX_RUNE
  {
    if cp < 0x80 then [cp]
    else if cp < 0x800 then [0xC0 + cp / 0x40, 0x80 + cp % 0x40]
    else if 0xD800 <= cp < 0xE000 then REPLACEMENT
    else if cp < 0x10000 then [0xE0 + cp / 0x1000, 0x80 + cp / 0x40 % 0x40, 0x80 + cp % 0x40]
    else [0xF0 + cp / 0x40000, 0x80 + cp / 0x1000 % 0x40, 0x80 + cp / 0x40 % 0x40, 0x80 + cp % 0x40]
  }

  /** The bytes written are one well-formed character. */
  lemma EncodedIsValid(cp: nat)
    requires cp <= MAX_RUNE
    ensures Width(EncodeRune(cp)) == |EncodeRune(cp)| && Valid(EncodeRune(cp))
  {
    var e := EncodeRune(cp);
    assert e[|e|..] == [];
  }

  // The number that the bits of a well-formed character make up: section 3 of RFC 3629.
  function RuneValue(e: Bytes): int
    requires e != [] && Width(e) == |e|
  {
    var b0: int, b1: int := e[0], if |e| > 1 then e[1] else 0;
    var b2: int, b3: int := if |e| > 2 then e[2] else 0, if |e| > 3 then e[3] else 0;
    if |e| == 1 then b0
    else if |e| == 2 then (b0 - 192) * 64 + (b1 - 128)
    else if |e| == 3 then (b0 - 224) * 4096 + (b1 - 128) * 64 + (b2 - 128)
    else (b0 - 240) * 262144 + (b1 - 128) * 4096 + (b2 - 128) * 64 + (b3 - 128)
  }

  lemma SixBits(cp: nat)
    ensures cp == cp / 64 * 64 + cp % 64 && cp / 64 / 64 == cp / 4096 && cp / 4096 / 64 == cp / 262144
    ensures cp / 4096 * 4096 + cp / 64 % 64 * 64 + cp % 64 == cp
    ensures cp / 262144 * 262144 + cp / 4096 % 64 * 4096 + cp / 64 % 64 * 64 + cp % 64 == cp
  {
  }

  /** What is written for a code point that is no surrogate has its number; a surrogate becomes U+FFFD. */
  lemma EncodedValue(cp: nat)
    requires cp <= 1114111
    ensures Width(EncodeRune(cp)) == |EncodeRune(cp)|
    ensures RuneValue(EncodeRune(cp)) == if 55296 <= cp <= 57343 then 65533 else cp
  {
    EncodedIsValid(cp);
    SixBits(cp);
    hide Width, Valid;
  }

  lemma SixBitsAgain(a: nat, b: nat, c: nat, d: nat)
    requires b < 64 && c < 64 && d < 64
    ensures var n := a * 64 + b; n / 64 == a && n % 64 == b
    ensures var n := a * 4096 + b * 64 + c; n / 4096 == a && n / 64 % 64 == b && n % 64 == c
    ensures var n := a * 262144 + b * 4096 + c * 64 + d; n / 262144 == a && n / 4096 % 64 == b && n / 64 % 64 == c && n % 64 == d
  {
  }

  // What a well-formed character's bytes are within.
  lemma WellFormed(e: Bytes)
    requires e != [] && Width(e) == |e|
    ensures |e| <= 4 && forall i :: 0 < i < |e| ==> 128 <= e[i] < 192
    ensures |e| == 1 ==> e[0] < 128
    ensures |e| == 2 ==> 194 <= e[0] < 224
    ensures |e| == 3 ==> 224 <= e[0] < 240 && (e[0] == 224 ==> e[1] >= 160) && (e[0] == 237 ==> e[1] < 160)
    ensures |e| == 4 ==> 240 <= e[0] <= 244 && (e[0] == 240 ==> e[1] >= 144) && (e[0] == 244 ==> e[1] < 144)
  {
  }

  /** Every well-formed character is what is written for its number, which is never a surrogate's. */
  lemma EncodedAgain(e: Bytes)
    requires e != [] && Width(e) == |e|
    ensures 0 <= RuneValue(e) <= 1114111 && !(55296 <= RuneValue(e) <= 57343) && EncodeRune(RuneValue(e)) == e
  {
    WellFormed(e);
    if |e| == 2 { TwoAgain(e); }
    if |e| == 3 { ThreeAgain(e); }
    if |e| == 4 { FourAgain(e); }
    hide Width;
  }

  lemma TwoAgain(e: Bytes)
    requires |e| == 2 && Width(e) == 2
    ensures 128 <= RuneValue(e) < 2048 && EncodeRune(RuneValue(e)) == e
  {
    WellFormed(e);
    hide Width;
    var b0: int, b1: int := e[0], e[1];
    SixBitsAgain(b0 - 192, b1 - 128, 0, 0);
  }

  lemma ThreeAgain(e: Bytes)
    requires |e| == 3 && Width(e) == 3
    ensures 2048 <= RuneValue(e) < 65536 && !(55296 <= RuneValue(e) <= 57343) && EncodeRune(RuneValue(e)) == e
  {
    WellFormed(e);
    hide Width;
    var b0: int, b1: int, b2: int := e[0], e[1], e[2];
    SixBitsAgain(b0 - 224, b1 - 128, b2 - 128, 0);
  }

  lemma FourAgain(e: Bytes)
    requires |e| == 4 && Width(e) == 4
    ensures 65536 <= RuneValue(e) <= 1114111 && EncodeRune(RuneValue(e)) == e
  {
    WellFormed(e);
    hide Width;
    var b0: int, b1: int, b2: int, b3: int := e[0], e[1], e[2], e[3];
    SixBitsAgain(b0 - 240, b1 - 128, b2 - 128, b3 - 128);
  }

  function Power16(n: nat): nat { if n == 0 then 1 else 16 * Power16(n - 1) }

  lemma {:induction false} HexValueBound(s: Bytes)
    requires AllHex(s)
    ensures HexValue(s) < Power16(|s|)
  {
    if s != [] { HexValueBound(s[..|s| - 1]); }
  }

  // A character is never longer than its digits.
  lemma EncodedFits(s: Bytes)
    requires s != [] && AllHex(s) && HexValue(s) <= MAX_RUNE
    ensures |EncodeRune(HexValue(s))| <= |s|
  {
    HexValueBound(s);
    assert Power16(0) == 1 && Power16(1) == 16 && Power16(2) == 256 && Power16(3) == 4096 && Power16(4) == 65536;
  }

  // ---------------------------------------------------------------- replacing

  // The matches of a pattern whose group is hex digits: ascending and apart.
  predicate AreMatches(s: Bytes, ms: seq<Match>) {
    && (forall i :: 0 <= i < |ms| ==> MatchFits(s, ms[i]))
    && (forall i, j :: 0 <= i < j < |ms| ==> ms[i].end <= ms[j].start)
  }

  predicate MatchFits(s: Bytes, m: Match) {
    m.start <= m.hexStart < m.hexEnd <= m.end <= |s| && AllHex(s[m.hexStart..m.hexEnd])
  }

  // What the match becomes: its character, or itself if it is no code point.
  function Replaced(s: Bytes, m: Match): Bytes
    requires MatchFits(s, m)
  {
    var cp := HexValue(s[m.hexStart..m.hexEnd]);
    if cp > MAX_RUNE then s[m.start..m.end] else EncodeRune(cp)
  }

  /** All the matches replaced at once, from left to right. */
  function Substituted(s: Bytes, ms: seq<Match>, from: nat): Bytes
    requires AreMatches(s, ms) && from <= |s| && (ms != [] ==> from <= ms[0].start)
    decreases |ms|
  {
    if ms == [] then s[from..]
    else s[from..ms[0].start] + Replaced(s, ms[0]) + Substituted(s, ms[1..], ms[0].end)
  }

  lemma {:induction false} SubstitutedShortens(s: Bytes, ms: seq<Match>, from: nat)
    requires AreMatches(s, ms) && from <= |s| && (ms != [] ==> from <= ms[0].start)
    ensures |Substituted(s, ms, from)| <= |s| - from
    decreases |ms|
  {
    if ms != [] {
      SubstitutedShortens(s, ms[1..], ms[0].end);
      ReplacedShortens(s, ms[0]);
    }
  }

  lemma ReplacedShortens(s: Bytes, m: Match)
    requires MatchFits(s, m)
    ensures |Replaced(s, m)| <= m.end - m.start
  {
    var digits := s[m.hexStart..m.hexEnd];
    if HexValue(digits) <= MAX_RUNE { EncodedFits(digits); }
  }

  lemma MatchesFrom(s: Bytes, ms: seq<Match>, i: nat)
    requires AreMatches(s, ms) && i <= |ms|
    ensures AreMatches(s, ms[i..]) && (i < |ms| ==> ms[i].start <= ms[i].end <= |s|)
    ensures i < |ms| && ms[i + 1..] != [] ==> ms[i].end <= ms[i + 1..][0].start
  {
    hide AllHex;
    if i < |ms| { assert MatchFits(s, ms[i]); }
  }

  lemma SubstitutedFirst(s: Bytes, ms: seq<Match>, from: nat)
    requires AreMatches(s, ms) && ms != [] && from <= ms[0].start
    ensures AreMatches(s, ms[1..]) && MatchFits(s, ms[0]) && from <= |s|
    ensures (ms[1..] != [] ==> ms[0].end <= ms[1..][0].start)
    ensures Substituted(s, ms, from) == s[from..ms[0].start] + (Replaced(s, ms[0]) + Substituted(s, ms[1..], ms[0].end))
  {
    MatchesFrom(s, ms, 0);
    MatchesFrom(s, ms, 1);
    hide Replaced, AllHex;
  }

  lemma SplicedOnce(s: Bytes, ms: seq<Match>, i: nat)
    requires AreMatches(s, ms) && i < |ms|
    ensures AreMatches(s, ms[i..]) && AreMatches(s, ms[i + 1..])
    ensures Substituted(s, ms[i..], ms[i].start) == Replaced(s, ms[i]) + Substituted(s, ms[i + 1..], ms[i].end)
  {
    MatchesFrom(s, ms, i);
    MatchesFrom(s, ms, i + 1);
    assert ms[i..][0] == ms[i] && ms[i..][1..] == ms[i + 1..];
    hide AreMatches, Substituted, Replaced, MatchFits;
    SubstitutedFirst(s, ms[i..], ms[i].start);
    assert s[ms[i].start..ms[i].start] == [];
  }

  // The text up to a match is all that splicing on its right leaves alone.
  lemma UpTo(s: Bytes, ms: seq<Match>, from: nat)
    requires AreMatches(s, ms) && from <= |s| && (ms != [] ==> from <= ms[0].start)
    ensures ms != [] ==> Substituted(s, ms, from) == s[from..ms[0].start] + Substituted(s, ms, ms[0].start)
    ensures ms == [] ==> Substituted(s, ms, from) == s[from..]
  {
    if ms != [] {
      MatchesFrom(s, ms, 0);
      hide AreMatches, Substituted, Replaced, MatchFits;
      var at := ms[0].start;
      SubstitutedFirst(s, ms, from);
      SubstitutedFirst(s, ms, at);
      var tail := Replaced(s, ms[0]) + Substituted(s, ms[1..], ms[0].end);
      assert Substituted(s, ms, at) == s[at..at] + tail && s[at..at] + tail == tail;
    }
  }

  /** Splicing the matches in place, the last one first, is substituting them all at once, and the data
      never gets longer. */
  method DecodeWithPattern(input: Bytes, ms: seq<Match>) returns (data: Bytes)
    requires AreMatches(input, ms)
    ensures data == Substituted(input, ms, 0) && |data| <= |input|
  {
    data := input;
    var i := |ms|;
    assert ms[|ms|..] == [];
    while i > 0
      invariant 0 <= i <= |ms| && AreMatches(input, ms[i..])
      invariant i == |ms| ==> data == input
      invariant i < |ms| ==> data == input[..ms[i].start] + Substituted(input, ms[i..], ms[i].start)
    {
      i := i - 1;
      data := Splice(input, ms, i, data);
    }
    SubstitutedShortens(input, ms, 0);
    assert ms[0..] == ms && input[..0] == [];
    UpTo(input, ms, 0);
    if ms != [] { assert input[0..ms[0].start] == input[..ms[0].start]; }
  }

  // One turn of the loop.
  method Splice(ghost input: Bytes, ms: seq<Match>, i: nat, data: Bytes) returns (out: Bytes)
    requires AreMatches(input, ms) && i < |ms|
    requires i == |ms| - 1 ==> data == input
    requires i + 1 < |ms| ==> AreMatches(input, ms[i + 1..])
    requires i + 1 < |ms| ==> data == input[..ms[i + 1].start] + Substituted(input, ms[i + 1..], ms[i + 1].start)
    ensures AreMatches(input, ms[i..]) && out == input[..ms[i].start] + Substituted(input, ms[i..], ms[i].start)
  {
    var m := ms[i];
    assert MatchFits(input, m);
    SplicedOnce(input, ms, i);
    Unspliced(input, ms, i, data);
    hide Substituted, AreMatches, HexValue;
    ghost var rest := Substituted(input, ms[i + 1..], m.end);
    Around(input, m, data, rest);
    var cp := HexValue(data[m.hexStart..m.hexEnd]);
    if cp > MAX_RUNE {
      out := data;
    } else {
      out := data[..m.start] + (EncodeRune(cp) + data[m.end..]);
    }
  }

  // What is left of the end of match i has not been touched yet.
  lemma Unspliced(input: Bytes, ms: seq<Match>, i: nat, data: Bytes)
    requires AreMatches(input, ms) && i < |ms| && AreMatches(input, ms[i + 1..])
    requires i == |ms| - 1 ==> data == input
    requires i + 1 < |ms| ==> data == input[..ms[i + 1].start] + Substituted(input, ms[i + 1..], ms[i + 1].start)
    ensures data == input[..ms[i].end] + Substituted(input, ms[i + 1..], ms[i].end)
  {
    hide AllHex;
    var m := ms[i];
    assert MatchFits(input, m);
    if i + 1 < |ms| {
      var next := ms[i + 1];
      assert MatchFits(input, next) && ms[i + 1..][0] == next;
      UpTo(input, ms[i + 1..], m.end);
      hide Substituted, MatchFits, AreMatches;
      Rejoin(input, m.end, next.start, Substituted(input, ms[i + 1..], next.start));
    } else {
      assert ms[i + 1..] == [];
    }
  }

  lemma Rejoin(s: Bytes, a: nat, b: nat, tail: Bytes)
    requires a <= b <= |s|
    ensures s[..b] + tail == s[..a] + (s[a..b] + tail)
  {
    assert s[..b] == s[..a] + s[a..b];
  }

  lemma Around(input: Bytes, m: Match, data: Bytes, rest: Bytes)
    requires m.start <= m.hexStart < m.hexEnd <= m.end <= |input| && data == input[..m.end] + rest
    ensures m.end <= |data| && data[..m.start] == input[..m.start] && data[m.end..] == rest
    ensures data[m.hexStart..m.hexEnd] == input[m.hexStart..m.hexEnd]
    ensures data == input[..m.start] + (input[m.start..m.end] + rest)
  {
  }

  // ---------------------------------------------------------------- decodeCodePointAt

  // A character after the digits is replaced along with them only if it is a space.
  function Adjusted(s: Bytes, m: Match): Match
    requires m.hexEnd <= m.end <= |s|
  {
    if m.end != m.hexEnd && s[m.end - 1] != ' ' as int then m.(end := m.end - 1) else m
  }

  function AllAdjusted(s: Bytes, ms: seq<Match>): (out: seq<Match>)
    requires forall i :: 0 <= i < |ms| ==> ms[i].hexEnd <= ms[i].end <= |s|
    ensures |out| == |ms| && forall i :: 0 <= i < |ms| ==> out[i] == Adjusted(s, ms[i])
  {
    if ms == [] then [] else AllAdjusted(s, ms[..|ms| - 1]) + [Adjusted(s, ms[|ms| - 1])]
  }

  lemma AdjustedAreMatches(s: Bytes, ms: seq<Match>)
    requires AreMatches(s, ms)
    ensures (forall i :: 0 <= i < |ms| ==> ms[i].hexEnd <= ms[i].end <= |s|) && AreMatches(s, AllAdjusted(s, ms))
  {
    forall i | 0 <= i < |ms| ensures ms[i].hexEnd <= ms[i].end <= |s| && MatchFits(s, Adjusted(s, ms[i])) {
      assert MatchFits(s, ms[i]);
    }
  }

  // What follows the digits of a match at i, and goes with them if it is a space.
  function Follower(s: Bytes, i: nat): nat { if i + 6 < |s| && s[i + 6] == ' ' as int then 1 else 0 }

  /** The escape and a following space are replaced, and nothing else, if and only if the `.` took no more
      than one byte: of a longer character the decoder drops all bytes but the last. */
  lemma ReplacesEscapeOnly(s: Bytes, dot: Dot, i: nat)
    requires IsDot(dot) && CodePointAt(s, i)
    requires Follower(s, i) == 1 ==> dot(s, i + 6) == 1
    ensures CodePoint(s, dot, i).end <= |s|
    ensures Adjusted(s, CodePoint(s, dot, i)).end == i + 6 + Follower(s, i) <==> dot(s, i + 6) <= 1
    ensures dot(s, i + 6) > 1 ==> Adjusted(s, CodePoint(s, dot, i)).end == i + 6 + dot(s, i + 6) - 1
  {
    assert DotFits(s, i + 6, dot(s, i + 6));
  }

  // "U+0041" and the two bytes of a character.
  function CodePointThenAccent(): Bytes {
    ['U' as int, '+' as int, '0' as int, '0' as int, '4' as int, '1' as int, 0xC3, 0xA9]
  }

  /** Half of the character after the digits is lost: "U+0041" and "\u00e9" become "A" and a stray byte. */
  lemma HalfCharacterLost(dot: Dot)
    requires IsDot(dot) && dot(CodePointThenAccent(), 6) == 2
    ensures CodePointAt(CodePointThenAccent(), 0) && CodePoint(CodePointThenAccent(), dot, 0) == Match(0, 8, 2, 6)
    ensures AreMatches(CodePointThenAccent(), [Match(0, 7, 2, 6)])
    ensures Adjusted(CodePointThenAccent(), Match(0, 8, 2, 6)) == Match(0, 7, 2, 6)
    ensures Substituted(CodePointThenAccent(), [Match(0, 7, 2, 6)], 0) == ['A' as int, 0xA9]
  {
    var s, m := CodePointThenAccent(), Match(0, 7, 2, 6);
    var digits := s[2..6];
    assert |s| == 8 && s[7] == 0xA9 && digits == [48, 48, 52, 49] && digits[..3] == [48, 48, 52];
    assert digits[..3][..2] == [48, 48];
    assert HexValue([48]) == 0 && [48, 48][..1] == [48] && HexValue([48, 48]) == 0;
    assert HexValue(digits[..3]) == 4 && HexValue(digits) == 65;
    assert [m][1..] == [] && s[0..0] == [] && s[7..] == [0xA9];
    assert Replaced(s, m) == ['A' as int];
  }

  // The digits of U+XXXX, which are never more than a code point.
  predicate FourDigits(ms: seq<Match>) { forall i :: 0 <= i < |ms| ==> ms[i].hexEnd == ms[i].hexStart + 4 }

  lemma FourDigitsFit(s: Bytes)
    requires AllHex(s) && |s| == 4
    ensures HexValue(s) <= MAX_RUNE
  {
    HexValueBound(s);
    assert Power16(0) == 1 && Power16(1) == 16 && Power16(2) == 256 && Power16(3) == 4096;
  }

  /** The loop over the matches of U+XXXX.?, the last one first, each adjusted by the byte it ends with in
      the data as it is by then, substitutes all the adjusted matches at once. */
  method DecodeCodePointAt(input: Bytes, ms: seq<Match>) returns (data: Bytes)
    requires AreMatches(input, ms) && FourDigits(ms)
    ensures (forall i :: 0 <= i < |ms| ==> ms[i].hexEnd <= ms[i].end <= |input|)
    ensures AreMatches(input, AllAdjusted(input, ms))
    ensures data == Substituted(input, AllAdjusted(input, ms), 0) && |data| <= |input|
  {
    AdjustedAreMatches(input, ms);
    ghost var adjusted := AllAdjusted(input, ms);
    data := input;
    var i := |ms|;
    assert adjusted[|ms|..] == [];
    hide AllHex, Substituted, MatchFits;
    while i > 0
      invariant 0 <= i <= |ms| && AreMatches(input, adjusted[i..])
      invariant i == |ms| ==> data == input
      invariant i < |ms| ==> data == input[..adjusted[i].start] + Substituted(input, adjusted[i..], adjusted[i].start)
    {
      i := i - 1;
      data := SpliceCodePoint(input, adjusted, ms, i, data);
    }
    SubstitutedShortens(input, adjusted, 0);
    assert adjusted[0..] == adjusted && input[..0] == [];
    UpTo(input, adjusted, 0);
    if ms != [] { assert input[0..adjusted[0].start] == input[..adjusted[0].start]; }
  }

  // One turn of the loop.
  method SpliceCodePoint(ghost input: Bytes, ghost adjusted: seq<Match>, ms: seq<Match>, i: nat, data: Bytes)
    returns (out: Bytes)
    requires AreMatches(input, ms) && FourDigits(ms) && i < |ms| && AreMatches(input, adjusted) && |adjusted| == |ms|
    requires forall k :: 0 <= k < |ms| ==> ms[k].hexEnd <= ms[k].end <= |input| && adjusted[k] == Adjusted(input, ms[k])
    requires i == |ms| - 1 ==> data == input
    requires i + 1 < |ms| ==> AreMatches(input, adjusted[i + 1..])
    requires i + 1 < |ms| ==>
      data == input[..adjusted[i + 1].start] + Substituted(input, adjusted[i + 1..], adjusted[i + 1].start)
    ensures AreMatches(input, adjusted[i..])
    ensures out == input[..adjusted[i].start] + Substituted(input, adjusted[i..], adjusted[i].start)
  {
    var m, endIndex := ms[i], ms[i].end;
    assert MatchFits(input, m) && MatchFits(input, adjusted[i]);
    assert endIndex <= |data| && data[..endIndex] == input[..endIndex];
    assert data[..endIndex][endIndex - 1] == data[endIndex - 1];
    if endIndex != m.hexEnd && data[endIndex - 1] != ' ' as int {
      endIndex := endIndex - 1;
    }
    assert adjusted[i] == m.(end := endIndex);
    FourDigitsFit(input[m.hexStart..m.hexEnd]);
    SplicedOnce(input, adjusted, i);
    Unspliced(input, adjusted, i, data);
    hide Substituted, AreMatches, HexValue;
    Around(input, adjusted[i], data, Substituted(input, adjusted[i + 1..], endIndex));
    out := data[..m.start] + (EncodeRune(HexValue(data[m.hexStart..m.hexEnd])) + data[endIndex..]);
  }
}
