/**
 UTF-8 (section 4 of RFC 3629) as Go's unicode/utf8 reads it, and the UTF8 decoder.
 */
module Utf8 {
  import opened Bytes

  // ---------------------------------------------------------------- unicode/utf8

  predicate Continues(b: byte) { 0x80 <= b < 0xC0 }

  predicate RuneStart(b: byte) { !Continues(b) }

  // The second byte of a well-formed sequence that starts with b0.
  predicate SecondFits(b0: byte, b1: byte) {
    Continues(b1) && (b0 == 0xE0 ==> b1 >= 0xA0) && (b0 == 0xED ==> b1 < 0xA0) &&
    (b0 == 0xF0 ==> b1 >= 0x90) && (b0 == 0xF4 ==> b1 < 0x90)
  }

  // The length of the well-formed sequence s starts with, 0 if there is none.
  function Width(s: Bytes): (w: nat)
    requires s != []
    ensures w <= |s|
  {
    if s[0] < 0x80 then 1
    else if |s| < 2 || !SecondFits(s[0], s[1]) then 0
    else if 0xC2 <= s[0] < 0xE0 then 2
    else if |s| < 3 || !Continues(s[2]) then 0
    else if 0xE0 <= s[0] < 0xF0 then 3
    else if |s| < 4 || !Continues(s[3]) then 0
    else if 0xF0 <= s[0] < 0xF5 then 4
    else 0
  }

  // utf8.DecodeRune's size: a malformed sequence is read one byte at a time.
  function RuneLen(s: Bytes): nat
    requires s != []
    ensures 0 < RuneLen(s) <= |s|
  {
    if Width(s) == 0 then 1 else Width(s)
  }

  function RuneCount(s: Bytes): nat
    decreases |s|
  {
    if s == [] then 0 else 1 + RuneCount(s[RuneLen(s)..])
  }

  predicate Valid(s: Bytes)
    decreases |s|
  {
    s == [] || (Width(s) > 0 && Valid(s[Width(s)..]))
  }

  const REPLACEMENT: Bytes := [0xEF, 0xBF, 0xBD]

  // What follows a string does not change its last rune, unless it continues it.
  lemma WidthAppend(a: Bytes, b: Bytes)
    requires a != [] && (b == [] || RuneStart(b[0]))
    ensures Width(a + b) == Width(a)
  {
  }

  /** Counting up to a rune start and on from there counts the whole, whatever the bytes. */
  lemma {:induction false} RuneCountAppend(a: Bytes, b: Bytes)
    requires a == [] || b == [] || RuneStart(b[0])
    ensures RuneCount(a + b) == RuneCount(a) + RuneCount(b)
    decreases |a|
  {
    if a == [] {
      assert a + b == b;
    } else {
      WidthAppend(a, b);
      var n := RuneLen(a);
      assert (a + b)[n..] == a[n..] + b;
      RuneCountAppend(a[n..], b);
    }
  }

  // Slicing here cuts no multi-byte sequence.
  predicate AtRune(data: Bytes, i: nat) { i == 0 || i >= |data| || RuneStart(data[i]) }

  lemma CountsOn(data: Bytes, from: nat, to: nat)
    requires from <= to <= |data|
    ensures AtRune(data, from) ==> RuneCount(data[..to]) == RuneCount(data[..from]) + RuneCount(data[from..to])
  {
    if AtRune(data, from) {
      assert data[..to] == data[..from] + data[from..to];
      RuneCountAppend(data[..from], data[from..to]);
    }
  }

  lemma WidthPrefix(a: Bytes, b: Bytes)
    requires a != [] && Width(a) > 0
    ensures Width(a + b) == Width(a)
  {
  }

  lemma {:induction false} ValidAppend(a: Bytes, b: Bytes)
    requires Valid(a) && Valid(b)
    ensures Valid(a + b)
    decreases |a|
  {
    if a == [] {
      assert a + b == b;
    } else {
      WidthPrefix(a, b);
      var n := Width(a);
      assert (a + b)[n..] == a[n..] + b;
      ValidAppend(a[n..], b);
    }
  }

  lemma OneRuneValid(s: Bytes)
    requires s != [] && Width(s) > 0
    ensures Valid(s[..Width(s)])
  {
    var w := Width(s);
    assert Width(s[..w]) == w;
    assert s[..w][w..] == [];
  }

  lemma ReplacementValid()
    ensures Width(REPLACEMENT) == 3 && Valid(REPLACEMENT)
  {
    assert REPLACEMENT[3..] == [];
  }

  // ---------------------------------------------------------------- the decoder

  predicate Printable(b: byte) { 31 < b < 127 }

  // DecodeRune answers utf8.RuneError, for a malformed sequence and for U+FFFD itself.
  predicate DecodesToError(s: Bytes)
    requires s != []
  {
    Width(s) == 0 || REPLACEMENT <= s
  }

  // How many bytes one turn of extractSubstrings takes, and what it writes for them.
  function Taken(s: Bytes): (n: nat)
    requires s != []
    ensures 0 < n <= |s|
  {
    if s[0] < 0x80 || DecodesToError(s) then 1 else Width(s)
  }

  predicate Kept(s: Bytes)
    requires s != []
  {
    if s[0] < 0x80 then Printable(s[0]) else !DecodesToError(s)
  }

  function Written(s: Bytes): Bytes
    requires s != []
  {
    if Kept(s) then s[..Taken(s)] else REPLACEMENT
  }

  function Substrings(s: Bytes): Bytes
    decreases |s|
  {
    if s == [] then [] else Written(s) + Substrings(s[Taken(s)..])
  }

  lemma TurnExtracts(b: Bytes, idx: nat)
    requires idx < |b|
    ensures var rest := b[idx..]; var n := Taken(rest);
      Substrings(rest) == Written(rest) + Substrings(b[idx + n..]) && rest[..n] == b[idx..idx + n]
  {
    var rest := b[idx..];
    assert rest[Taken(rest)..] == b[idx + Taken(rest)..];
  }

  method ExtractSubstrings(b: Bytes) returns (buf: Bytes)
    ensures buf == Substrings(b)
  {
    hide Width, Substrings;
    buf := [];
    var idx := 0;
    assert b[0..] == b;
    while idx < |b|
      invariant 0 <= idx <= |b|
      invariant buf + Substrings(b[idx..]) == Substrings(b)
    {
      var rest := b[idx..];
      TurnExtracts(b, idx);
      ghost var before := buf;
      if b[idx] < 0x80 {
        if Printable(b[idx]) {
          assert rest[..1] == [b[idx]];
          buf := buf + [b[idx]];
        } else {
          buf := buf + REPLACEMENT;
        }
        idx := idx + 1;
      } else {
        if DecodesToError(rest) {
          buf := buf + REPLACEMENT;
          idx := idx + 1;
        } else {
          var size := Width(rest);
          buf := buf + b[idx..idx + size];
          idx := idx + size;
        }
      }
      assert buf == before + Written(rest);
    }
    assert Substrings(b[idx..]) == [] by { NothingLeft(b[idx..]); }
  }

  lemma NothingLeft(b: Bytes)
    requires b == []
    ensures Substrings(b) == []
  {
  }

  // FromChunk's effect on the data; no chunk comes of an empty one.
  function FromChunk(data: Bytes): Bytes { if Valid(data) then data else Substrings(data) }

  lemma WrittenValid(s: Bytes)
    requires s != []
    ensures Valid(Written(s)) && |Written(s)| <= 3 * Taken(s)
  {
    ReplacementValid();
    if Kept(s) {
      OneRuneValid(s);
    }
  }

  /** Whatever the bytes, the result is valid UTF-8 and at most three times as long. */
  lemma {:induction false} SubstringsValid(s: Bytes)
    ensures Valid(Substrings(s)) && |Substrings(s)| <= 3 * |s|
    decreases |s|
  {
    if s != [] {
      var rest := s[Taken(s)..];
      SubstringsValid(rest);
      WrittenValid(s);
      ValidAppend(Written(s), Substrings(rest));
    }
  }

  /** Decoding twice is decoding once. */
  lemma FromChunkIdempotent(data: Bytes)
    ensures Valid(FromChunk(data)) && FromChunk(FromChunk(data)) == FromChunk(data)
  {
    if !Valid(data) { SubstringsValid(data); }
  }

  // ---------------------------------------------------------------- extracting twice

  // Printable ASCII and well-formed multi-byte characters, but no U+FFFD.
  predicate Clean(s: Bytes)
    decreases |s|
  {
    s == [] || (Kept(s) && Clean(s[Taken(s)..]))
  }

  lemma {:induction false} CleanStays(s: Bytes)
    requires Clean(s)
    ensures Substrings(s) == s
    decreases |s|
  {
    if s != [] {
      CleanStays(s[Taken(s)..]);
      assert s == s[..Taken(s)] + s[Taken(s)..];
    }
  }

  lemma KeptPrefix(s: Bytes, more: Bytes)
    requires s != [] && Kept(s)
    ensures var t := s[..Taken(s)] + more; Kept(t) && Taken(t) == Taken(s) && t[Taken(t)..] == more
  {
    var w := Taken(s);
    var t := s[..w] + more;
    assert w == Width(s) && forall i :: 0 <= i < w ==> t[i] == s[i];
    assert t[0] == 0xEF ==> t[..3] == s[..3];
  }

  lemma Unkept(s: Bytes)
    requires s != [] && (REPLACEMENT <= s || Continues(s[0]))
    ensures Substrings(s) == REPLACEMENT + Substrings(s[1..])
  {
    hide Substrings;
    assert Taken(s) == 1 && !Kept(s);
    SubstringsUnfold(s);
  }

  lemma SubstringsUnfold(s: Bytes)
    requires s != []
    ensures Substrings(s) == Written(s) + Substrings(s[Taken(s)..])
  {
  }

  lemma ReplacedTwice(more: Bytes)
    ensures Substrings(REPLACEMENT + more) == REPLACEMENT + REPLACEMENT + REPLACEMENT + Substrings(more)
  {
    hide Substrings, Kept, Taken;
    var s := REPLACEMENT + more;
    var s1, s2 := [0xBF, 0xBD] + more, [0xBD] + more;
    assert REPLACEMENT <= s && s[1..] == s1 && s1[1..] == s2 && s2[1..] == more;
    Unkept(s);
    Unkept(s1);
    Unkept(s2);
  }

  lemma {:induction false} NeverShrinks(s: Bytes)
    requires Valid(s)
    ensures |Substrings(s)| >= |s|
    decreases |s|
  {
    if s != [] {
      var w := Width(s);
      if Taken(s) == w {
        NeverShrinks(s[w..]);
      } else {
        ReplacedTwice(s[3..]);
        assert s == REPLACEMENT + s[3..];
        NeverShrinks(s[3..]);
      }
    }
  }

  lemma {:induction false} UncleanGrows(s: Bytes)
    requires !Clean(s)
    ensures |Substrings(Substrings(s))| > |Substrings(s)|
    decreases |s|
  {
    var n := Taken(s);
    var rest := Substrings(s[n..]);
    if Kept(s) {
      UncleanGrows(s[n..]);
      KeptPrefix(s, rest);
    } else {
      ReplacedTwice(rest);
      SubstringsValid(s[n..]);
      NeverShrinks(rest);
    }
  }

  /** Of the bytes of ASCII those from the space to '~' are copied, and the others become U+FFFD. */
  lemma AsciiKept(s: Bytes)
    requires s != [] && s[0] < 128
    ensures Substrings(s) == (if 32 <= s[0] <= 126 then [s[0]] else [239, 191, 189]) + Substrings(s[1..])
  {
    hide Substrings, DecodesToError, Width;
    SubstringsUnfold(s);
    assert s[..1] == [s[0]];
  }

  /** extractSubstrings alone is not idempotent: a second pass changes nothing if and only if the first
      one did not have to, and every U+FFFD it wrote becomes three. */
  lemma ExtractTwiceIff(s: Bytes)
    ensures Substrings(Substrings(s)) == Substrings(s) <==> Clean(s)
    ensures Clean(s) <==> Substrings(s) == s
  {
    if Clean(s) {
      CleanStays(s);
    } else {
      UncleanGrows(s);
    }
  }

  /** One malformed byte becomes U+FFFD, and three of them when it is extracted again. */
  lemma OneByteTwice()
    ensures Substrings([0xFF]) == REPLACEMENT
    ensures Substrings(Substrings([0xFF])) == REPLACEMENT + REPLACEMENT + REPLACEMENT
  {
    var s: Bytes := [0xFF];
    assert s[1..] == [];
    ReplacedTwice([]);
    assert REPLACEMENT + [] == REPLACEMENT;
  }
}
