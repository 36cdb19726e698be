/**
 The base64 decoder: collecting the runs of base64 characters of a chunk and replacing those that
 decode. Decoding a run (StdEncoding, RawURLEncoding and the ASCII check) is a parameter.
 */
module Base64 {
  import opened Options
  import opened Bytes

  const THRESHOLD := 20

  predicate IsEndChar(b: byte) { b == '+' as int || b == '/' as int || b == '-' as int || b == '_' as int || b == '=' as int }

  // The characters of both alphabets and the padding.
  predicate InCharset(b: byte) {
    ('A' as int <= b <= 'Z' as int) || ('a' as int <= b <= 'z' as int) || ('0' as int <= b <= '9' as int) || IsEndChar(b)
  }

  // ---------------------------------------------------------------- runs

  // data[from..to]
  datatype Span = Span(from: nat, to: nat)

  // '+', '-', '/', '=' and '_', and with them the letters and digits, by their numbers in ASCII.
  ghost predicate IsEnd(b: byte) { b == 43 || b == 45 || b == 47 || b == 61 || b == 95 }
  ghost predicate IsBase64(b: byte) { 65 <= b <= 90 || 97 <= b <= 122 || 48 <= b <= 57 || IsEnd(b) }

  // A longest stretch of base64 characters, of more than twenty.
  ghost predicate IsRun(data: Bytes, r: Span) {
    && r.from + 20 < r.to <= |data|
    && (forall k :: r.from <= k < r.to ==> IsBase64(data[k]))
    && (r.from == 0 || !IsBase64(data[r.from - 1]))
    && (r.to == |data| || !IsBase64(data[r.to]))
  }

  // The base64 characters that end at n.
  function Trailing(data: Bytes, n: nat): (c: nat)
    requires n <= |data|
    ensures c <= n
  {
    if n == 0 || !InCharset(data[n - 1]) then 0 else Trailing(data, n - 1) + 1
  }

  // The runs that have ended before n.
  function Closed(data: Bytes, n: nat): seq<Span>
    requires n <= |data|
  {
    if n == 0 then []
    else
      var c := Trailing(data, n - 1);
      Closed(data, n - 1) + if !InCharset(data[n - 1]) && c > THRESHOLD then [Span(n - 1 - c, n - 1)] else []
  }

  function Runs(data: Bytes): seq<Span> {
    var c := Trailing(data, |data|);
    Closed(data, |data|) + if c > THRESHOLD then [Span(|data| - c, |data|)] else []
  }

  lemma {:induction false} TrailingIs(data: Bytes, n: nat)
    requires n <= |data|
    ensures var c := Trailing(data, n);
      && (forall k :: n - c <= k < n ==> InCharset(data[k]))
      && (n - c == 0 || !InCharset(data[n - c - 1]))
  {
    if n > 0 && InCharset(data[n - 1]) { TrailingIs(data, n - 1); }
  }

  lemma {:induction false} ClosedAre(data: Bytes, n: nat)
    requires n <= |data|
    ensures forall r :: r in Closed(data, n) <==> IsRun(data, r) && r.to < n
    ensures forall i, j :: 0 <= i < j < |Closed(data, n)| ==> Closed(data, n)[i].to < Closed(data, n)[j].from
  {
    if n > 0 {
      ClosedAre(data, n - 1);
      TrailingIs(data, n - 1);
      var c := Trailing(data, n - 1);
      var before := Closed(data, n - 1);
      forall r | IsRun(data, r) && r.to == n - 1 ensures r == Span(n - 1 - c, n - 1) {
        assert IsBase64(data[r.from]);
      }
      if !InCharset(data[n - 1]) && c > THRESHOLD {
        assert IsRun(data, Span(n - 1 - c, n - 1));
        forall i | 0 <= i < |before| ensures before[i].to < n - 1 - c {
          assert before[i] in before;
          assert !InCharset(data[before[i].to]);
        }
      }
    }
  }

  /** The spans collected are exactly the longest stretches of more than the threshold, in order. */
  lemma RunsAreMaximal(data: Bytes)
    ensures forall r :: r in Runs(data) <==> IsRun(data, r)
    ensures forall i, j :: 0 <= i < j < |Runs(data)| ==> Runs(data)[i].to < Runs(data)[j].from
  {
    ClosedAre(data, |data|);
    TrailingIs(data, |data|);
    var n, c := |data|, Trailing(data, |data|);
    var closed := Closed(data, n);
    forall r | IsRun(data, r) && r.to == n ensures r == Span(n - c, n) {
      assert InCharset(data[r.from]);
    }
    if c > THRESHOLD {
      assert IsRun(data, Span(n - c, n));
      forall i | 0 <= i < |closed| ensures closed[i].to < n - c {
        assert closed[i] in closed;
        assert !InCharset(data[closed[i].to]);
      }
    }
  }

  // ---------------------------------------------------------------- the substring of a run

  // The first byte of data[from..to] that is not an end character.
  function TrimLeft(data: Bytes, from: nat, to: nat): (k: nat)
    requires from <= to <= |data|
    ensures from <= k <= to
    decreases |data| - from
  {
    if from < to && IsEndChar(data[from]) then TrimLeft(data, from + 1, to) else from
  }

  function TrimRight(data: Bytes, from: nat, to: nat): (k: nat)
    requires from <= to <= |data|
    ensures from <= k <= to
  {
    if from < to && IsEndChar(data[to - 1]) then TrimRight(data, from, to - 1) else to
  }

  // Past the first '=' of data[from..to], or `from` if there is none.
  function PastPadding(data: Bytes, from: nat, to: nat, k: nat): (p: nat)
    requires from <= k <= to <= |data|
    ensures from <= p <= to
    decreases |data| - k
  {
    if k == to then from else if data[k] == '=' as int then k + 1 else PastPadding(data, from, to, k + 1)
  }

  // appendB64Substring: a run without the end characters at its front, or what follows its first inner '='.
  function Substring(data: Bytes, r: Span): (s: Span)
    requires r.from <= r.to <= |data|
    ensures r.from <= s.from <= s.to == r.to
  {
    var from := TrimLeft(data, r.from, r.to);
    var to := TrimRight(data, from, r.to);
    Span(PastPadding(data, from, to, from), r.to)
  }

  // An '=' of the run with a byte that is no end character on either side.
  ghost predicate InnerPadding(data: Bytes, r: Span, i: int)
    requires r.to <= |data|
  {
    && r.from <= i < r.to && data[i] == 61
    && (exists a :: r.from <= a < i && !IsEnd(data[a])) && exists b :: i < b < r.to && !IsEnd(data[b])
  }

  lemma {:induction false} TrimmedLeft(data: Bytes, from: nat, to: nat)
    requires from <= to <= |data|
    ensures var k := TrimLeft(data, from, to); (forall i :: from <= i < k ==> IsEnd(data[i])) && (k < to ==> !IsEnd(data[k]))
    decreases |data| - from
  {
    if from < to && IsEndChar(data[from]) { TrimmedLeft(data, from + 1, to); }
  }

  lemma {:induction false} TrimmedRight(data: Bytes, from: nat, to: nat)
    requires from <= to <= |data|
    ensures var k := TrimRight(data, from, to); (forall i :: k <= i < to ==> IsEnd(data[i])) && (from < k ==> !IsEnd(data[k - 1]))
  {
    if from < to && IsEndChar(data[to - 1]) { TrimmedRight(data, from, to - 1); }
  }

  lemma {:induction false} PaddingPassed(data: Bytes, from: nat, to: nat, k: nat)
    requires from <= k <= to <= |data|
    ensures var p := PastPadding(data, from, to, k);
      if p == from then forall i :: k <= i < to ==> data[i] != 61
      else k < p && data[p - 1] == 61 && forall i :: k <= i < p - 1 ==> data[i] != 61
    decreases |data| - k
  {
    if k < to && data[k] != '=' as int { PaddingPassed(data, from, to, k + 1); }
  }

  /** A run with an inner '=' gives what follows the first of them; any other gives itself without the end
      characters at its front. */
  lemma SubstringIs(data: Bytes, r: Span)
    requires r.from <= r.to <= |data|
    ensures var s := Substring(data, r);
      && s.to == r.to
      && ((exists i :: InnerPadding(data, r, i)) ==> InnerPadding(data, r, s.from - 1) && forall i :: i < s.from - 1 ==> !InnerPadding(data, r, i))
      && ((forall i :: !InnerPadding(data, r, i)) ==>
            (forall k :: r.from <= k < s.from ==> IsEnd(data[k])) && (s.from < s.to ==> !IsEnd(data[s.from])))
  {
    var from := TrimLeft(data, r.from, r.to);
    var to := TrimRight(data, from, r.to);
    TrimmedLeft(data, r.from, r.to);
    TrimmedRight(data, from, r.to);
    PaddingPassed(data, from, to, from);
    hide TrimLeft, TrimRight, PastPadding;
    var p := PastPadding(data, from, to, from);
    if p != from {
      assert !IsEnd(data[from]) && !IsEnd(data[to - 1]);
      assert InnerPadding(data, r, p - 1);
    }
    forall i | InnerPadding(data, r, i) ensures from <= i < to && data[i] == 61 {
      var a :| r.from <= a < i && !IsEnd(data[a]);
      var b :| i < b < r.to && !IsEnd(data[b]);
    }
  }

  predicate AreWithin(data: Bytes, rs: seq<Span>) { forall i :: 0 <= i < |rs| ==> rs[i].from <= rs[i].to <= |data| }

  function Substrings(data: Bytes, rs: seq<Span>): (ss: seq<Span>)
    requires AreWithin(data, rs)
    ensures |ss| == |rs| && forall i :: 0 <= i < |rs| ==> ss[i] == Substring(data, rs[i])
  {
    if rs == [] then [] else Substrings(data, rs[..|rs| - 1]) + [Substring(data, rs[|rs| - 1])]
  }

  lemma {:induction false} ClosedWithin(data: Bytes, n: nat)
    requires n <= |data|
    ensures AreWithin(data, Closed(data, n))
  {
    if n > 0 { ClosedWithin(data, n - 1); }
  }

  // The counting pass.
  method CountSubstrings(data: Bytes) returns (counted: nat)
    ensures counted == |Runs(data)|
  {
    hide InCharset;
    var count: nat := 0;
    counted := 0;
    for i := 0 to |data|
      invariant count == Trailing(data, i) && counted == |Closed(data, i)|
    {
      if InCharset(data[i]) {
        count := count + 1;
      } else {
        if count > THRESHOLD { counted := counted + 1; }
        count := 0;
      }
    }
    if count > THRESHOLD { counted := counted + 1; }
  }

  // The collecting pass.
  method CollectSubstrings(data: Bytes) returns (substrings: seq<Span>)
    ensures AreWithin(data, Runs(data)) && substrings == Substrings(data, Runs(data))
  {
    hide InCharset, Substring, Substrings;
    var count: nat, start: nat := 0, 0;
    substrings := [];
    assert Substrings(data, []) == [] by { NoSubstrings(data); }
    for i := 0 to |data|
      invariant AreWithin(data, Closed(data, i))
      invariant count == Trailing(data, i) && (count > 0 ==> start == i - count)
      invariant substrings == Substrings(data, Closed(data, i))
    {
      ClosedWithin(data, i + 1);
      if InCharset(data[i]) {
        if count == 0 { start := i; }
        count := count + 1;
      } else {
        if count > THRESHOLD {
          SubstringsPush(data, Closed(data, i), Span(start, start + count));
          substrings := substrings + [Substring(data, Span(start, start + count))];
        }
        count := 0;
      }
    }
    if count > THRESHOLD {
      SubstringsPush(data, Closed(data, |data|), Span(start, start + count));
      substrings := substrings + [Substring(data, Span(start, start + count))];
    }
  }

  lemma NoSubstrings(data: Bytes)
    ensures Substrings(data, []) == []
  {
  }

  /** getSubstringsOfCharacterSet: the counting pass finds as many substrings as the second collects. */
  method GetSubstrings(data: Bytes) returns (substrings: seq<Span>, counted: nat)
    ensures AreWithin(data, Runs(data)) && substrings == Substrings(data, Runs(data)) && counted == |substrings|
  {
    counted := CountSubstrings(data);
    substrings := CollectSubstrings(data);
  }

  lemma SubstringsPush(data: Bytes, rs: seq<Span>, r: Span)
    requires AreWithin(data, rs)
    requires r.from <= r.to <= |data|
    ensures Substrings(data, rs + [r]) == Substrings(data, rs) + [Substring(data, r)]
  {
    assert (rs + [r])[..|rs|] == rs;
  }

  // ---------------------------------------------------------------- FromChunk

  // The text a run decodes to, if it does; never empty.
  type Decoder = Bytes -> Option<Bytes>

  // data[at..to] was replaced by `text`.
  datatype Site = Site(at: nat, to: nat, text: Bytes)

  // Where the substrings that decode are found, searching forward from `start`.
  function Sites(data: Bytes, decode: Decoder, ss: seq<Span>, start: nat): seq<Site>
    requires AreWithin(data, ss) && start <= |data|
    decreases |ss|
  {
    if ss == [] then []
    else
      var encoded := data[ss[0].from..ss[0].to];
      match decode(encoded)
      case None => Sites(data, decode, ss[1..], start)
      case Some(text) =>
        var at := IndexFrom(data, encoded, start);
        if at == -1 then Sites(data, decode, ss[1..], start)
        else [Site(at, at + |encoded|, text)] + Sites(data, decode, ss[1..], at + |encoded|)
  }

  predicate SitesFit(data: Bytes, sites: seq<Site>, start: nat) {
    && (forall i :: 0 <= i < |sites| ==> start <= sites[i].at <= sites[i].to <= |data|)
    && (forall i, j :: 0 <= i < j < |sites| ==> sites[i].to <= sites[j].at)
  }

  // The data from `start` on with the sites replaced and every other byte as it was.
  function Spliced(data: Bytes, sites: seq<Site>, start: nat): Bytes
    requires SitesFit(data, sites, start) && start <= |data|
    decreases |sites|
  {
    if sites == [] then data[start..]
    else data[start..sites[0].at] + sites[0].text + Spliced(data, sites[1..], sites[0].to)
  }

  // The substrings that decode.
  function Decodable(data: Bytes, decode: Decoder, ss: seq<Span>): seq<Span>
    requires AreWithin(data, ss)
  {
    if ss == [] then []
    else (if decode(data[ss[0].from..ss[0].to]).Some? then [ss[0]] else []) + Decodable(data, decode, ss[1..])
  }

  predicate Ascending(ss: seq<Span>) { forall i, j :: 0 <= i < j < |ss| ==> ss[i].to <= ss[j].from }

  // The site is a copy of the substring, at its own place or before it, and decoded.
  predicate SiteOf(data: Bytes, decode: Decoder, s: Span, site: Site)
    requires s.from <= s.to <= |data|
  {
    && site.at <= s.from && site.to - site.at == s.to - s.from && site.at <= site.to <= |data|
    && data[site.at..site.to] == data[s.from..s.to]
    && decode(data[s.from..s.to]) == Some(site.text)
  }

  lemma RestWithin(data: Bytes, ss: seq<Span>)
    requires AreWithin(data, ss) && ss != []
    ensures AreWithin(data, ss[1..]) && (Ascending(ss) ==> Ascending(ss[1..]))
  {
  }

  lemma FoundAt(data: Bytes, s: Span, start: nat)
    requires start <= s.from <= s.to <= |data|
    ensures var encoded, at := data[s.from..s.to], IndexFrom(data, data[s.from..s.to], start);
      start <= at <= s.from && MatchAt(data, encoded, at)
  {
    var encoded := data[s.from..s.to];
    IndexFinds(data, encoded, start);
    assert MatchAt(data, encoded, s.from);
  }

  lemma SitesPush(data: Bytes, decode: Decoder, s: Span, site: Site, found: seq<Span>, sites: seq<Site>, start: nat)
    requires s.from <= s.to <= |data| && AreWithin(data, found) && |sites| == |found| && SitesFit(data, sites, site.to)
    requires start <= site.at && SiteOf(data, decode, s, site)
    requires forall i :: 0 <= i < |sites| ==> SiteOf(data, decode, found[i], sites[i])
    ensures SitesFit(data, [site] + sites, start) && AreWithin(data, [s] + found)
    ensures forall i :: 0 <= i < |[site] + sites| ==> SiteOf(data, decode, ([s] + found)[i], ([site] + sites)[i])
  {
    var all, spans := [site] + sites, [s] + found;
    assert all[0] == site && spans[0] == s;
    assert site.to <= |data|;
    hide SiteOf;
    assert forall i :: 0 < i < |all| ==> all[i] == sites[i - 1] && spans[i] == found[i - 1];
  }

  /** The forward search finds every substring that decodes: the sites are copies of them, in order and
      apart, none after its own place. */
  lemma {:induction false} EveryDecodableFound(data: Bytes, decode: Decoder, ss: seq<Span>, start: nat)
    requires AreWithin(data, ss) && Ascending(ss) && start <= |data| && (ss != [] ==> start <= ss[0].from)
    ensures var sites, found := Sites(data, decode, ss, start), Decodable(data, decode, ss);
      && |sites| == |found| && SitesFit(data, sites, start) && AreWithin(data, found)
      && forall i :: 0 <= i < |sites| ==> SiteOf(data, decode, found[i], sites[i])
    decreases |ss|
  {
    if ss != [] {
      RestWithin(data, ss);
      var s := ss[0];
      var encoded := data[s.from..s.to];
      if ss[1..] != [] { assert ss[1..][0] == ss[1]; }
      match decode(encoded)
      case None => EveryDecodableFound(data, decode, ss[1..], start);
      case Some(text) =>
        FoundAt(data, s, start);
        var at := IndexFrom(data, encoded, start);
        EveryDecodableFound(data, decode, ss[1..], at + |encoded|);
        hide IndexFrom;
        var rest, found := Sites(data, decode, ss[1..], at + |encoded|), Decodable(data, decode, ss[1..]);
        var site := Site(at, at + |encoded|, text);
        assert Sites(data, decode, ss, start) == [site] + rest && Decodable(data, decode, ss) == [s] + found;
        assert SiteOf(data, decode, s, site);
        hide Sites, Decodable;
        SitesPush(data, decode, s, site, found, rest, start);
    }
  }

  lemma SubstringsAscend(data: Bytes)
    ensures AreWithin(data, Runs(data)) && Ascending(Substrings(data, Runs(data)))
    ensures AreWithin(data, Substrings(data, Runs(data)))
  {
    RunsAreMaximal(data);
    ClosedWithin(data, |data|);
    hide Closed, Trailing, Substring;
    var rs, ss := Runs(data), Substrings(data, Runs(data));
    forall i | 0 <= i < |ss| ensures rs[i].from <= ss[i].from <= ss[i].to == rs[i].to { SubstringWithin(data, rs[i]); }
  }

  lemma SubstringWithin(data: Bytes, r: Span)
    requires r.from <= r.to <= |data|
    ensures r.from <= Substring(data, r).from <= Substring(data, r).to == r.to
  {
  }

  // The chunk's substrings that decode.
  function Encoded(data: Bytes, decode: Decoder): seq<Span> {
    SubstringsAscend(data);
    Decodable(data, decode, Substrings(data, Runs(data)))
  }

  // Where they are found.
  function Placed(data: Bytes, decode: Decoder): (sites: seq<Site>)
    ensures SitesFit(data, sites, 0)
  {
    SubstringsAscend(data);
    EveryDecodableFound(data, decode, Substrings(data, Runs(data)), 0);
    Sites(data, decode, Substrings(data, Runs(data)), 0)
  }

  function Decoded(data: Bytes, decode: Decoder): Option<Bytes> {
    if Encoded(data, decode) == [] then None else Some(Spliced(data, Placed(data, decode), 0))
  }

  // ---------------------------------------------------------------- at their own places

  // No copy of the span's text begins before it, from `start` on.
  predicate NoCopyBefore(data: Bytes, s: Span, start: nat)
    requires s.from <= s.to <= |data|
  {
    forall k :: start <= k < s.from ==> !MatchAt(data, data[s.from..s.to], k)
  }

  // Where the search for span i starts if those before it were found at their own places.
  function SearchStart(ss: seq<Span>, i: nat, start: nat): nat
    requires i < |ss|
  {
    if i == 0 then start else ss[i - 1].to
  }

  // Each span is the first copy of its text after the span before it.
  predicate FirstCopies(data: Bytes, ss: seq<Span>, start: nat)
    requires AreWithin(data, ss)
  {
    forall i :: 0 <= i < |ss| ==> NoCopyBefore(data, ss[i], SearchStart(ss, i, start))
  }

  predicate AtOwnPlaces(ss: seq<Span>, sites: seq<Site>) {
    |sites| == |ss| && forall i :: 0 <= i < |ss| ==> sites[i].at == ss[i].from && sites[i].to == ss[i].to
  }

  lemma FirstCopiesPush(data: Bytes, s: Span, ss: seq<Span>, start: nat)
    requires AreWithin(data, [s] + ss) && AreWithin(data, ss) && s.from <= s.to <= |data|
    ensures FirstCopies(data, [s] + ss, start) <==> NoCopyBefore(data, s, start) && FirstCopies(data, ss, s.to)
  {
    hide NoCopyBefore;
    var all := [s] + ss;
    assert all[0] == s && SearchStart(all, 0, start) == start;
    assert forall i :: 0 < i < |all| ==> all[i] == ss[i - 1] && SearchStart(all, i, start) == SearchStart(ss, i - 1, s.to);
    if FirstCopies(data, all, start) {
      assert NoCopyBefore(data, all[0], SearchStart(all, 0, start));
      forall i | 0 <= i < |ss| ensures NoCopyBefore(data, ss[i], SearchStart(ss, i, s.to)) {
        assert NoCopyBefore(data, all[i + 1], SearchStart(all, i + 1, start));
      }
    }
  }

  lemma OwnPlacesPush(s: Span, ss: seq<Span>, site: Site, sites: seq<Site>)
    ensures AtOwnPlaces([s] + ss, [site] + sites) <==> site.at == s.from && site.to == s.to && AtOwnPlaces(ss, sites)
  {
    var spans, all := [s] + ss, [site] + sites;
    if AtOwnPlaces(spans, all) {
      assert all[0] == site && spans[0] == s;
      forall i | 0 <= i < |ss| ensures sites[i].at == ss[i].from && sites[i].to == ss[i].to {
        assert all[i + 1] == sites[i] && spans[i + 1] == ss[i];
      }
    }
  }

  lemma FoundInPlace(data: Bytes, s: Span, start: nat)
    requires start <= s.from <= s.to <= |data|
    ensures IndexFrom(data, data[s.from..s.to], start) == s.from <==> NoCopyBefore(data, s, start)
  {
    var encoded := data[s.from..s.to];
    IndexFinds(data, encoded, start);
    assert MatchAt(data, encoded, s.from);
  }

  lemma {:induction false} DecodableWithin(data: Bytes, decode: Decoder, ss: seq<Span>)
    requires AreWithin(data, ss)
    ensures AreWithin(data, Decodable(data, decode, ss))
  {
    if ss != [] { DecodableWithin(data, decode, ss[1..]); }
  }

  // The first substring decodes: it is found at its own place, or the search goes wrong there.
  lemma OwnPlaceFirst(data: Bytes, s: Span, found: seq<Span>, site: Site, sites: seq<Site>, start: nat)
    requires start <= s.from <= s.to <= |data| && AreWithin(data, found) && AreWithin(data, [s] + found)
    requires site.at == IndexFrom(data, data[s.from..s.to], start) && site.to == site.at + (s.to - s.from)
    requires site.to == s.to ==> (AtOwnPlaces(found, sites) <==> FirstCopies(data, found, s.to))
    ensures AtOwnPlaces([s] + found, [site] + sites) <==> FirstCopies(data, [s] + found, start)
  {
    hide FirstCopies, AtOwnPlaces, NoCopyBefore, IndexFrom;
    FoundInPlace(data, s, start);
    OwnPlacesPush(s, found, site, sites);
    FirstCopiesPush(data, s, found, start);
  }

  /** The substrings that decode are replaced at their own places if and only if each is the first copy of
      its text after the decodable one before it. */
  lemma {:induction false} OwnPlacesIff(data: Bytes, decode: Decoder, ss: seq<Span>, start: nat)
    requires AreWithin(data, ss) && Ascending(ss) && start <= |data| && (ss != [] ==> start <= ss[0].from)
    ensures AreWithin(data, Decodable(data, decode, ss))
    ensures AtOwnPlaces(Decodable(data, decode, ss), Sites(data, decode, ss, start)) <==>
      FirstCopies(data, Decodable(data, decode, ss), start)
    decreases |ss|
  {
    DecodableWithin(data, decode, ss);
    if ss != [] {
      RestWithin(data, ss);
      var s := ss[0];
      var encoded := data[s.from..s.to];
      if ss[1..] != [] { assert ss[1..][0] == ss[1]; }
      hide FirstCopies, AtOwnPlaces, IndexFrom;
      match decode(encoded)
      case None =>
        assert Decodable(data, decode, ss) == Decodable(data, decode, ss[1..]);
        OwnPlacesIff(data, decode, ss[1..], start);
      case Some(text) =>
        FoundAt(data, s, start);
        var at := IndexFrom(data, encoded, start);
        var sites, found := Sites(data, decode, ss[1..], at + |encoded|), Decodable(data, decode, ss[1..]);
        assert Sites(data, decode, ss, start) == [Site(at, at + |encoded|, text)] + sites;
        assert Decodable(data, decode, ss) == [s] + found;
        OwnPlacesIff(data, decode, ss[1..], at + |encoded|);
        hide Sites, Decodable;
        OwnPlaceFirst(data, s, found, Site(at, at + |encoded|, text), sites, start);
    }
  }

  // `n` times the letter A.
  function As(n: nat): Bytes { seq(n, _ => 'A' as int) }

  // 25 letters A, which decode in neither alphabet, and 22, which do.
  function TwoRuns(): Bytes { As(25) + [32] + As(22) }

  lemma Pair(rs: seq<Span>, a: Span, b: Span)
    requires forall r :: r in rs <==> r == a || r == b
    requires forall i, j :: 0 <= i < j < |rs| ==> rs[i].to < rs[j].from
    requires a.from < a.to < b.from < b.to
    ensures rs == [a, b]
  {
    assert a in rs && b in rs;
    var i :| 0 <= i < |rs| && rs[i] == a;
    var j :| 0 <= j < |rs| && rs[j] == b;
    assert i < j;
    forall k | 0 <= k < |rs| ensures (rs[k] == a && k == i) || (rs[k] == b && k == j) {
      assert rs[k] in rs;
    }
    assert rs[0] == a && rs[1] == b && j == 1;
    assert rs[|rs| - 1] in rs;
  }

  lemma TwoRunsBytes()
    ensures |TwoRuns()| == 48 && !IsBase64(TwoRuns()[25])
    ensures forall k :: 0 <= k < 48 && k != 25 ==> IsBase64(TwoRuns()[k])
  {
  }

  lemma RunsAround(data: Bytes, r: Span)
    requires |data| == 48 && !IsBase64(data[25]) && forall k :: 0 <= k < 48 && k != 25 ==> IsBase64(data[k])
    ensures IsRun(data, r) <==> r == Span(0, 25) || r == Span(26, 48)
  {
    hide IsBase64;
    if IsRun(data, r) {
      assert r.from < 25 ==> r.to <= 25;
      assert r.from >= 25 ==> r.from >= 26;
    }
  }

  lemma TwoRunsAre()
    ensures Runs(TwoRuns()) == [Span(0, 25), Span(26, 48)]
  {
    var data, rs := TwoRuns(), Runs(TwoRuns());
    RunsAreMaximal(data);
    TwoRunsBytes();
    hide *;
    forall r ensures IsRun(data, r) <==> r == Span(0, 25) || r == Span(26, 48) { RunsAround(data, r); }
    Pair(rs, Span(0, 25), Span(26, 48));
  }

  lemma {:induction false} NoPadding(data: Bytes, from: nat, to: nat, k: nat)
    requires from <= k <= to <= |data| && forall i :: k <= i < to ==> data[i] != '=' as int
    ensures PastPadding(data, from, to, k) == from
    decreases |data| - k
  {
    if k < to { NoPadding(data, from, to, k + 1); }
  }

  lemma RunOfAs(data: Bytes, r: Span)
    requires r.from < r.to <= |data| && forall k :: r.from <= k < r.to ==> data[k] == 'A' as int
    ensures Substring(data, r) == r
  {
    NoPadding(data, r.from, r.to, r.from);
  }

  lemma TwoSubstrings()
    ensures Substrings(TwoRuns(), [Span(0, 25), Span(26, 48)]) == [Span(0, 25), Span(26, 48)]
  {
    var data := TwoRuns();
    RunOfAs(data, Span(0, 25));
    RunOfAs(data, Span(26, 48));
    hide Substring;
  }

  lemma SitesSkip(data: Bytes, decode: Decoder, a: Span, ss: seq<Span>)
    requires AreWithin(data, [a] + ss) && AreWithin(data, ss) && a.from <= a.to <= |data| && decode(data[a.from..a.to]).None?
    ensures Sites(data, decode, [a] + ss, 0) == Sites(data, decode, ss, 0) && Decodable(data, decode, [a] + ss) == Decodable(data, decode, ss)
  {
    hide IndexFrom, AreWithin;
    assert ([a] + ss)[1..] == ss;
    assert [] + Decodable(data, decode, ss) == Decodable(data, decode, ss);
  }

  lemma SitesAlone(data: Bytes, decode: Decoder, b: Span, text: Bytes)
    requires AreWithin(data, [b]) && b.from <= b.to <= |data| && decode(data[b.from..b.to]) == Some(text)
    requires IndexFrom(data, data[b.from..b.to], 0) == 0
    ensures Sites(data, decode, [b], 0) == [Site(0, b.to - b.from, text)] && Decodable(data, decode, [b]) == [b]
  {
    hide IndexFrom;
    assert [b][1..] == [];
    assert Sites(data, decode, [], b.to - b.from) == [] && Decodable(data, decode, []) == [];
  }

  // Of two substrings only the second decodes, and data begins with a copy of it.
  lemma SecondAtFront(data: Bytes, decode: Decoder, a: Span, b: Span, text: Bytes)
    requires AreWithin(data, [a, b]) && a.from <= a.to <= |data| && b.from <= b.to <= |data|
    requires decode(data[a.from..a.to]).None? && decode(data[b.from..b.to]) == Some(text)
    requires IndexFrom(data, data[b.from..b.to], 0) == 0
    ensures Sites(data, decode, [a, b], 0) == [Site(0, b.to - b.from, text)] && Decodable(data, decode, [a, b]) == [b]
  {
    assert [a, b] == [a] + [b];
    hide IndexFrom, Sites, Decodable;
    SitesSkip(data, decode, a, [b]);
    SitesAlone(data, decode, b, text);
  }

  lemma OneSite(data: Bytes, to: nat, text: Bytes)
    requires to <= |data|
    ensures SitesFit(data, [Site(0, to, text)], 0) && SitesFit(data, [], to) && Spliced(data, [], to) == data[to..]
  {
  }

  lemma SplicedAtFront(data: Bytes, to: nat, text: Bytes)
    requires to <= |data|
    ensures SitesFit(data, [Site(0, to, text)], 0) && Spliced(data, [Site(0, to, text)], 0) == text + data[to..]
  {
    OneSite(data, to, text);
    hide SitesFit, Spliced;
    var site := Site(0, to, text);
    assert [site] + [] == [site] && data[0..0] == [];
    SplicedFirst(data, site, [], 0);
  }

  lemma TwoRunsText()
    ensures var data := TwoRuns();
      |data| == 48 && data[0..25] == As(25) && data[26..48] == As(22) && data[0..22] == As(22) &&
      data[22..] == As(3) + [32] + As(22)
  {
  }

  /** The text of a run can land in another one: the first run does not decode and stays, but begins with
      a copy of the second, which is replaced there while the second stays encoded. */
  lemma TextLandsInOtherRun(decode: Decoder, text: Bytes)
    requires decode(As(25)).None? && decode(As(22)) == Some(text)
    ensures Encoded(TwoRuns(), decode) == [Span(26, 48)] && Placed(TwoRuns(), decode) == [Site(0, 22, text)]
    ensures Decoded(TwoRuns(), decode) == Some(text + (As(3) + [32] + As(22)))
  {
    TwoRunsAre();
    TwoSubstrings();
    TwoRunsText();
    var data := TwoRuns();
    AtFront(data, As(22));
    hide Runs, Substrings, IndexFrom, TwoRuns, As, Sites, Decodable, Spliced, SitesFit;
    SecondAtFront(data, decode, Span(0, 25), Span(26, 48), text);
    SplicedAtFront(data, 22, text);
  }

  lemma AtFront(data: Bytes, sep: Bytes)
    requires sep <= data
    ensures IndexFrom(data, sep, 0) == 0
  {
  }

  /** Nothing if no substring decodes; else the chunk with one copy of each that does replaced by its
      text, in order and apart, and every other byte copied. The copies are the substrings themselves if and
      only if each is the first copy of its text after the decodable one before it. */
  method FromChunk(data: Bytes, decode: Decoder) returns (out: Option<Bytes>)
    ensures out == Decoded(data, decode)
    ensures var found, sites := Encoded(data, decode), Placed(data, decode);
      && AreWithin(data, found) && |sites| == |found|
      && (forall i :: 0 <= i < |sites| ==> SiteOf(data, decode, found[i], sites[i]))
      && (AtOwnPlaces(found, sites) <==> FirstCopies(data, found, 0))
  {
    SubstringsAscend(data);
    var substrings, _ := GetSubstrings(data);
    EveryDecodableFound(data, decode, substrings, 0);
    OwnPlacesIff(data, decode, substrings, 0);
    hide Sites, Decodable, Runs, Substrings, Spliced, SiteOf, AtOwnPlaces, FirstCopies;
    var any := SomeDecodable(data, decode, substrings);
    if !any { return None; }
    var result := Replace(data, decode, substrings);
    out := Some(result);
  }

  method SomeDecodable(data: Bytes, decode: Decoder, ss: seq<Span>) returns (any: bool)
    requires AreWithin(data, ss)
    ensures any <==> Decodable(data, decode, ss) != []
  {
    any := false;
    assert ss[0..] == ss;
    for i := 0 to |ss|
      invariant any || Decodable(data, decode, ss) == Decodable(data, decode, ss[i..])
      invariant any ==> Decodable(data, decode, ss) != []
    {
      assert ss[i..][0] == ss[i] && ss[i..][1..] == ss[i + 1..];
      any := any || decode(data[ss[i].from..ss[i].to]).Some?;
    }
  }

  // One substring of the search.
  lemma SitesTurn(data: Bytes, decode: Decoder, ss: seq<Span>, i: nat, start: nat)
    requires AreWithin(data, ss) && i < |ss| && start <= |data|
    ensures AreWithin(data, ss[i..]) && AreWithin(data, ss[i + 1..])
    ensures var encoded := data[ss[i].from..ss[i].to]; var at := IndexFrom(data, encoded, start);
      Sites(data, decode, ss[i..], start) ==
        if decode(encoded).None? || at == -1 then Sites(data, decode, ss[i + 1..], start)
        else [Site(at, at + |encoded|, decode(encoded).value)] + Sites(data, decode, ss[i + 1..], at + |encoded|)
  {
    assert ss[i..][0] == ss[i] && ss[i..][1..] == ss[i + 1..];
    hide IndexFrom;
  }

  lemma SplicedFirst(data: Bytes, site: Site, rest: seq<Site>, start: nat)
    requires start <= site.at <= site.to <= |data| && SitesFit(data, [site] + rest, start)
    ensures SitesFit(data, rest, site.to)
    ensures Spliced(data, [site] + rest, start) == data[start..site.at] + site.text + Spliced(data, rest, site.to)
  {
    var all := [site] + rest;
    assert all[0] == site && all[1..] == rest;
    forall k | 0 <= k < |rest| ensures site.to <= rest[k].at <= rest[k].to <= |data| {
      assert all[k + 1] == rest[k];
    }
    forall k, l | 0 <= k < l < |rest| ensures rest[k].to <= rest[l].at {
      assert all[k + 1] == rest[k] && all[l + 1] == rest[l];
    }
  }

  // The loop over the substrings, forward from the end of the last one replaced.
  method Replace(data: Bytes, decode: Decoder, ss: seq<Span>) returns (result: Bytes)
    requires AreWithin(data, ss) && SitesFit(data, Sites(data, decode, ss, 0), 0)
    ensures result == Spliced(data, Sites(data, decode, ss, 0), 0)
  {
    hide Sites, Spliced, SitesFit, IndexFrom, Index;
    result := [];
    var start: nat := 0;
    assert ss[0..] == ss;
    for i := 0 to |ss|
      invariant start <= |data| && AreWithin(data, ss[i..])
      invariant SitesFit(data, Sites(data, decode, ss[i..], start), start)
      invariant result + Spliced(data, Sites(data, decode, ss[i..], start), start) == Spliced(data, Sites(data, decode, ss, 0), 0)
    {
      SitesTurn(data, decode, ss, i, start);
      var encoded := data[ss[i].from..ss[i].to];
      match decode(encoded) {
        case None =>
        case Some(text) =>
          IndexInSuffix(data, encoded, start);
          var end := Index(data[start..], encoded);
          if end != -1 {
            var next := start + end + |encoded|;
            SplicedFirst(data, Site(start + end, next, text), Sites(data, decode, ss[i + 1..], next), start);
            result := result + (data[start..start + end] + text);
            start := next;
          }
      }
    }
    EndOfSites(data, decode, ss[|ss|..], start);
    result := result + data[start..];
  }

  lemma EndOfSites(data: Bytes, decode: Decoder, ss: seq<Span>, start: nat)
    requires ss == [] && start <= |data|
    ensures AreWithin(data, ss) && Sites(data, decode, ss, start) == [] && SitesFit(data, [], start)
    ensures Spliced(data, [], start) == data[start..]
  {
  }
}
