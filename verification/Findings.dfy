/**
 Resolving the findings of a request: dedupeOverlapping and placeLogins.
 */
module Findings {

  // Scores are finite, so a real stands for the float64.
  datatype Finding = Finding(entity: string, start: int, end: int, score: real)

  const ENTROPY_NAME := "entropy-secret"
  const GENERIC_SECRET_NAME := "generic-secret"
  const URL_LOGIN_CREDENTIAL_NAME := "url-login-credential"

  function EntityRank(name: string): nat {
    if name == ENTROPY_NAME then 2
    else if name == GENERIC_SECRET_NAME || name == URL_LOGIN_CREDENTIAL_NAME then 1
    else 0
  }

  predicate Overlaps(a: Finding, b: Finding) { a.start < b.end && b.start < a.end }

  // A finding is over the runes of a value that is not empty.
  predicate Spans(fs: seq<Finding>) { forall f :: f in fs ==> f.start < f.end }

  // ---------------------------------------------------------------- sort.SliceStable

  datatype Order = ByRank | ByStart

  predicate Less(o: Order, a: Finding, b: Finding) {
    match o
    case ByStart => a.start < b.start
    case ByRank =>
      if a.score != b.score then a.score > b.score
      else if EntityRank(a.entity) != EntityRank(b.entity) then EntityRank(a.entity) < EntityRank(b.entity)
      else if a.end - a.start != b.end - b.start then a.end - a.start > b.end - b.start
      else a.start < b.start
  }

  // x in its place after those not greater.
  function Insert(o: Order, s: seq<Finding>, x: Finding): seq<Finding> {
    if s != [] && Less(o, x, s[|s| - 1]) then Insert(o, s[..|s| - 1], x) + [s[|s| - 1]] else s + [x]
  }

  function StableSort(o: Order, s: seq<Finding>): seq<Finding> {
    if s == [] then [] else Insert(o, StableSort(o, s[..|s| - 1]), s[|s| - 1])
  }

  predicate Sorted(o: Order, s: seq<Finding>) { forall i, j :: 0 <= i < j < |s| ==> !Less(o, s[j], s[i]) }

  lemma NotLessTransitive(o: Order, a: Finding, b: Finding, c: Finding)
    requires !Less(o, b, a) && !Less(o, c, b)
    ensures !Less(o, c, a)
  {
  }

  lemma SortedPush(o: Order, s: seq<Finding>, x: Finding)
    requires Sorted(o, s) && forall i :: 0 <= i < |s| ==> !Less(o, x, s[i])
    ensures Sorted(o, s + [x])
  {
    hide Less;
  }

  lemma {:induction false} InsertSorts(o: Order, s: seq<Finding>, x: Finding)
    requires Sorted(o, s)
    ensures Sorted(o, Insert(o, s, x)) && multiset(Insert(o, s, x)) == multiset(s) + multiset{x}
  {
    if s != [] && Less(o, x, s[|s| - 1]) {
      var last, before := s[|s| - 1], s[..|s| - 1];
      InsertSorts(o, before, x);
      NotLessBack(o, x, last);
      hide Less;
      var r := Insert(o, before, x);
      assert s == before + [last];
      forall i | 0 <= i < |r| ensures !Less(o, last, r[i]) {
        assert r[i] in multiset(r);
        if r[i] != x { assert r[i] in before; }
      }
      SortedPush(o, r, last);
    } else if s != [] {
      forall i | 0 <= i < |s| ensures !Less(o, x, s[i]) {
        if i < |s| - 1 { NotLessTransitive(o, s[i], s[|s| - 1], x); }
      }
      hide Less;
      SortedPush(o, s, x);
    }
  }

  lemma NotLessBack(o: Order, a: Finding, b: Finding)
    requires Less(o, a, b)
    ensures !Less(o, b, a)
  {
  }

  lemma {:induction false} SortSorts(o: Order, s: seq<Finding>)
    ensures Sorted(o, StableSort(o, s)) && multiset(StableSort(o, s)) == multiset(s)
  {
    if s != [] {
      SortSorts(o, s[..|s| - 1]);
      InsertSorts(o, StableSort(o, s[..|s| - 1]), s[|s| - 1]);
      assert s == s[..|s| - 1] + [s[|s| - 1]];
    }
  }

  // The findings of s that x ties with, in order.
  function Ties(o: Order, s: seq<Finding>, x: Finding): seq<Finding> {
    if s == [] then []
    else
      var before, y := s[..|s| - 1], s[|s| - 1];
      if Less(o, x, y) || Less(o, y, x) then Ties(o, before, x) else Ties(o, before, x) + [y]
  }

  lemma TiesPush(o: Order, s: seq<Finding>, y: Finding, x: Finding)
    ensures Ties(o, s + [y], x) == if Less(o, x, y) || Less(o, y, x) then Ties(o, s, x) else Ties(o, s, x) + [y]
  {
    hide Less;
    assert (s + [y])[..|s|] == s;
  }

  lemma InsertStep(o: Order, s: seq<Finding>, y: Finding)
    requires s != []
    ensures Insert(o, s, y) == if Less(o, y, s[|s| - 1]) then Insert(o, s[..|s| - 1], y) + [s[|s| - 1]] else s + [y]
  {
    hide Less;
  }

  // What comes before another finding does not tie with all that the other ties with.
  lemma NotBoth(o: Order, last: Finding, y: Finding, x: Finding)
    requires Less(o, y, last)
    ensures Less(o, x, last) || Less(o, y, x)
  {
    if !Less(o, x, last) && !Less(o, y, x) { NotLessTransitive(o, last, x, y); }
  }

  lemma {:induction false} InsertStable(o: Order, s: seq<Finding>, y: Finding, x: Finding)
    ensures Ties(o, Insert(o, s, y), x) == Ties(o, s + [y], x)
  {
    if s != [] && Less(o, y, s[|s| - 1]) {
      var last, before := s[|s| - 1], s[..|s| - 1];
      hide *;
      InsertStep(o, s, y);
      NotBoth(o, last, y, x);
      assert s == before + [last];
      InsertStable(o, before, y, x);
      TiesPush(o, before, y, x);
      TiesPush(o, s, y, x);
      TiesPush(o, before, last, x);
      TiesPush(o, Insert(o, before, y), last, x);
    }
  }

  lemma SortPush(o: Order, s: seq<Finding>, y: Finding)
    ensures StableSort(o, s + [y]) == Insert(o, StableSort(o, s), y)
  {
    hide Insert, Less;
    assert (s + [y])[..|s|] == s;
  }

  /** The sort is stable: findings that tie keep their order. */
  lemma {:induction false} SortStable(o: Order, s: seq<Finding>, x: Finding)
    ensures Ties(o, StableSort(o, s), x) == Ties(o, s, x)
  {
    if s != [] {
      hide *;
      var before, y := s[..|s| - 1], s[|s| - 1];
      assert s == before + [y];
      SortPush(o, before, y);
      SortStable(o, before, x);
      InsertStable(o, StableSort(o, before), y, x);
      TiesPush(o, StableSort(o, before), y, x);
      TiesPush(o, before, y, x);
    }
  }

  // ---------------------------------------------------------------- dedupeOverlapping

  predicate OverlapsAny(f: Finding, fs: seq<Finding>) { exists k :: k in fs && Overlaps(f, k) }

  // Best first, each finding that overlaps none kept so far.
  function Greedy(ranked: seq<Finding>): seq<Finding> {
    if ranked == [] then []
    else
      var kept, f := Greedy(ranked[..|ranked| - 1]), ranked[|ranked| - 1];
      if OverlapsAny(f, kept) then kept else kept + [f]
  }

  function Deduped(fs: seq<Finding>): seq<Finding> { StableSort(ByStart, Greedy(StableSort(ByRank, fs))) }

  lemma SortOfFew(fs: seq<Finding>)
    requires |fs| <= 1
    ensures Deduped(fs) == fs
  {
    if fs != [] {
      assert fs == [fs[0]] && fs[..0] == [];
      OneSorted(ByRank, fs[0]);
      OneSorted(ByStart, fs[0]);
      assert Greedy([fs[0]]) == [fs[0]] by { assert [fs[0]][..0] == [] && Greedy([]) == []; }
    }
  }

  lemma OneSorted(o: Order, f: Finding)
    ensures StableSort(o, [f]) == [f]
  {
    assert [f][..0] == [] && StableSort(o, []) == [];
    assert Insert(o, [], f) == [f];
  }

  method DedupeOverlapping(fs: seq<Finding>) returns (out: seq<Finding>)
    ensures out == Deduped(fs)
  {
    if |fs| <= 1 {
      SortOfFew(fs);
      return fs;
    }
    var ranked := StableSort(ByRank, fs);
    var kept: seq<Finding> := [];
    for i := 0 to |ranked|
      invariant kept == Greedy(ranked[..i])
    {
      var f := ranked[i];
      var overlaps := false;
      for j := 0 to |kept|
        invariant !overlaps && forall k :: 0 <= k < j ==> !Overlaps(f, kept[k])
      {
        if f.start < kept[j].end && kept[j].start < f.end {
          overlaps := true;
          assert kept[j] in kept && OverlapsAny(f, kept);
          break;
        }
      }
      assert overlaps <==> OverlapsAny(f, kept);
      assert ranked[..i + 1][..i] == ranked[..i];
      if !overlaps { kept := kept + [f]; }
    }
    assert ranked[..|ranked|] == ranked;
    out := StableSort(ByStart, kept);
  }

  predicate Apart(s: seq<Finding>) { forall i, j :: 0 <= i < j < |s| ==> !Overlaps(s[i], s[j]) }

  // One after the other, none reaching into the next.
  predicate Ascending(s: seq<Finding>) { forall i, j :: 0 <= i < j < |s| ==> s[i].end <= s[j].start }

  // g has a finding that overlaps f and is ranked no lower; it may be f itself.
  ghost predicate Represented(f: Finding, g: seq<Finding>) {
    exists k :: k in g && Overlaps(f, k) && !Less(ByRank, f, k)
  }

  lemma ApartPush(s: seq<Finding>, x: Finding)
    requires Apart(s) && !OverlapsAny(x, s)
    ensures Apart(s + [x])
  {
    forall i | 0 <= i < |s| ensures !Overlaps(s[i], x) {
      assert s[i] in s;
    }
  }

  lemma {:induction false} InsertApart(o: Order, s: seq<Finding>, x: Finding)
    requires Apart(s) && !OverlapsAny(x, s)
    ensures Apart(Insert(o, s, x)) && forall f :: f in Insert(o, s, x) <==> f in s || f == x
  {
    hide Less;
    if s != [] && Less(o, x, s[|s| - 1]) {
      var before, last := s[..|s| - 1], s[|s| - 1];
      assert s == before + [last];
      assert !OverlapsAny(x, before);
      InsertApart(o, before, x);
      forall f | f in before ensures !Overlaps(last, f) {
        var i :| 0 <= i < |before| && before[i] == f;
        assert !Overlaps(s[i], s[|s| - 1]);
      }
      assert last in s && !Overlaps(x, last);
      ApartPush(Insert(o, before, x), last);
    } else {
      ApartPush(s, x);
    }
  }

  lemma {:induction false} SortApart(o: Order, s: seq<Finding>)
    requires Apart(s)
    ensures Apart(StableSort(o, s)) && forall f :: f in StableSort(o, s) <==> f in s
  {
    if s != [] {
      var before, last := s[..|s| - 1], s[|s| - 1];
      SortApart(o, before);
      assert s == before + [last];
      forall f | f in before ensures !Overlaps(last, f) {
        var i :| 0 <= i < |before| && before[i] == f;
        assert !Overlaps(s[i], s[|s| - 1]);
      }
      InsertApart(o, StableSort(o, before), last);
    }
  }

  lemma RepresentedMore(f: Finding, g: seq<Finding>, x: Finding)
    requires Represented(f, g)
    ensures Represented(f, g + [x])
  {
    hide Less;
    var k :| k in g && Overlaps(f, k) && !Less(ByRank, f, k);
    assert k in g + [x];
  }

  lemma RankedBefore(before: seq<Finding>, f: Finding, k: Finding)
    requires Sorted(ByRank, before + [f]) && k in multiset(before)
    ensures !Less(ByRank, f, k)
  {
    hide Less;
    var i :| 0 <= i < |before| && before[i] == k;
    var ranked := before + [f];
    assert ranked[i] == k && ranked[|before|] == f;
  }

  // The last finding of a ranked list is represented, by itself if not by one before it.
  lemma LastRepresented(before: seq<Finding>, f: Finding)
    requires Sorted(ByRank, before + [f]) && f.start < f.end
    requires multiset(Greedy(before)) <= multiset(before)
    ensures Represented(f, if OverlapsAny(f, Greedy(before)) then Greedy(before) else Greedy(before) + [f])
  {
    hide Less, Greedy, Sorted;
    var g := Greedy(before);
    if OverlapsAny(f, g) {
      var k :| k in g && Overlaps(f, k);
      assert k in multiset(g);
      RankedBefore(before, f, k);
    } else {
      NotLessItself(f);
      assert f in g + [f];
    }
  }

  lemma {:induction false} GreedyKeeps(ranked: seq<Finding>)
    requires Sorted(ByRank, ranked) && Spans(ranked)
    ensures var g := Greedy(ranked);
      Apart(g) && multiset(g) <= multiset(ranked) && forall f :: f in ranked ==> Represented(f, g)
  {
    if ranked != [] {
      var before, f := ranked[..|ranked| - 1], ranked[|ranked| - 1];
      GreedyKeeps(before);
      assert ranked == before + [f] && f in ranked;
      LastRepresented(before, f);
      var g := Greedy(before);
      if !OverlapsAny(f, g) { ApartPush(g, f); }
      forall x | x in before ensures Represented(x, g + [f]) {
        RepresentedMore(x, g, f);
      }
      hide Less, Represented, Apart, OverlapsAny;
    }
  }

  lemma NotLessItself(f: Finding)
    ensures !Less(ByRank, f, f)
  {
  }

  /** dedupeOverlapping keeps findings of its input, none overlapping another and in order, and for
      each finding of the input one that overlaps it and is ranked no lower. */
  lemma DedupedIsSound(fs: seq<Finding>)
    requires Spans(fs)
    ensures Ascending(Deduped(fs)) && multiset(Deduped(fs)) <= multiset(fs)
    ensures forall f :: f in fs ==> Represented(f, Deduped(fs))
  {
    var ranked := StableSort(ByRank, fs);
    SortSorts(ByRank, fs);
    assert forall f :: f in ranked <==> f in multiset(ranked);
    assert forall f :: f in fs <==> f in multiset(fs);
    GreedyKeeps(ranked);
    var g := Greedy(ranked);
    SortApart(ByStart, g);
    SortSorts(ByStart, g);
    var out := Deduped(fs);
    forall i, j | 0 <= i < j < |out| ensures out[i].end <= out[j].start {
      assert out[i] in multiset(out) && out[j] in multiset(out);
      assert !Less(ByStart, out[j], out[i]) && !Overlaps(out[i], out[j]);
    }
    forall f | f in fs ensures Represented(f, out) {
      var k :| k in g && Overlaps(f, k) && !Less(ByRank, f, k);
      assert k in out;
    }
  }

  // k is ranked no lower than f: by the score; then by the kind, any other name before the two that are
  // generic and these before entropy-secret; then by the width; then by the start.
  predicate RankedNoLower(k: Finding, f: Finding) {
    if k.score != f.score then k.score > f.score
    else if f.entity == "entropy-secret" && k.entity != "entropy-secret" then true
    else if k.entity == "entropy-secret" && f.entity != "entropy-secret" then false
    else if f.entity in {"generic-secret", "url-login-credential"} && k.entity !in {"generic-secret", "url-login-credential"} then
      true
    else if k.entity in {"generic-secret", "url-login-credential"} && f.entity !in {"generic-secret", "url-login-credential"} then
      false
    else if k.end - k.start != f.end - f.start then k.end - k.start > f.end - f.start
    else k.start <= f.start
  }

  lemma RankIs(k: Finding, f: Finding)
    ensures !Less(ByRank, f, k) <==> RankedNoLower(k, f)
  {
  }

  lemma RepresentedBetter(f: Finding, out: seq<Finding>)
    requires Represented(f, out)
    ensures exists k :: k in out && f.start < k.end && k.start < f.end && RankedNoLower(k, f)
  {
    hide RankedNoLower, Less;
    var k :| k in out && Overlaps(f, k) && !Less(ByRank, f, k);
    RankIs(k, f);
  }

  /** Every finding overlaps one that is kept and is ranked no lower; those kept lie one after the other. */
  lemma LeftOutForBetter(fs: seq<Finding>, f: Finding)
    requires Spans(fs) && f in fs
    ensures var out := Deduped(fs);
      && (forall i, j :: 0 <= i < j < |out| ==> out[i].end <= out[j].start)
      && exists k :: k in out && f.start < k.end && k.start < f.end && RankedNoLower(k, f)
  {
    DedupedIsSound(fs);
    hide Deduped, Less, RankedNoLower, Represented;
    RepresentedBetter(f, Deduped(fs));
  }

  // ---------------------------------------------------------------- placeLogins

  // A vendor finding that holds the login's whole password.
  predicate Covers(k: Finding, l: Finding) {
    EntityRank(k.entity) < EntityRank(l.entity) && k.start <= l.start && k.end >= l.end
  }

  /** For a URL login that is any finding but a generic one, an entropy one or another login. */
  lemma CoversIs(k: Finding, l: Finding)
    requires l.entity == "url-login-credential"
    ensures Covers(k, l) <==>
      k.entity !in {"entropy-secret", "generic-secret", "url-login-credential"} && k.start <= l.start && l.end <= k.end
  {
  }

  predicate Uncovered(kept: seq<Finding>, l: Finding) { forall k :: k in kept ==> !Covers(k, l) }

  // Some login before the n-th that nothing covers takes k's place.
  predicate Displaced(kept: seq<Finding>, logins: seq<Finding>, n: nat, k: Finding)
    requires n <= |logins|
  {
    exists j :: 0 <= j < n && Uncovered(kept, logins[j]) && Overlaps(logins[j], k)
  }

  // Login n goes into the output.
  predicate Placed(kept: seq<Finding>, logins: seq<Finding>, n: nat)
    requires n < |logins|
  {
    forall k :: k in kept && Covers(k, logins[n]) ==> Displaced(kept, logins, n, k)
  }

  function PlacedLogins(kept: seq<Finding>, logins: seq<Finding>, n: nat): seq<Finding>
    requires n <= |logins|
  {
    if n == 0 then []
    else PlacedLogins(kept, logins, n - 1) + if Placed(kept, logins, n - 1) then [logins[n - 1]] else []
  }

  // The findings that overlap none of the logins.
  function Clear(kept: seq<Finding>, placed: seq<Finding>): seq<Finding> {
    if kept == [] then []
    else
      var k := kept[|kept| - 1];
      Clear(kept[..|kept| - 1], placed) + if OverlapsAny(k, placed) then [] else [k]
  }

  function WithLogins(kept: seq<Finding>, logins: seq<Finding>): seq<Finding> {
    var placed := PlacedLogins(kept, logins, |logins|);
    StableSort(ByStart, placed + Clear(kept, placed))
  }

  // sort.Search for the first finding that ends after start.
  method FirstEndingAfter(kept: seq<Finding>, start: int) returns (lo: nat)
    requires Spans(kept) && Ascending(kept)
    ensures lo <= |kept|
    ensures forall i :: 0 <= i < lo ==> kept[i].end <= start
    ensures forall i :: lo <= i < |kept| ==> kept[i].end > start
  {
    lo := 0;
    var hi := |kept|;
    while lo < hi
      invariant 0 <= lo <= hi <= |kept|
      invariant forall i :: 0 <= i < lo ==> kept[i].end <= start
      invariant forall i :: hi <= i < |kept| ==> kept[i].end > start
    {
      var mid := lo + (hi - lo) / 2;
      if kept[mid].end <= start {
        EndsAscend(kept);
        lo := mid + 1;
      } else {
        EndsAscend(kept);
        hi := mid;
      }
    }
  }

  lemma EndsAscend(kept: seq<Finding>)
    requires Spans(kept) && Ascending(kept)
    ensures forall i, j :: 0 <= i <= j < |kept| ==> kept[i].end <= kept[j].end
  {
    forall i, j | 0 <= i <= j < |kept| ensures kept[i].end <= kept[j].end {
      assert kept[j] in kept;
    }
  }

  // Once a finding is displaced it stays so, and it is displaced exactly by the logins placed.
  lemma DisplacedByPlaced(kept: seq<Finding>, logins: seq<Finding>, n: nat, k: Finding)
    requires n <= |logins| && Spans(kept) && Spans(logins) && Ascending(kept) && k in kept
    ensures Displaced(kept, logins, n, k) <==> exists j :: 0 <= j < n && Placed(kept, logins, j) && Overlaps(logins[j], k)
  {
    if j :| 0 <= j < n && Uncovered(kept, logins[j]) && Overlaps(logins[j], k) {
      assert Placed(kept, logins, j);
    }
    if j :| 0 <= j < n && Placed(kept, logins, j) && Overlaps(logins[j], k) {
      if !Uncovered(kept, logins[j]) {
        var w :| w in kept && Covers(w, logins[j]);
        assert logins[j] in logins;
        SameIfBothOverlap(kept, w, k, logins[j]);
        var i :| 0 <= i < j && Uncovered(kept, logins[i]) && Overlaps(logins[i], w);
      }
    }
  }

  // No two of the findings overlap the same covered login.
  lemma SameIfBothOverlap(kept: seq<Finding>, w: Finding, k: Finding, l: Finding)
    requires Spans(kept) && Ascending(kept) && w in kept && k in kept
    requires w.start <= l.start && l.end <= w.end && l.start < l.end && Overlaps(l, k)
    ensures w == k
  {
    var i :| 0 <= i < |kept| && kept[i] == w;
    var j :| 0 <= j < |kept| && kept[j] == k;
  }

  lemma DisplacedNext(kept: seq<Finding>, logins: seq<Finding>, n: nat, k: Finding)
    requires n < |logins| && Spans(kept) && Spans(logins) && Ascending(kept) && k in kept
    ensures Displaced(kept, logins, n + 1, k) <==>
      Displaced(kept, logins, n, k) || (Placed(kept, logins, n) && Overlaps(logins[n], k))
  {
    DisplacedByPlaced(kept, logins, n, k);
    DisplacedByPlaced(kept, logins, n + 1, k);
    hide Displaced, Placed, Overlaps;
  }

  // A login is placed unless one of the findings that it overlaps covers it and is not yet displaced.
  lemma PlacedIff(kept: seq<Finding>, logins: seq<Finding>, n: nat, lo: nat, hi: nat)
    requires n < |logins| && Spans(kept) && Spans(logins) && lo <= hi <= |kept|
    requires forall i :: 0 <= i < |kept| ==> (lo <= i < hi <==> Overlaps(logins[n], kept[i]))
    ensures Placed(kept, logins, n) <==>
      forall i :: lo <= i < hi && Covers(kept[i], logins[n]) ==> Displaced(kept, logins, n, kept[i])
  {
    hide Displaced;
    assert logins[n] in logins;
    if forall i :: lo <= i < hi && Covers(kept[i], logins[n]) ==> Displaced(kept, logins, n, kept[i]) {
      forall k | k in kept && Covers(k, logins[n]) ensures Displaced(kept, logins, n, k) {
        var i :| 0 <= i < |kept| && kept[i] == k;
        assert Overlaps(logins[n], kept[i]);
      }
    }
  }

  lemma {:induction false} PlacedIn(kept: seq<Finding>, logins: seq<Finding>, n: nat, k: Finding)
    requires n <= |logins|
    ensures OverlapsAny(k, PlacedLogins(kept, logins, n)) <==>
      exists j :: 0 <= j < n && Placed(kept, logins, j) && Overlaps(logins[j], k)
  {
    hide Placed;
    if n > 0 {
      PlacedIn(kept, logins, n - 1, k);
      var before, placed := PlacedLogins(kept, logins, n - 1), PlacedLogins(kept, logins, n);
      if Placed(kept, logins, n - 1) {
        assert logins[n - 1] in placed && forall f :: f in before ==> f in placed;
      }
    }
  }

  // Whether some finding of kept[lo..] that starts before the login ends covers it, and how far those go.
  method CoveredRun(kept: seq<Finding>, dropped: array<bool>, l: Finding, lo: nat) returns (hi: nat, covered: bool)
    requires lo <= |kept| == dropped.Length
    ensures lo <= hi <= |kept|
    ensures forall i :: lo <= i < hi ==> kept[i].start < l.end
    ensures hi < |kept| ==> kept[hi].start >= l.end
    ensures covered <==> exists i :: lo <= i < hi && !dropped[i] && Covers(kept[i], l)
  {
    hi, covered := lo, false;
    while hi < |kept| && kept[hi].start < l.end
      invariant lo <= hi <= |kept|
      invariant forall i :: lo <= i < hi ==> kept[i].start < l.end
      invariant covered <==> exists i :: lo <= i < hi && !dropped[i] && Covers(kept[i], l)
    {
      var k := kept[hi];
      if !dropped[hi] && EntityRank(k.entity) < EntityRank(l.entity) && k.start <= l.start && k.end >= l.end {
        covered := true;
      }
      hi := hi + 1;
    }
  }

  lemma RunIsOverlap(kept: seq<Finding>, l: Finding, lo: nat, hi: nat)
    requires Spans(kept) && Ascending(kept) && lo <= hi <= |kept|
    requires forall i :: 0 <= i < lo ==> kept[i].end <= l.start
    requires forall i :: lo <= i < |kept| ==> kept[i].end > l.start
    requires forall i :: lo <= i < hi ==> kept[i].start < l.end
    requires hi < |kept| ==> kept[hi].start >= l.end
    ensures forall i :: 0 <= i < |kept| ==> (lo <= i < hi <==> Overlaps(l, kept[i]))
  {
    forall i | hi <= i < |kept| ensures kept[i].start >= l.end {
      assert kept[hi] in kept;
      assert i > hi ==> kept[hi].end <= kept[i].start;
    }
  }

  // The dropped marks are the displaced findings.
  ghost predicate Marks(kept: seq<Finding>, logins: seq<Finding>, n: nat, dropped: seq<bool>)
    requires n <= |logins|
  {
    |dropped| == |kept| && forall i :: 0 <= i < |kept| ==> (dropped[i] <==> Displaced(kept, logins, n, kept[i]))
  }

  lemma MarksNext(kept: seq<Finding>, logins: seq<Finding>, n: nat, dropped: seq<bool>, dropped': seq<bool>, lo: nat, hi: nat)
    requires n < |logins| && Spans(kept) && Spans(logins) && Ascending(kept) && lo <= hi <= |kept|
    requires forall i :: 0 <= i < |kept| ==> (lo <= i < hi <==> Overlaps(logins[n], kept[i]))
    requires Marks(kept, logins, n, dropped) && |dropped'| == |kept|
    requires forall i :: 0 <= i < |kept| ==> dropped'[i] == (dropped[i] || (Placed(kept, logins, n) && lo <= i < hi))
    ensures Marks(kept, logins, n + 1, dropped')
  {
    forall i | 0 <= i < |kept| ensures dropped'[i] <==> Displaced(kept, logins, n + 1, kept[i]) {
      DisplacedNext(kept, logins, n, kept[i]);
    }
  }

  // One turn of the loop over the logins.
  method PlaceLogin(kept: seq<Finding>, ghost logins: seq<Finding>, ghost n: nat, l: Finding, dropped: array<bool>) returns (placed: bool)
    requires Spans(kept) && Spans(logins) && Ascending(kept) && n < |logins| && logins[n] == l
    requires dropped.Length == |kept| && Marks(kept, logins, n, dropped[..])
    modifies dropped
    ensures placed <==> Placed(kept, logins, n)
    ensures Marks(kept, logins, n + 1, dropped[..])
  {
    var lo := FirstEndingAfter(kept, l.start);
    var hi, covered := CoveredRun(kept, dropped, l, lo);
    RunIsOverlap(kept, l, lo, hi);
    PlacedIff(kept, logins, n, lo, hi);
    hide Displaced, Placed, Covers, Overlaps, Ascending, Spans;
    assert covered <==> !Placed(kept, logins, n);
    ghost var before := dropped[..];
    if !covered {
      for i := lo to hi
        invariant forall j :: 0 <= j < |kept| ==> dropped[j] == (before[j] || lo <= j < i)
      {
        dropped[i] := true;
      }
    }
    placed := !covered;
    MarksNext(kept, logins, n, before, dropped[..], lo, hi);
  }

  /** The logins that nothing covers, or whose covering finding an earlier such login displaced, and
      exactly the findings that overlap none of these, in order of start. */
  method PlaceLogins(kept: seq<Finding>, logins: seq<Finding>) returns (out: seq<Finding>)
    requires Spans(kept) && Spans(logins) && Ascending(kept)
    ensures out == WithLogins(kept, logins)
  {
    hide Displaced, Placed, Ascending, Spans, OverlapsAny;
    var dropped := new bool[|kept|](_ => false);
    assert Marks(kept, logins, 0, dropped[..]) by { NoneDisplaced(kept, logins); }
    out := [];
    for n := 0 to |logins|
      invariant out == PlacedLogins(kept, logins, n)
      invariant Marks(kept, logins, n, dropped[..])
    {
      var placed := PlaceLogin(kept, logins, n, logins[n], dropped);
      if placed { out := out + [logins[n]]; }
    }
    ghost var placed := out;
    for i := 0 to |kept|
      invariant out == placed + Clear(kept[..i], placed)
      invariant Marks(kept, logins, |logins|, dropped[..])
    {
      DisplacedByPlaced(kept, logins, |logins|, kept[i]);
      PlacedIn(kept, logins, |logins|, kept[i]);
      ClearNext(kept, placed, i);
      if !dropped[i] { out := out + [kept[i]]; }
    }
    assert kept[..|kept|] == kept;
    out := StableSort(ByStart, out);
  }

  lemma NoneDisplaced(kept: seq<Finding>, logins: seq<Finding>)
    ensures forall k :: !Displaced(kept, logins, 0, k)
  {
  }

  lemma ClearNext(kept: seq<Finding>, placed: seq<Finding>, i: nat)
    requires i < |kept|
    ensures Clear(kept[..i + 1], placed) == Clear(kept[..i], placed) + if OverlapsAny(kept[i], placed) then [] else [kept[i]]
  {
    assert kept[..i + 1][..i] == kept[..i];
  }

  // ---------------------------------------------------------------- is a login ever lost?

  // The login is in the output, or a vendor finding that covers it is.
  predicate Accounted(kept: seq<Finding>, logins: seq<Finding>, n: nat)
    requires n < |logins|
  {
    var out := WithLogins(kept, logins);
    logins[n] in out || exists k :: k in kept && k in out && Covers(k, logins[n])
  }

  // Nothing displaces the finding that covers the login, or something before the login does.
  predicate SafelyCovered(kept: seq<Finding>, logins: seq<Finding>, n: nat)
    requires n < |logins|
  {
    forall k :: k in kept && Covers(k, logins[n]) && Displaced(kept, logins, |logins|, k) ==> Displaced(kept, logins, n, k)
  }

  lemma {:induction false} ClearIn(kept: seq<Finding>, placed: seq<Finding>, k: Finding)
    ensures k in Clear(kept, placed) <==> k in kept && !OverlapsAny(k, placed)
  {
    hide OverlapsAny;
    if kept != [] {
      ClearIn(kept[..|kept| - 1], placed, k);
      assert kept == kept[..|kept| - 1] + [kept[|kept| - 1]];
    }
  }

  lemma {:induction false} PlacedMember(kept: seq<Finding>, logins: seq<Finding>, n: nat, l: Finding)
    requires n <= |logins|
    ensures l in PlacedLogins(kept, logins, n) <==> exists j :: 0 <= j < n && Placed(kept, logins, j) && logins[j] == l
  {
    hide Placed;
    if n > 0 { PlacedMember(kept, logins, n - 1, l); }
  }

  lemma OutputMember(kept: seq<Finding>, logins: seq<Finding>, f: Finding)
    requires Spans(kept) && Spans(logins) && Ascending(kept)
    ensures f in WithLogins(kept, logins) <==>
      (exists j :: 0 <= j < |logins| && Placed(kept, logins, j) && logins[j] == f) ||
      (f in kept && !Displaced(kept, logins, |logins|, f))
  {
    var placed := PlacedLogins(kept, logins, |logins|);
    var parts := placed + Clear(kept, placed);
    SortSorts(ByStart, parts);
    assert f in WithLogins(kept, logins) <==> f in multiset(parts);
    ClearIn(kept, placed, f);
    PlacedMember(kept, logins, |logins|, f);
    PlacedIn(kept, logins, |logins|, f);
    if f in kept { DisplacedByPlaced(kept, logins, |logins|, f); }
    hide Displaced, Placed, Ascending, Spans, OverlapsAny, Clear, PlacedLogins, StableSort;
  }

  // What dedupeIdentical and the split by entity leave: logins differ, and no other finding is one.
  predicate Separate(kept: seq<Finding>, logins: seq<Finding>) {
    && (forall i, j :: 0 <= i < j < |logins| ==> logins[i] != logins[j])
    && (forall l :: l in logins ==> l.entity == URL_LOGIN_CREDENTIAL_NAME)
    && (forall k :: k in kept ==> k.entity != URL_LOGIN_CREDENTIAL_NAME)
  }

  lemma AccountedIfSafe(kept: seq<Finding>, logins: seq<Finding>, n: nat)
    requires Spans(kept) && Spans(logins) && Ascending(kept) && n < |logins| && SafelyCovered(kept, logins, n)
    ensures Accounted(kept, logins, n)
  {
    hide Displaced, Ascending, Spans, WithLogins, Covers;
    if Placed(kept, logins, n) {
      OutputMember(kept, logins, logins[n]);
    } else {
      var k :| k in kept && Covers(k, logins[n]) && !Displaced(kept, logins, n, k);
      OutputMember(kept, logins, k);
    }
  }

  lemma SafeIfAccounted(kept: seq<Finding>, logins: seq<Finding>, n: nat)
    requires Spans(kept) && Spans(logins) && Ascending(kept) && Separate(kept, logins) && n < |logins|
    requires Accounted(kept, logins, n)
    ensures SafelyCovered(kept, logins, n)
  {
    var out := WithLogins(kept, logins);
    assert logins[n] in logins;
    if logins[n] in out {
      OutputMember(kept, logins, logins[n]);
      hide Displaced, Ascending, Spans, WithLogins, Covers;
    } else {
      var k :| k in kept && k in out && Covers(k, logins[n]);
      OutputMember(kept, logins, k);
      assert forall j :: 0 <= j < |logins| ==> logins[j] in logins;
      forall w | w in kept && Covers(w, logins[n]) ensures w == k {
        SameIfBothOverlap(kept, w, k, logins[n]);
      }
      hide Displaced, Ascending, Spans, WithLogins, Covers;
    }
  }

  /** A login ends up in the output, or with its covering vendor finding there, if and only if no
      uncovered login displaces that finding, or one earlier in the list does. */
  lemma LoginAccountedIff(kept: seq<Finding>, logins: seq<Finding>, n: nat)
    requires Spans(kept) && Spans(logins) && Ascending(kept) && Separate(kept, logins) && n < |logins|
    ensures Accounted(kept, logins, n) <==> SafelyCovered(kept, logins, n)
  {
    hide Accounted, SafelyCovered;
    if SafelyCovered(kept, logins, n) { AccountedIfSafe(kept, logins, n); }
    if Accounted(kept, logins, n) { SafeIfAccounted(kept, logins, n); }
  }

  /** A login can be lost: it is passed over for the vendor finding around it, which a later login
      that reaches past that finding then replaces. */
  lemma LoginLost()
    ensures var vendor := Finding("vendor", 0, 10, 1.0);
      var first, second := Finding(URL_LOGIN_CREDENTIAL_NAME, 2, 5, 1.0), Finding(URL_LOGIN_CREDENTIAL_NAME, 8, 12, 1.0);
      WithLogins([vendor], [first, second]) == [second]
  {
    var vendor := Finding("vendor", 0, 10, 1.0);
    var first, second := Finding(URL_LOGIN_CREDENTIAL_NAME, 2, 5, 1.0), Finding(URL_LOGIN_CREDENTIAL_NAME, 8, 12, 1.0);
    var kept, logins := [vendor], [first, second];
    assert vendor in kept && Covers(vendor, first) && !Displaced(kept, logins, 0, vendor);
    assert PlacedLogins(kept, logins, 1) == [];
    assert Uncovered(kept, second);
    assert PlacedLogins(kept, logins, 2) == [second];
    assert second in [second] && OverlapsAny(vendor, [second]);
    assert Clear(kept, [second]) == Clear(kept[..0], [second]);
    OneSorted(ByStart, second);
  }

  // ---------------------------------------------------------------- dedupeIdentical

  predicate SameKey(a: Finding, b: Finding) { a.entity == b.entity && a.start == b.start && a.end == b.end }

  predicate HasKey(fs: seq<Finding>, f: Finding) { exists i :: 0 <= i < |fs| && SameKey(fs[i], f) }

  function Firsts(fs: seq<Finding>): seq<Finding> {
    if fs == [] then []
    else
      var before, f := fs[..|fs| - 1], fs[|fs| - 1];
      Firsts(before) + if HasKey(before, f) then [] else [f]
  }

  method DedupeIdentical(fs: seq<Finding>) returns (out: seq<Finding>)
    ensures out == Firsts(fs)
  {
    var seen: set<(string, int, int)> := {};
    out := [];
    for n := 0 to |fs|
      invariant out == Firsts(fs[..n])
      invariant forall k :: k in seen <==> exists i :: 0 <= i < n && k == (fs[i].entity, fs[i].start, fs[i].end)
    {
      var f := fs[n];
      var key := (f.entity, f.start, f.end);
      assert fs[..n + 1][..n] == fs[..n];
      assert key in seen <==> HasKey(fs[..n], f) by {
        assert forall i :: 0 <= i < n ==> fs[..n][i] == fs[i];
      }
      if key !in seen {
        seen := seen + {key};
        out := out + [f];
      }
    }
    assert fs[..|fs|] == fs;
  }

  /** One finding per entity and span: no two share them, and none is dropped without one that does. */
  lemma {:induction false} FirstsAreDistinct(fs: seq<Finding>)
    ensures var out := Firsts(fs);
      && (forall i, j :: 0 <= i < j < |out| ==> !SameKey(out[i], out[j]))
      && (forall f :: f in out ==> f in fs)
      && (forall f :: HasKey(fs, f) <==> HasKey(out, f))
  {
    if fs != [] {
      var before, f := fs[..|fs| - 1], fs[|fs| - 1];
      FirstsAreDistinct(before);
      var out := Firsts(before);
      assert fs == before + [f] && forall g :: g in before ==> g in fs;
      forall g ensures HasKey(fs, g) <==> HasKey(before, g) || SameKey(f, g) {
        KeyPush(before, f, g);
      }
      forall g ensures HasKey(out + [f], g) <==> HasKey(out, g) || SameKey(f, g) {
        KeyPush(out, f, g);
      }
      if HasKey(before, f) {
        var i :| 0 <= i < |before| && SameKey(before[i], f);
        forall g | SameKey(f, g) ensures HasKey(before, g) {
          assert SameKey(before[i], g);
        }
        assert Firsts(fs) == out;
      } else {
        assert forall i :: 0 <= i < |out| ==> !SameKey(out[i], f);
      }
    }
  }

  lemma KeyPush(fs: seq<Finding>, f: Finding, g: Finding)
    ensures HasKey(fs + [f], g) <==> HasKey(fs, g) || SameKey(f, g)
  {
    var all := fs + [f];
    assert all[|fs|] == f && forall i :: 0 <= i < |fs| ==> all[i] == fs[i];
  }
}
