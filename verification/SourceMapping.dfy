/**
 Mapping an offset in decoded data back onto the buffer it was decoded from: sourceOffset, with
 nthOccurrence, bestAlignedOccurrence and the greedy matchers that score an alignment.
 */
module SourceMapping {
  import opened Bytes

  const ALIGNED_CONTEXT_BYTES := 1024

  // ---------------------------------------------------------------- subsequences

  // f places the elements of a, in order, at positions of b within [lo, hi).
  ghost predicate Places(a: Bytes, b: Bytes, f: seq<int>, lo: nat, hi: nat) {
    && |f| == |a| && hi <= |b|
    && (forall i :: 0 <= i < |f| ==> lo <= f[i] < hi && b[f[i]] == a[i])
    && (forall i, j :: 0 <= i < j < |f| ==> f[i] < f[j])
  }

  ghost predicate SubsequenceIn(a: Bytes, b: Bytes, lo: nat, hi: nat) {
    exists f :: Places(a, b, f, lo, hi)
  }

  ghost predicate Subsequence(a: Bytes, b: Bytes) {
    SubsequenceIn(a, b, 0, |b|)
  }

  function Front(s: Bytes, k: nat): Bytes
    requires k <= |s|
  {
    s[..k]
  }

  function Back(s: Bytes, k: nat): Bytes
    requires k <= |s|
  {
    s[|s| - k..]
  }

  lemma FirstPlace(a: Bytes, b: Bytes, f: seq<int>, lo: nat, hi: nat)
    requires Places(a, b, f, lo, hi)
    ensures a == [] || lo <= f[0] < hi
  {
  }

  lemma NoRoom(a: Bytes, b: Bytes, lo: nat)
    ensures SubsequenceIn(a, b, lo, lo) ==> a == []
  {
    if SubsequenceIn(a, b, lo, lo) {
      var f :| Places(a, b, f, lo, lo);
      FirstPlace(a, b, f, lo, lo);
    }
  }

  // The length of the longest prefix of decoded, no longer than n, that is a subsequence of source.
  ghost function LongestPrefix(source: Bytes, decoded: Bytes, n: nat): (m: nat)
    requires n <= |decoded|
    ensures m <= n
    ensures m == 0 || Subsequence(Front(decoded, m), source)
    ensures forall k :: m < k <= n ==> !Subsequence(Front(decoded, k), source)
  {
    if n == 0 || Subsequence(Front(decoded, n), source) then n else LongestPrefix(source, decoded, n - 1)
  }

  // The same for the suffixes of decoded.
  ghost function LongestSuffix(source: Bytes, decoded: Bytes, n: nat): (m: nat)
    requires n <= |decoded|
    ensures m <= n
    ensures m == 0 || Subsequence(Back(decoded, m), source)
    ensures forall k :: m < k <= n ==> !Subsequence(Back(decoded, k), source)
  {
    if n == 0 || Subsequence(Back(decoded, n), source) then n else LongestSuffix(source, decoded, n - 1)
  }

  // matched is the most of decoded's front that fits into the first i bytes of source.
  ghost predicate FrontFits(source: Bytes, decoded: Bytes, i: nat, matched: nat)
    requires i <= |source| && matched <= |decoded|
  {
    && SubsequenceIn(Front(decoded, matched), source, 0, i)
    && forall k :: matched < k <= |decoded| ==> !SubsequenceIn(Front(decoded, k), source, 0, i)
  }

  // Whether or not the last element lands on position i.
  lemma DropLast(source: Bytes, decoded: Bytes, i: nat, k: nat)
    requires i < |source| && 0 < k <= |decoded| && SubsequenceIn(Front(decoded, k), source, 0, i + 1)
    ensures SubsequenceIn(Front(decoded, k), source, 0, i) ||
            (SubsequenceIn(Front(decoded, k - 1), source, 0, i) && source[i] == decoded[k - 1])
  {
    var f :| Places(Front(decoded, k), source, f, 0, i + 1);
    if f[k - 1] == i {
      assert Places(Front(decoded, k - 1), source, f[..k - 1], 0, i);
    } else {
      assert Places(Front(decoded, k), source, f, 0, i);
    }
  }

  lemma FrontStep(source: Bytes, decoded: Bytes, i: nat, matched: nat)
    requires i < |source| && matched < |decoded| && FrontFits(source, decoded, i, matched)
    ensures FrontFits(source, decoded, i + 1, if source[i] == decoded[matched] then matched + 1 else matched)
  {
    var f :| Places(Front(decoded, matched), source, f, 0, i);
    if source[i] == decoded[matched] {
      assert Places(Front(decoded, matched + 1), source, f + [i], 0, i + 1);
    } else {
      assert Places(Front(decoded, matched), source, f, 0, i + 1);
    }
    forall k | matched < k <= |decoded| && SubsequenceIn(Front(decoded, k), source, 0, i + 1)
      ensures k == matched + 1 && source[i] == decoded[matched]
    {
      DropLast(source, decoded, i, k);
    }
  }

  // The greedy scan from the left finds the longest prefix that is a subsequence.
  method MatchForward(source: Bytes, decoded: Bytes) returns (matched: nat)
    ensures matched == LongestPrefix(source, decoded, |decoded|)
  {
    matched := 0;
    var i := 0;
    assert FrontFits(source, decoded, 0, 0) by {
      assert Places(Front(decoded, 0), source, [], 0, 0);
      forall k | 0 < k <= |decoded| ensures !SubsequenceIn(Front(decoded, k), source, 0, 0) {
        NoRoom(Front(decoded, k), source, 0);
      }
    }
    while i < |source| && matched < |decoded|
      invariant i <= |source| && matched <= |decoded|
      invariant FrontFits(source, decoded, i, matched)
    {
      FrontStep(source, decoded, i, matched);
      if source[i] == decoded[matched] {
        matched := matched + 1;
      }
      i := i + 1;
    }
    ghost var f :| Places(Front(decoded, matched), source, f, 0, i);
    assert Places(Front(decoded, matched), source, f, 0, |source|);
  }

  // matched is the most of decoded's back that fits into source from position i on.
  ghost predicate BackFits(source: Bytes, decoded: Bytes, i: nat, matched: nat)
    requires i <= |source| && matched <= |decoded|
  {
    && SubsequenceIn(Back(decoded, matched), source, i, |source|)
    && forall k :: matched < k <= |decoded| ==> !SubsequenceIn(Back(decoded, k), source, i, |source|)
  }

  lemma DropFirst(source: Bytes, decoded: Bytes, i: nat, k: nat)
    requires i < |source| && 0 < k <= |decoded| && SubsequenceIn(Back(decoded, k), source, i, |source|)
    ensures SubsequenceIn(Back(decoded, k), source, i + 1, |source|) ||
            (SubsequenceIn(Back(decoded, k - 1), source, i + 1, |source|) && source[i] == decoded[|decoded| - k])
  {
    var f :| Places(Back(decoded, k), source, f, i, |source|);
    if f[0] == i {
      assert Back(decoded, k)[1..] == Back(decoded, k - 1);
      assert Places(Back(decoded, k - 1), source, f[1..], i + 1, |source|);
    } else {
      assert Places(Back(decoded, k), source, f, i + 1, |source|);
    }
  }

  lemma BackStep(source: Bytes, decoded: Bytes, i: nat, matched: nat)
    requires i < |source| && matched < |decoded| && BackFits(source, decoded, i + 1, matched)
    ensures BackFits(source, decoded, i,
                     if source[i] == decoded[|decoded| - 1 - matched] then matched + 1 else matched)
  {
    var f :| Places(Back(decoded, matched), source, f, i + 1, |source|);
    if source[i] == decoded[|decoded| - 1 - matched] {
      assert Back(decoded, matched + 1) == [source[i]] + Back(decoded, matched);
      assert Places(Back(decoded, matched + 1), source, [i] + f, i, |source|);
    } else {
      assert Places(Back(decoded, matched), source, f, i, |source|);
    }
    forall k | matched < k <= |decoded| && SubsequenceIn(Back(decoded, k), source, i, |source|)
      ensures k == matched + 1 && source[i] == decoded[|decoded| - 1 - matched]
    {
      DropFirst(source, decoded, i, k);
    }
  }

  // The greedy scan from the right finds the longest suffix that is a subsequence.
  method MatchBackward(source: Bytes, decoded: Bytes) returns (matched: nat)
    ensures matched == LongestSuffix(source, decoded, |decoded|)
  {
    var j := |decoded| - 1;
    matched := 0;
    var i := |source| - 1;
    assert BackFits(source, decoded, |source|, 0) by {
      assert Places(Back(decoded, 0), source, [], |source|, |source|);
      forall k | 0 < k <= |decoded| ensures !SubsequenceIn(Back(decoded, k), source, |source|, |source|) {
        NoRoom(Back(decoded, k), source, |source|);
      }
    }
    while i >= 0 && j >= 0
      invariant -1 <= i < |source| && -1 <= j && j + matched + 1 == |decoded|
      invariant BackFits(source, decoded, i + 1, matched)
    {
      BackStep(source, decoded, i, matched);
      if source[i] == decoded[j] {
        matched, j := matched + 1, j - 1;
      }
      i := i - 1;
    }
    ghost var f :| Places(Back(decoded, matched), source, f, i + 1, |source|);
    assert Places(Back(decoded, matched), source, f, 0, |source|);
  }

  // ---------------------------------------------------------------- alignment

  function LastBytes(data: Bytes, n: nat): Bytes {
    if |data| > n then data[|data| - n..] else data
  }

  function FirstBytes(data: Bytes, n: nat): Bytes {
    if |data| > n then data[..n] else data
  }

  // The text before a place and the text from a place on, at most 1024 bytes of each.
  ghost function Before(s: Bytes, at: nat): Bytes
    requires at <= |s|
  {
    s[if at > 1024 then at - 1024 else 0..at]
  }

  ghost function After(s: Bytes, at: nat): Bytes
    requires at <= |s|
  {
    s[at..if at + 1024 < |s| then at + 1024 else |s|]
  }

  // How much of the decoded neighbourhood reads, in order, out of the source around candidate.
  ghost function Score(original: Bytes, data: Bytes, candidate: nat, offset: nat, length: nat): nat
    requires candidate + length <= |original| && offset + length <= |data|
  {
    LongestSuffix(Before(original, candidate), Before(data, offset), |Before(data, offset)|) +
    LongestPrefix(After(original, candidate + length), After(data, offset + length), |After(data, offset + length)|)
  }

  /** The longest end of the 1024 bytes of data before the secret that can be read, in order, out of the 1024
      bytes of the source before the candidate, and the longest start of the 1024 bytes after it out of those
      after the candidate. */
  method AlignmentScore(original: Bytes, data: Bytes, candidate: nat, offset: nat, length: nat) returns (score: nat)
    requires candidate + length <= |original| && offset + length <= |data|
    ensures var sourceBefore := original[if candidate > 1024 then candidate - 1024 else 0..candidate];
      var decodedBefore := data[if offset > 1024 then offset - 1024 else 0..offset];
      var a, b := candidate + length, offset + length;
      var sourceAfter := original[a..if a + 1024 < |original| then a + 1024 else |original|];
      var decodedAfter := data[b..if b + 1024 < |data| then b + 1024 else |data|];
      score == LongestSuffix(sourceBefore, decodedBefore, |decodedBefore|) + LongestPrefix(sourceAfter, decodedAfter, |decodedAfter|)
  {
    hide LongestSuffix, LongestPrefix;
    assert LastBytes(original[..candidate], ALIGNED_CONTEXT_BYTES) == Before(original, candidate);
    assert LastBytes(data[..offset], ALIGNED_CONTEXT_BYTES) == Before(data, offset);
    assert FirstBytes(original[candidate + length..], ALIGNED_CONTEXT_BYTES) == After(original, candidate + length);
    assert FirstBytes(data[offset + length..], ALIGNED_CONTEXT_BYTES) == After(data, offset + length);
    var back := MatchBackward(LastBytes(original[..candidate], ALIGNED_CONTEXT_BYTES),
                              LastBytes(data[..offset], ALIGNED_CONTEXT_BYTES));
    var forth := MatchForward(FirstBytes(original[candidate + length..], ALIGNED_CONTEXT_BYTES),
                              FirstBytes(data[offset + length..], ALIGNED_CONTEXT_BYTES));
    score := back + forth;
  }

  // A scan that stands at `start` has passed the occurrences in `passed`.
  ghost predicate Scanned(data: Bytes, sep: Bytes, start: nat, passed: seq<nat>) {
    sep != [] && start <= |data| && Occurrences(data, sep, 0) == passed + Occurrences(data, sep, start)
  }

  // bytes.Index on the rest either finds the next occurrence, or there are no more.
  lemma ScanStep(data: Bytes, sep: Bytes, start: nat, passed: seq<nat>)
    requires Scanned(data, sep, start, passed)
    ensures var next := Index(data[start..], sep);
      if next == -1 then passed == Occurrences(data, sep, 0)
      else Scanned(data, sep, start + next + |sep|, passed + [start + next])
  {
    hide IndexFrom, Occurrences;
    IndexInSuffix(data, sep, start);
    var next := Index(data[start..], sep);
    OccurrencesStep(data, sep, start, passed, if next == -1 then -1 else start + next);
  }

  lemma OccurrencesStep(data: Bytes, sep: Bytes, start: nat, passed: seq<nat>, i: int)
    requires sep != [] && i == IndexFrom(data, sep, start)
    ensures if i == -1 then passed + Occurrences(data, sep, start) == passed
            else passed + Occurrences(data, sep, start) == (passed + [i]) + Occurrences(data, sep, i + |sep|)
  {
    hide IndexFrom;
    if i == -1 {
      assert Occurrences(data, sep, start) == [];
    } else {
      assert Occurrences(data, sep, start) == [i] + Occurrences(data, sep, i + |sep|);
      hide Occurrences;
    }
  }

  // Where the nth non-overlapping occurrence of sep is, and how many there are.
  method NthOccurrence(data: Bytes, sep: Bytes, n: nat) returns (index: int, count: nat)
    requires sep != []
    ensures count == Count(data, sep)
    ensures index == if n < count then Occurrences(data, sep, 0)[n] else -1
  {
    hide IndexFrom, Occurrences;
    index, count := -1, 0;
    var start := 0;
    ghost var passed: seq<nat> := [];
    while true
      invariant Scanned(data, sep, start, passed) && count == |passed|
      invariant index == if n < count then passed[n] else -1
      decreases |data| - start
    {
      var next := Index(data[start..], sep);
      ScanStep(data, sep, start, passed);
      if next == -1 {
        return;
      }
      if count == n {
        index := start + next;
      }
      count := count + 1;
      passed := passed + [start + next];
      start := start + next + |sep|;
    }
  }

  ghost predicate AllFit(original: Bytes, length: nat, occ: seq<nat>) {
    forall k :: 0 <= k < |occ| ==> occ[k] + length <= |original|
  }

  ghost function Scores(original: Bytes, data: Bytes, offset: nat, length: nat, occ: seq<nat>): (r: seq<nat>)
    requires offset + length <= |data| && AllFit(original, length, occ)
    ensures |r| == |occ| && forall k :: 0 <= k < |r| ==> r[k] == Score(original, data, occ[k], offset, length)
  {
    if occ == [] then []
    else
      var n := |occ| - 1;
      Scores(original, data, offset, length, occ[..n]) + [Score(original, data, occ[n], offset, length)]
  }

  // b is the first position of the highest score.
  ghost predicate Wins(scores: seq<nat>, b: nat) {
    b < |scores| && forall k :: 0 <= k < |scores| ==> if k < b then scores[k] < scores[b] else scores[k] <= scores[b]
  }

  // best is the first of the candidates with the highest score; -1 if there are none.
  ghost predicate FirstBest(occ: seq<nat>, scores: seq<nat>, best: int) {
    if occ == [] then best == -1
    else exists b :: 0 <= b < |occ| && best == occ[b] && Wins(scores, b)
  }

  // The state of the search: best, with its score, is first best so far; -1 and -1 before any.
  ghost predicate BestSoFar(occ: seq<nat>, scores: seq<nat>, best: int, bestScore: int) {
    |occ| == |scores| &&
    if occ == [] then best == -1 && bestScore == -1
    else exists b :: 0 <= b < |occ| && best == occ[b] && bestScore == scores[b] && Wins(scores, b)
  }

  lemma BestStep(occ: seq<nat>, scores: seq<nat>, best: int, bestScore: int, c: nat, score: nat)
    requires BestSoFar(occ, scores, best, bestScore)
    ensures BestSoFar(occ + [c], scores + [score], if score > bestScore then c else best,
                      if score > bestScore then score else bestScore)
  {
    if score > bestScore {
      assert Wins(scores + [score], |occ|);
    } else {
      var b :| 0 <= b < |occ| && best == occ[b] && bestScore == scores[b] && Wins(scores, b);
      assert Wins(scores + [score], b);
    }
  }

  // The same over the occurrences passed so far, with their alignment scores.
  ghost predicate Searched(original: Bytes, data: Bytes, offset: nat, length: nat, passed: seq<nat>,
                           best: int, bestScore: int) {
    && offset + length <= |data| && AllFit(original, length, passed)
    && BestSoFar(passed, Scores(original, data, offset, length, passed), best, bestScore)
  }

  method BestAlignedOccurrence(original: Bytes, data: Bytes, offset: nat, length: nat) returns (best: int)
    requires 0 < length && offset + length <= |data|
    ensures var occ := Occurrences(original, data[offset..offset + length], 0);
      AllFit(original, length, occ) && FirstBest(occ, Scores(original, data, offset, length, occ), best)
  {
    hide IndexFrom, Index, Occurrences, Scores, Score, FirstBest, BestSoFar;
    var secret := data[offset..offset + length];
    best := -1;
    var bestScore: int := -1;
    var start := 0;
    ghost var passed: seq<nat> := [];
    SearchStart(original, data, offset, length);
    while true
      invariant Scanned(original, secret, start, passed)
      invariant Searched(original, data, offset, length, passed, best, bestScore)
      decreases |original| - start
    {
      var next := Index(original[start..], secret);
      ScanStep(original, secret, start, passed);
      if next == -1 {
        SearchEnd(original, data, offset, length, passed, best, bestScore);
        return;
      }
      var candidate := start + next;
      best, bestScore := Consider(original, data, offset, length, candidate, best, bestScore, passed);
      passed := passed + [candidate];
      start := candidate + length;
    }
  }

  lemma SearchStart(original: Bytes, data: Bytes, offset: nat, length: nat)
    requires offset + length <= |data|
    ensures Searched(original, data, offset, length, [], -1, -1)
  {
  }

  lemma SearchEnd(original: Bytes, data: Bytes, offset: nat, length: nat, passed: seq<nat>, best: int, bestScore: int)
    requires Searched(original, data, offset, length, passed, best, bestScore)
    ensures FirstBest(passed, Scores(original, data, offset, length, passed), best)
  {
  }

  lemma ScoresPush(original: Bytes, data: Bytes, offset: nat, length: nat, passed: seq<nat>, candidate: nat)
    requires offset + length <= |data| && AllFit(original, length, passed) && candidate + length <= |original|
    ensures AllFit(original, length, passed + [candidate])
    ensures Scores(original, data, offset, length, passed + [candidate]) ==
      Scores(original, data, offset, length, passed) + [Score(original, data, candidate, offset, length)]
  {
    hide Score;
    assert (passed + [candidate])[..|passed|] == passed;
  }

  // The body of the loop: the candidate replaces best if it scores higher.
  method Consider(original: Bytes, data: Bytes, offset: nat, length: nat, candidate: nat, best: int, bestScore: int,
                  ghost passed: seq<nat>)
    returns (best': int, bestScore': int)
    requires Searched(original, data, offset, length, passed, best, bestScore) && candidate + length <= |original|
    ensures Searched(original, data, offset, length, passed + [candidate], best', bestScore')
  {
    hide BestSoFar, LongestSuffix, LongestPrefix;
    var score := AlignmentScore(original, data, candidate, offset, length);
    assert score == Score(original, data, candidate, offset, length);
    hide Score;
    BestStep(passed, Scores(original, data, offset, length, passed), best, bestScore, candidate, score);
    ScoresPush(original, data, offset, length, passed, candidate);
    hide Scores;
    best', bestScore' := best, bestScore;
    if score > bestScore {
      best', bestScore' := candidate, score;
    }
  }

  // ---------------------------------------------------------------- the mapping

  // The guard of sourceOffset: there is a source, and the secret lies within data.
  predicate Mappable(original: Bytes, data: Bytes, offset: int, length: int) {
    original != [] && length > 0 && 0 <= offset && offset + length <= |data|
  }

  ghost predicate Occurs(s: Bytes, sep: Bytes) {
    exists i :: MatchAt(s, sep, i)
  }

  lemma OccursIffCounted(s: Bytes, sep: Bytes)
    requires sep != []
    ensures Occurs(s, sep) <==> Count(s, sep) > 0
  {
    OccursIffIndexed(s, sep, 0);
    OccurrencesSpread(s, sep, 0);
    if Count(s, sep) > 0 {
      assert MatchAt(s, sep, Occurrences(s, sep, 0)[0]);
    }
  }

  // The tail of the occurrences after the kth is a scan from its position.
  lemma {:induction false} OccurrencesFromKth(s: Bytes, sep: Bytes, from: nat, k: nat)
    requires sep != [] && k < |Occurrences(s, sep, from)|
    ensures Occurrences(s, sep, from)[k..] == Occurrences(s, sep, Occurrences(s, sep, from)[k])
    decreases |s| - from
  {
    var i := IndexFrom(s, sep, from);
    var rest := Occurrences(s, sep, i + |sep|);
    if k == 0 {
      IndexFinds(s, sep, from);
      IndexUnique(s, sep, i, i);
    } else {
      OccurrencesFromKth(s, sep, i + |sep|, k - 1);
      assert ([i] + rest)[k..] == rest[k - 1..];
    }
  }

  // At the kth occurrence there are k occurrences before and the others from there on.
  lemma CountsAroundKth(s: Bytes, sep: Bytes, k: nat)
    requires sep != [] && k < Count(s, sep)
    ensures var p := Occurrences(s, sep, 0)[k];
      p <= |s| && Count(s[..p], sep) == k && Count(s[p..], sep) == Count(s, sep) - k
  {
    hide IndexFrom, Occurrences;
    var occ := Occurrences(s, sep, 0);
    OccurrencesSpread(s, sep, 0);
    var p := occ[k];
    assert MatchAt(s, sep, p);
    OccurrencesInPrefix(s, sep, p, 0);
    var a := Occurrences(s[..p], sep, 0);
    OccurrencesSpread(s[..p], sep, 0);
    OccurrencesInSuffix(s, sep, p, 0);
    OccurrencesFromKth(s, sep, 0, k);
  }

  lemma SecretCounted(data: Bytes, offset: nat, length: nat)
    requires 0 < length && offset + length <= |data|
    ensures Count(data[offset..], data[offset..offset + length]) > 0
  {
    var secret := data[offset..offset + length];
    assert data[offset..][0..0 + length] == secret;
    assert MatchAt(data[offset..], secret, 0);
    OccursIffCounted(data[offset..], secret);
  }

  // The mapping: -1 exactly when the guard fails or the detected bytes are absent from the source;
  // otherwise a true occurrence: the same offset in an unchanged buffer, the nth occurrence for the nth
  // when decoding kept their number, and else the first of the best aligned ones.
  ghost predicate MapsTo(original: Bytes, data: Bytes, offset: int, length: nat, r: int) {
    if !Mappable(original, data, offset, length) then r == -1
    else
      var secret := data[offset..offset + length];
      && (r == -1 <==> !Occurs(original, secret))
      && (r != -1 ==> MatchAt(original, secret, r))
      && (if original == data then r == offset
          else if Count(original, secret) == Count(data[..offset], secret) + Count(data[offset..], secret) then
            Count(data[..offset], secret) < Count(original, secret) &&
            r == Occurrences(original, secret, 0)[Count(data[..offset], secret)]
          else
            var occ := Occurrences(original, secret, 0);
            AllFit(original, length, occ) && FirstBest(occ, Scores(original, data, offset, length, occ), r))
  }

  method SourceOffset(original: Bytes, data: Bytes, offset: int, length: nat) returns (r: int)
    ensures MapsTo(original, data, offset, length, r)
  {
    hide IndexFrom, Index, Occurrences, Scores, Score;
    if |original| == 0 || length == 0 || offset < 0 || offset + length > |data| {
      return -1;
    }
    var secret := data[offset..offset + length];
    if original == data {
      assert MatchAt(original, secret, offset);
      return offset;
    }
    var preceding := Count(data[..offset], secret);
    var sourceIndex, sourceCount := NthOccurrence(original, secret, preceding);
    OccursIffCounted(original, secret);
    OccurrencesSpread(original, secret, 0);
    SecretCounted(data, offset, length);
    if sourceCount == 0 {
      NoneToAlign(original, data, offset, length);
      return -1;
    }
    if sourceCount == preceding + Count(data[offset..], secret) {
      return sourceIndex;
    }
    r := BestAlignedOccurrence(original, data, offset, length);
  }

  lemma NoneToAlign(original: Bytes, data: Bytes, offset: nat, length: nat)
    requires 0 < length && offset + length <= |data| && Count(original, data[offset..offset + length]) == 0
    ensures var occ := Occurrences(original, data[offset..offset + length], 0);
      AllFit(original, length, occ) && FirstBest(occ, Scores(original, data, offset, length, occ), -1)
  {
  }

  // When decoding kept the number of occurrences, the kth in the decoded data maps to the kth in
  // the source.
  lemma KthToKth(original: Bytes, data: Bytes, offset: nat, length: nat, k: nat, r: int)
    requires Mappable(original, data, offset, length) && MapsTo(original, data, offset, length, r)
    requires var secret := data[offset..offset + length];
      k < Count(data, secret) && Occurrences(data, secret, 0)[k] == offset && Count(original, secret) == Count(data, secret)
    ensures r == Occurrences(original, data[offset..offset + length], 0)[k]
  {
    hide IndexFrom, Scores, Score, FirstBest, Occurs;
    CountsAroundKth(data, data[offset..offset + length], k);
  }
}
