/**
 Looking inside base64 runs: wrappedRuns, encodedParts and the sweep of scanEncoded.

 `locs` are the matches of the base64 pattern. Decoding a stretch and scanning the decoded text are
 parameters.
 */
module EncodedRuns {
  import opened Options
  import opened Bytes
  import opened Utf8
  import opened Findings

  datatype Line = Line(from: nat, to: nat)

  predicate IsBase64Byte(b: byte) {
    ('A' as int <= b <= 'Z' as int) || ('a' as int <= b <= 'z' as int) || ('0' as int <= b <= '9' as int) ||
    b == '+' as int || b == '/' as int || b == '=' as int
  }

  // A letter, a digit, '+', '-', '/', '=' or '_', by its number in ASCII.
  ghost predicate InAlphabet(b: byte) {
    65 <= b <= 90 || 97 <= b <= 122 || 48 <= b <= 57 || b == 43 || b == 45 || b == 47 || b == 61 || b == 95
  }

  ghost predicate AllEncoded(data: Bytes, from: nat, to: nat) {
    from <= to <= |data| && forall k :: from <= k < to ==> InAlphabet(data[k])
  }

  // Matches of the pattern: runs of these bytes, one after the other.
  ghost predicate AreMatches(data: Bytes, locs: seq<Line>) {
    && (forall i :: 0 <= i < |locs| ==> locs[i].from < locs[i].to && AllEncoded(data, locs[i].from, locs[i].to))
    && (forall i, j :: 0 <= i < j < |locs| ==> locs[i].to <= locs[j].from)
  }

  // A value that comes to `cur` goes on with `next`: cur is 64 or 76 columns wide and does not end in '=', one
  // line break comes after it, and next is all the bytes of the alphabet that follow.
  ghost predicate Follows(data: Bytes, cur: Line, next: Line) {
    && cur.from < cur.to < next.from < next.to <= |data|
    && (cur.to - cur.from == 64 || cur.to - cur.from == 76) && data[cur.to - 1] != 61
    && (data[cur.to..next.from] == [10] || data[cur.to..next.from] == [13, 10])
    && AllEncoded(data, next.from, next.to) && (next.to == |data| || !InAlphabet(data[next.to]))
  }

  predicate InData(data: Bytes, lines: seq<Line>) { forall i :: 0 <= i < |lines| ==> lines[i].from < lines[i].to <= |data| }

  ghost predicate AtLineStart(data: Bytes, at: nat)
    requires at <= |data|
  {
    at == 0 || data[at - 1] == 10
  }

  // Each line is what the one before it goes on with.
  ghost predicate Chained(data: Bytes, lines: seq<Line>) {
    forall i :: 0 < i < |lines| ==> Follows(data, lines[i - 1], lines[i])
  }

  ghost predicate Stops(data: Bytes, cur: Line) { forall next :: !Follows(data, cur, next) }

  // The lines of one value: all of them, if it starts a line, and one otherwise.
  ghost predicate IsValue(data: Bytes, lines: seq<Line>) {
    && lines != [] && InData(data, lines) && Chained(data, lines)
    && (if AtLineStart(data, lines[0].from) then Stops(data, lines[|lines| - 1]) else |lines| == 1)
  }

  function First(lines: seq<Line>): nat
    requires lines != []
  {
    lines[0].from
  }

  function End(lines: seq<Line>): nat
    requires lines != []
  {
    lines[|lines| - 1].to
  }

  // What follows a line starts past its break, and no byte of the break is in the alphabet.
  lemma FollowsApart(data: Bytes, cur: Line, next: Line)
    requires Follows(data, cur, next)
    ensures forall k :: cur.to <= k < next.from ==> !InAlphabet(data[k])
    ensures data[next.from - 1] == 10
  {
    var gap := data[cur.to..next.from];
    forall k | cur.to <= k < next.from ensures data[k] == 10 || data[k] == 13 { assert data[k] == gap[k - cur.to]; }
    assert data[next.from - 1] == gap[|gap| - 1];
  }

  lemma FollowsOne(data: Bytes, cur: Line, next: Line, other: Line)
    requires Follows(data, cur, next) && Follows(data, cur, other)
    ensures next == other
  {
    assert data[cur.to..next.from][0] == data[cur.to] == data[cur.to..other.from][0];
  }

  // The line that may follow: the byte after the break, if there is one, decides.
  lemma FollowsFrom(data: Bytes, cur: Line, at: nat, next: Line)
    requires cur.to < |data| && (if data[cur.to] == 10 then at == cur.to + 1 else at == cur.to + 2) && Follows(data, cur, next)
    ensures next.from == at < |data| && InAlphabet(data[at])
  {
    assert data[cur.to..next.from][0] == data[cur.to];
  }

  lemma BreakFollows(data: Bytes, cur: Line, next: Line)
    requires Follows(data, cur, next)
    ensures data[cur.to] == 10 || (cur.to + 1 < |data| && data[cur.to] == 13 && data[cur.to + 1] == 10)
  {
    var gap := data[cur.to..next.from];
    assert gap[0] == data[cur.to] && (|gap| == 2 ==> gap[1] == data[cur.to + 1]);
  }

  method ValueAt(data: Bytes, first: Line) returns (lines: seq<Line>)
    requires first.from < first.to <= |data|
    ensures IsValue(data, lines) && lines[0] == first
  {
    hide Follows, InAlphabet;
    lines := [first];
    if first.from != 0 && data[first.from - 1] != NEWLINE { return; }
    while true
      invariant lines != [] && InData(data, lines) && Chained(data, lines) && lines[0] == first
      decreases |data| - End(lines)
    {
      var next := NextLine(data, lines[|lines| - 1]);
      if next.None? { break; }
      lines := lines + [next.value];
    }
  }

  // The body of the loop: the line that `cur` goes on with, if there is one.
  method NextLine(data: Bytes, cur: Line) returns (next: Option<Line>)
    requires cur.from < cur.to <= |data|
    ensures if next.None? then Stops(data, cur) else Follows(data, cur, next.value) && cur.to < next.value.to <= |data|
  {
    var w := cur.to - cur.from;
    if (w != 64 && w != 76) || data[cur.to - 1] == '=' as int { return None; }
    var at := cur.to;
    if at + 1 < |data| && data[at] == 13 && data[at + 1] == NEWLINE {
      at := at + 2;
      assert data[cur.to..at] == [13, 10];
    } else if at < |data| && data[at] == NEWLINE {
      at := at + 1;
      assert data[cur.to..at] == [10];
    } else {
      forall b | Follows(data, cur, b) ensures false { BreakFollows(data, cur, b); }
      return None;
    }
    var k := at;
    while k < |data| && (IsBase64Byte(data[k]) || data[k] == '-' as int || data[k] == '_' as int)
      invariant at <= k <= |data| && AllEncoded(data, at, k)
    {
      k := k + 1;
    }
    if k == at {
      forall b | Follows(data, cur, b) ensures false { FollowsFrom(data, cur, at, b); }
      return None;
    }
    return Some(Line(at, k));
  }

  lemma {:induction false} LinesAscend(data: Bytes, lines: seq<Line>)
    requires lines != [] && InData(data, lines) && Chained(data, lines)
    ensures forall i, j :: 0 <= i < j < |lines| ==> lines[i].to <= lines[j].from
  {
    if |lines| > 1 {
      var last := |lines| - 1;
      LinesAscend(data, lines[..last]);
      assert Follows(data, lines[last - 1], lines[last]);
    }
  }

  // A match that starts past the first line and before the end lies in one of the lines.
  lemma {:induction false} MatchInValue(data: Bytes, lines: seq<Line>, m: Line)
    requires lines != [] && InData(data, lines) && Chained(data, lines)
    requires m.from < m.to && AllEncoded(data, m.from, m.to) && lines[0].to <= m.from < End(lines)
    ensures m.to <= End(lines)
    decreases |lines|
  {
    if |lines| > 1 {
      var before := lines[..|lines| - 1];
      assert Follows(data, before[|before| - 1], lines[|lines| - 1]);
      FollowsApart(data, before[|before| - 1], lines[|lines| - 1]);
      if m.from < End(before) {
        MatchInValue(data, before, m);
      } else {
        assert End(lines) == |data| || !InAlphabet(data[End(lines)]);
      }
    }
  }

  // ---------------------------------------------------------------- wrappedRuns

  ghost predicate Ascend(groups: seq<seq<Line>>) {
    && (forall g :: 0 <= g < |groups| ==> groups[g] != [])
    && (forall g, h :: 0 <= g < h < |groups| ==> End(groups[g]) <= First(groups[h]))
  }

  predicate Within(m: Line, lines: seq<Line>) { lines != [] && First(lines) <= m.from && m.to <= End(lines) }

  ghost predicate InOne(groups: seq<seq<Line>>, m: Line) { exists g :: 0 <= g < |groups| && Within(m, groups[g]) }

  // Past the matches that start before the value ends.
  method SkipValue(data: Bytes, locs: seq<Line>, i: nat, lines: seq<Line>) returns (last: nat)
    requires AreMatches(data, locs) && i < |locs| && IsValue(data, lines) && lines[0] == locs[i]
    ensures i <= last < |locs| && (last + 1 < |locs| ==> End(lines) <= locs[last + 1].from)
    ensures forall j :: i <= j <= last ==> Within(locs[j], lines)
  {
    LinesAscend(data, lines);
    last := i;
    while last + 1 < |locs| && locs[last + 1].from < End(lines)
      invariant i <= last < |locs|
      invariant forall j :: i <= j <= last ==> Within(locs[j], lines)
    {
      last := last + 1;
      MatchInValue(data, lines, locs[last]);
    }
  }

  lemma InOnePush(groups: seq<seq<Line>>, lines: seq<Line>, m: Line)
    requires InOne(groups, m) || Within(m, lines)
    ensures InOne(groups + [lines], m)
  {
    var all := groups + [lines];
    if InOne(groups, m) {
      var g :| 0 <= g < |groups| && Within(m, groups[g]);
      assert Within(m, all[g]);
    } else {
      assert Within(m, all[|groups|]);
    }
  }

  ghost predicate AreValues(data: Bytes, locs: seq<Line>, groups: seq<seq<Line>>) {
    forall g :: 0 <= g < |groups| ==> IsValue(data, groups[g]) && groups[g][0] in locs
  }

  lemma ValueSpans(data: Bytes, lines: seq<Line>)
    requires IsValue(data, lines)
    ensures lines != [] && First(lines) < End(lines)
  {
    LinesAscend(data, lines);
  }

  /** Groups the matches into values: each group is a value that starts at a match, the groups come
      one after the other, and each match lies in one of them. */
  method WrappedRuns(data: Bytes, locs: seq<Line>) returns (groups: seq<seq<Line>>)
    requires AreMatches(data, locs)
    ensures AreValues(data, locs, groups) && Ascend(groups)
    ensures forall i :: 0 <= i < |locs| ==> InOne(groups, locs[i])
  {
    hide IsValue, InOne, Within, InAlphabet;
    groups := [];
    var i := 0;
    while i < |locs|
      invariant 0 <= i <= |locs|
      invariant AreValues(data, locs, groups) && Ascend(groups)
      invariant forall j :: 0 <= j < i ==> InOne(groups, locs[j])
      invariant i < |locs| && groups != [] ==> End(groups[|groups| - 1]) <= locs[i].from
    {
      var lines := ValueAt(data, locs[i]);
      var last := SkipValue(data, locs, i, lines);
      assert lines != [] by { ValueSpans(data, lines); }
      assert Ascend(groups + [lines]) by {
        forall g | 0 <= g < |groups| ensures First(groups[g]) <= End(groups[g]) {
          ValueSpans(data, groups[g]);
        }
        hide Ascend;
        AscendPush(groups, lines);
      }
      hide Ascend;
      forall j | 0 <= j <= last ensures InOne(groups + [lines], locs[j]) {
        InOnePush(groups, lines, locs[j]);
      }
      groups := groups + [lines];
      i := last + 1;
    }
  }

  lemma AscendPush(groups: seq<seq<Line>>, lines: seq<Line>)
    requires Ascend(groups) && lines != [] && (groups != [] ==> End(groups[|groups| - 1]) <= First(lines))
    requires forall g :: 0 <= g < |groups| ==> First(groups[g]) <= End(groups[g])
    ensures Ascend(groups + [lines])
  {
    var all := groups + [lines];
    forall g, h | 0 <= g < h < |all| ensures End(all[g]) <= First(all[h]) {
      if h == |groups| && g < |groups| - 1 {
        assert End(groups[g]) <= First(groups[|groups| - 1]) <= End(groups[|groups| - 1]);
      }
    }
  }

  /** No match lies in two groups. */
  lemma OneGroupOnly(groups: seq<seq<Line>>, m: Line, g: nat, h: nat)
    requires Ascend(groups) && m.from < m.to && g < |groups| && h < |groups|
    requires Within(m, groups[g]) && Within(m, groups[h])
    ensures g == h
  {
    if g < h {
      GroupBefore(groups, g, h);
    } else if h < g {
      GroupBefore(groups, h, g);
    }
  }

  lemma GroupBefore(groups: seq<seq<Line>>, g: nat, h: nat)
    requires Ascend(groups) && g < h < |groups|
    ensures End(groups[g]) <= First(groups[h])
  {
  }

  // ---------------------------------------------------------------- a wrapped value is one group

  // The groups are the values that the matches make up.
  ghost predicate AreGroups(data: Bytes, locs: seq<Line>, groups: seq<seq<Line>>) {
    AreValues(data, locs, groups) && Ascend(groups) && forall i :: 0 <= i < |locs| ==> InOne(groups, locs[i])
  }

  // Lines of text with a break between each and the next.
  function Joined(texts: seq<Bytes>, brk: Bytes): Bytes
    decreases |texts|
  {
    if texts == [] then [] else if |texts| == 1 then texts[0] else texts[0] + brk + Joined(texts[1..], brk)
  }

  // Where these lines are when the first starts at `at`.
  function LinesAt(at: nat, texts: seq<Bytes>, brk: Bytes): (lines: seq<Line>)
    ensures |lines| == |texts| && (texts != [] ==> lines[0].from == at)
    decreases |texts|
  {
    if texts == [] then [] else [Line(at, at + |texts[0]|)] + LinesAt(at + |texts[0]| + |brk|, texts[1..], brk)
  }

  // Where a piece of text lies in data.
  lemma Sliced(data: Bytes, pre: Bytes, text: Bytes, rest: Bytes)
    requires data == pre + text + rest
    ensures |pre| + |text| <= |data| && data[|pre|..|pre| + |text|] == text && data[|pre| + |text|..] == rest
  {
  }

  // The lines of these texts in data, with a break between each and the next.
  ghost predicate AreLinesOf(data: Bytes, lines: seq<Line>, texts: seq<Bytes>, brk: Bytes) {
    && |lines| == |texts|
    && (forall i :: 0 <= i < |lines| ==> lines[i].from <= lines[i].to <= |data| && data[lines[i].from..lines[i].to] == texts[i])
    && (forall i :: 0 < i < |lines| ==> lines[i - 1].to <= lines[i].from && data[lines[i - 1].to..lines[i].from] == brk)
  }

  lemma LinesPush(data: Bytes, l: Line, more: seq<Line>, text: Bytes, texts: seq<Bytes>, brk: Bytes)
    requires AreLinesOf(data, more, texts, brk) && more != []
    requires l.from <= l.to <= more[0].from && data[l.from..l.to] == text && data[l.to..more[0].from] == brk
    ensures AreLinesOf(data, [l] + more, [text] + texts, brk)
  {
    var lines := [l] + more;
    forall i | 0 < i < |lines| ensures lines[i - 1].to <= lines[i].from && data[lines[i - 1].to..lines[i].from] == brk {
      if i > 1 { assert lines[i - 1] == more[i - 2] && lines[i] == more[i - 1]; }
    }
  }

  lemma FirstLineOf(data: Bytes, pre: Bytes, text: Bytes, brk: Bytes, rest: Bytes, post: Bytes)
    requires data == pre + (text + brk + rest) + post
    ensures var a, b := |pre| + |text|, |pre| + |text| + |brk|;
      b <= |data| && data[|pre|..a] == text && data[a..b] == brk && data == (pre + text + brk) + rest + post
  {
    Sliced(data, pre, text, brk + rest + post);
    Sliced(data, pre + text, brk, rest + post);
  }

  lemma OneLineMore(at: nat, texts: seq<Bytes>, brk: Bytes)
    requires |texts| > 1
    ensures Joined(texts, brk) == texts[0] + brk + Joined(texts[1..], brk)
    ensures LinesAt(at, texts, brk) == [Line(at, at + |texts[0]|)] + LinesAt(at + |texts[0]| + |brk|, texts[1..], brk)
  {
  }

  lemma OneLineOnly(data: Bytes, pre: Bytes, texts: seq<Bytes>, brk: Bytes, post: Bytes)
    requires data == pre + Joined(texts, brk) + post && |texts| == 1
    ensures AreLinesOf(data, LinesAt(|pre|, texts, brk), texts, brk) && LinesAt(|pre|, texts, brk)[0].to == |pre| + |Joined(texts, brk)|
  {
    Sliced(data, pre, texts[0], post);
    assert LinesAt(|pre|, texts, brk) == [Line(|pre|, |pre| + |texts[0]|)];
  }

  lemma {:induction false} LinesOfJoined(data: Bytes, pre: Bytes, texts: seq<Bytes>, brk: Bytes, post: Bytes)
    requires data == pre + Joined(texts, brk) + post && texts != []
    ensures var lines := LinesAt(|pre|, texts, brk);
      AreLinesOf(data, lines, texts, brk) && lines[|lines| - 1].to == |pre| + |Joined(texts, brk)|
    decreases |texts|
  {
    hide Joined, AreLinesOf, LinesAt;
    if |texts| == 1 {
      OneLineOnly(data, pre, texts, brk, post);
    } else {
      OneLineMore(|pre|, texts, brk);
      var head, rest := pre + texts[0] + brk, Joined(texts[1..], brk);
      FirstLineOf(data, pre, texts[0], brk, rest, post);
      LinesOfJoined(data, head, texts[1..], brk, post);
      assert |head| == |pre| + |texts[0]| + |brk|;
      LinesPush(data, Line(|pre|, |pre| + |texts[0]|), LinesAt(|head|, texts[1..], brk), texts[0], texts[1..], brk);
      assert [texts[0]] + texts[1..] == texts;
    }
  }

  ghost predicate AllInAlphabet(s: Bytes) { forall b :: b in s ==> InAlphabet(b) }

  ghost predicate FullWidth(text: Bytes) {
    (|text| == 64 || |text| == 76) && text[|text| - 1] != 61
  }

  // Text of a line break and a byte of the alphabet.
  ghost predicate GoesOn(post: Bytes) {
    (|post| > 1 && post[0] == 10 && InAlphabet(post[1])) || (|post| > 2 && post[0] == 13 && post[1] == 10 && InAlphabet(post[2]))
  }

  // The lines of a wrapped value: all but the last are full, and the value ends after the last.
  ghost predicate Wrapped(texts: seq<Bytes>, brk: Bytes, post: Bytes) {
    && texts != [] && (brk == [10] || brk == [13, 10])
    && (forall i :: 0 <= i < |texts| ==> texts[i] != [] && AllInAlphabet(texts[i]))
    && (forall i :: 0 <= i < |texts| - 1 ==> FullWidth(texts[i]))
    && (post == [] || !InAlphabet(post[0])) && !(FullWidth(texts[|texts| - 1]) && GoesOn(post))
  }

  // A full line of its own: from the start of a line, and with one line break after it.
  ghost predicate EndsInFullLine(s: Bytes, from: nat, to: nat) {
    && from < to <= |s| && (from == 0 || s[from - 1] == 10)
    && FullWidth(s[from..to]) && AllInAlphabet(s[from..to]) && (s[to..] == [10] || s[to..] == [13, 10])
  }

  // The value starts a line, and the text before it does not end in a full line that would go on with it.
  ghost predicate Opens(pre: Bytes) {
    (pre == [] || pre[|pre| - 1] == 10) && forall from, to :: !EndsInFullLine(pre, from, to)
  }

  lemma TextAlphabet(data: Bytes, l: Line, text: Bytes)
    requires l.from <= l.to <= |data| && data[l.from..l.to] == text && AllInAlphabet(text)
    ensures AllEncoded(data, l.from, l.to)
  {
    forall k | l.from <= k < l.to ensures InAlphabet(data[k]) { assert data[k] == text[k - l.from] && text[k - l.from] in text; }
  }

  lemma WrappedFollows(data: Bytes, cur: Line, next: Line, text: Bytes, more: Bytes, brk: Bytes)
    requires cur.from < cur.to <= next.from < next.to <= |data| && (brk == [10] || brk == [13, 10])
    requires data[cur.from..cur.to] == text && data[next.from..next.to] == more && data[cur.to..next.from] == brk
    requires FullWidth(text) && AllInAlphabet(more) && (next.to == |data| || !InAlphabet(data[next.to]))
    ensures Follows(data, cur, next)
  {
    TextAlphabet(data, next, more);
    assert data[cur.to - 1] == text[|text| - 1];
  }

  lemma FollowsGoesOn(data: Bytes, cur: Line, next: Line)
    requires Follows(data, cur, next)
    ensures FullWidth(data[cur.from..cur.to]) && GoesOn(data[cur.to..])
  {
    var text, post := data[cur.from..cur.to], data[cur.to..];
    assert data[cur.to - 1] == text[|text| - 1];
    BreakFollows(data, cur, next);
    assert post[0] == data[cur.to] && post[1] == data[cur.to + 1];
    if data[cur.to] == 10 {
      FollowsFrom(data, cur, cur.to + 1, next);
    } else {
      FollowsFrom(data, cur, cur.to + 2, next);
      assert post[2] == data[cur.to + 2];
    }
  }

  lemma WrappedStops(data: Bytes, last: Line, text: Bytes, post: Bytes)
    requires last.from <= last.to <= |data| && data[last.from..last.to] == text && data[last.to..] == post
    requires !(FullWidth(text) && GoesOn(post))
    ensures Stops(data, last)
  {
    hide FullWidth, GoesOn, Follows;
    forall next ensures !Follows(data, last, next) {
      if Follows(data, last, next) { FollowsGoesOn(data, last, next); }
    }
  }

  lemma WrappedIsValue(data: Bytes, pre: Bytes, texts: seq<Bytes>, brk: Bytes, post: Bytes)
    requires data == pre + Joined(texts, brk) + post && Wrapped(texts, brk, post) && (pre == [] || pre[|pre| - 1] == 10)
    ensures var lines := LinesAt(|pre|, texts, brk);
      && IsValue(data, lines) && AtLineStart(data, |pre|) && AreLinesOf(data, lines, texts, brk)
      && lines[|lines| - 1].to == |pre| + |Joined(texts, brk)|
  {
    LinesOfJoined(data, pre, texts, brk, post);
    Sliced(data, pre, Joined(texts, brk), post);
    assert pre != [] ==> data[|pre| - 1] == pre[|pre| - 1];
    var lines := LinesAt(|pre|, texts, brk);
    hide Joined, LinesAt;
    LinesAreValue(data, lines, texts, brk, post);
  }

  lemma LinesAreValue(data: Bytes, lines: seq<Line>, texts: seq<Bytes>, brk: Bytes, post: Bytes)
    requires Wrapped(texts, brk, post) && AreLinesOf(data, lines, texts, brk) && data[lines[|lines| - 1].to..] == post
    requires AtLineStart(data, lines[0].from)
    ensures IsValue(data, lines)
  {
    WrappedStops(data, lines[|lines| - 1], texts[|texts| - 1], post);
    forall i | 0 <= i < |lines| ensures lines[i].from < lines[i].to {
      assert |data[lines[i].from..lines[i].to]| == |texts[i]|;
    }
    hide Stops, AtLineStart, Follows, AllInAlphabet, FullWidth, GoesOn;
    forall i | 0 < i < |lines| ensures Follows(data, lines[i - 1], lines[i]) {
      EndsRun(data, lines, texts, brk, post, i);
      WrappedFollows(data, lines[i - 1], lines[i], texts[i - 1], texts[i], brk);
    }
  }

  // After each line comes its break, or what comes after the value.
  lemma EndsRun(data: Bytes, lines: seq<Line>, texts: seq<Bytes>, brk: Bytes, post: Bytes, i: nat)
    requires i < |lines| && Wrapped(texts, brk, post) && AreLinesOf(data, lines, texts, brk) && data[lines[|lines| - 1].to..] == post
    ensures lines[i].to == |data| || !InAlphabet(data[lines[i].to])
  {
    if i < |lines| - 1 {
      assert data[lines[(i + 1) - 1].to..lines[i + 1].from] == brk;
      assert data[lines[i].to] == brk[0];
    } else if lines[i].to < |data| {
      assert data[lines[i].to] == post[0];
    }
  }

  // A line that another one of the value follows does not stop it.
  lemma GoesPast(data: Bytes, lines: seq<Line>, n: nat)
    requires Chained(data, lines) && 0 < n < |lines|
    ensures !Stops(data, lines[n - 1])
  {
    assert Follows(data, lines[n - 1], lines[n]);
  }

  lemma {:induction false} SameValue(data: Bytes, lines: seq<Line>, other: seq<Line>)
    requires IsValue(data, lines) && IsValue(data, other) && lines[0] == other[0]
    ensures lines == other
  {
    var n := if |lines| < |other| then |lines| else |other|;
    forall i | 0 <= i < n ensures lines[i] == other[i] { SameLine(data, lines, other, i); }
    hide Stops, Chained;
    if n < |lines| {
      GoesPast(data, lines, n);
    } else if n < |other| {
      GoesPast(data, other, n);
    }
  }

  lemma {:induction false} SameLine(data: Bytes, lines: seq<Line>, other: seq<Line>, i: nat)
    requires i < |lines| && i < |other| && Chained(data, lines) && Chained(data, other) && lines[0] == other[0]
    ensures lines[i] == other[i]
  {
    hide Follows;
    if i > 0 {
      SameLine(data, lines, other, i - 1);
      FollowsOne(data, lines[i - 1], lines[i], other[i]);
    }
  }

  // Every line of a value but the first starts after a newline.
  lemma LaterLineStarts(data: Bytes, lines: seq<Line>, i: nat)
    requires IsValue(data, lines) && i < |lines| && |lines| > 1
    ensures AtLineStart(data, lines[i].from)
  {
    if i > 0 {
      assert Follows(data, lines[i - 1], lines[i]);
      FollowsApart(data, lines[i - 1], lines[i]);
    }
  }

  lemma LineStartsRun(data: Bytes, l: Line, at: nat)
    requires AllEncoded(data, l.from, l.to) && l.from <= at < l.to && AtLineStart(data, at)
    ensures l.from == at
  {
  }

  // A place at the start of a line is in a value only as the start of one of its lines.
  lemma {:induction false} LineStartIn(data: Bytes, lines: seq<Line>, at: nat) returns (i: nat)
    requires IsValue(data, lines) && AllEncoded(data, lines[0].from, lines[0].to)
    requires at < |data| && AtLineStart(data, at) && InAlphabet(data[at]) && First(lines) <= at < End(lines)
    ensures i < |lines| && lines[i].from == at
  {
    i := LineWith(data, lines, at);
    hide IsValue;
    LineStartsRun(data, lines[i], at);
  }

  lemma {:induction false} LineWith(data: Bytes, lines: seq<Line>, at: nat) returns (i: nat)
    requires lines != [] && InData(data, lines) && Chained(data, lines) && AllEncoded(data, lines[0].from, lines[0].to)
    requires at < |data| && InAlphabet(data[at]) && First(lines) <= at < End(lines)
    ensures i < |lines| && lines[i].from <= at < lines[i].to && AllEncoded(data, lines[i].from, lines[i].to)
    decreases |lines|
  {
    var last := |lines| - 1;
    if last == 0 {
      i := 0;
    } else {
      assert Follows(data, lines[last - 1], lines[last]);
      FollowsApart(data, lines[last - 1], lines[last]);
      hide Follows, InAlphabet;
      if at < lines[last - 1].to {
        i := LineWith(data, lines[..last], at);
      } else {
        i := last;
      }
    }
  }

  // No value that starts before `pre` ends goes on past it.
  lemma NothingLeadsIn(data: Bytes, pre: Bytes, lines: seq<Line>, i: nat)
    requires Opens(pre) && pre <= data && IsValue(data, lines) && AllEncoded(data, lines[0].from, lines[0].to)
    requires i < |lines| && lines[i].from == |pre|
    ensures i == 0
  {
    assert pre == data[..|pre|];
    if i > 0 {
      LaterLineStarts(data, lines, i - 1);
      assert Follows(data, lines[i - 1], lines[i]);
      if i > 1 { assert Follows(data, lines[i - 2], lines[i - 1]); }
      hide IsValue, InAlphabet;
      LeadsIn(data, lines[i - 1], lines[i]);
    }
  }

  lemma LeadsIn(data: Bytes, l: Line, next: Line)
    requires Follows(data, l, next) && AllEncoded(data, l.from, l.to) && AtLineStart(data, l.from)
    ensures EndsInFullLine(data[..next.from], l.from, l.to)
  {
    FullLine(data, l);
    hide AllInAlphabet, FullWidth, AllEncoded;
    var pre := data[..next.from];
    assert pre[l.from..l.to] == data[l.from..l.to] && pre[l.to..] == data[l.to..next.from];
  }

  lemma FullLine(data: Bytes, l: Line)
    requires l.from < l.to <= |data| && AllEncoded(data, l.from, l.to) && data[l.to - 1] != 61
    requires l.to - l.from == 64 || l.to - l.from == 76
    ensures FullWidth(data[l.from..l.to]) && AllInAlphabet(data[l.from..l.to])
  {
    var text := data[l.from..l.to];
    assert text[|text| - 1] == data[l.to - 1];
    forall b | b in text ensures InAlphabet(b) {
      var k :| 0 <= k < |text| && text[k] == b;
      assert data[l.from + k] == b;
    }
  }

  lemma GroupAt(data: Bytes, pre: Bytes, locs: seq<Line>, groups: seq<seq<Line>>, lines: seq<Line>) returns (g: nat)
    requires AreMatches(data, locs) && AreGroups(data, locs, groups) && Opens(pre) && pre <= data
    requires lines != [] && IsValue(data, lines) && lines[0].from == |pre| && lines[0] in locs
    ensures g < |groups| && groups[g] == lines
  {
    g := GroupOf(data, locs, groups, lines[0]);
    var group := groups[g];
    StartsInOpen(data, pre, lines[0]);
    hide IsValue, Ascend, Opens, InAlphabet, AreGroups, AllEncoded, InOne;
    var i := LineStartIn(data, group, |pre|);
    NothingLeadsIn(data, pre, group, i);
    SameMatch(locs, group[0], lines[0], data);
    SameValue(data, group, lines);
  }

  lemma StartsInOpen(data: Bytes, pre: Bytes, l: Line)
    requires Opens(pre) && pre <= data && l.from == |pre| && l.from < l.to && AllEncoded(data, l.from, l.to)
    ensures AtLineStart(data, |pre|) && l.from < |data| && InAlphabet(data[l.from])
  {
    assert pre == data[..|pre|];
  }

  lemma SameMatch(locs: seq<Line>, a: Line, b: Line, data: Bytes)
    requires AreMatches(data, locs) && a in locs && b in locs && a.from == b.from
    ensures a == b
  {
    hide AllEncoded;
  }

  // The group a match lies in starts with a match.
  lemma GroupOf(data: Bytes, locs: seq<Line>, groups: seq<seq<Line>>, m: Line) returns (g: nat)
    requires AreMatches(data, locs) && AreGroups(data, locs, groups) && m in locs
    ensures g < |groups| && Within(m, groups[g]) && IsValue(data, groups[g]) && groups[g][0] in locs
    ensures AllEncoded(data, groups[g][0].from, groups[g][0].to)
    ensures m.from < m.to && AllEncoded(data, m.from, m.to)
  {
    hide IsValue, Ascend, AllEncoded;
    assert InOne(groups, m);
    g :| 0 <= g < |groups| && Within(m, groups[g]);
  }

  lemma OneGroup(data: Bytes, locs: seq<Line>, groups: seq<seq<Line>>, g: nat)
    requires AreGroups(data, locs, groups) && g < |groups|
    ensures OnlyGroup(groups, g)
  {
    hide AreValues, InOne;
  }

  // The group stands alone: every other one ends before it or starts after it.
  ghost predicate OnlyGroup(groups: seq<seq<Line>>, g: nat) {
    g < |groups| && groups[g] != [] && forall h :: 0 <= h < |groups| && h != g ==>
      groups[h] != [] && (End(groups[h]) <= First(groups[g]) || End(groups[g]) <= First(groups[h]))
  }

  /** A value wrapped at 64 or 76 columns, with "\n" or "\r\n", from the start of a line on, makes exactly one
      group, whose lines are the value's: as far as the first line that has another width or ends in '=', or
      that no line of base64 follows. */
  lemma WrappedIsOneGroup(data: Bytes, locs: seq<Line>, groups: seq<seq<Line>>, pre: Bytes, texts: seq<Bytes>, brk: Bytes, post: Bytes)
    returns (g: nat)
    requires AreMatches(data, locs) && AreGroups(data, locs, groups)
    requires data == pre + Joined(texts, brk) + post && Wrapped(texts, brk, post) && Opens(pre)
    requires Line(|pre|, |pre| + |texts[0]|) in locs
    ensures OnlyGroup(groups, g) && |groups[g]| == |texts|
    ensures First(groups[g]) == |pre| && End(groups[g]) == |pre| + |Joined(texts, brk)|
    ensures forall i :: 0 <= i < |texts| ==>
      groups[g][i].from <= groups[g][i].to <= |data| && data[groups[g][i].from..groups[g][i].to] == texts[i]
  {
    WrappedIsValue(data, pre, texts, brk, post);
    var lines := LinesAt(|pre|, texts, brk);
    assert lines[0] == Line(|pre|, |pre| + |texts[0]|);
    hide Wrapped, Joined, LinesAt, Opens, AreMatches, AreGroups, IsValue, OnlyGroup;
    assert pre <= data;
    g := GroupAt(data, pre, locs, groups, lines);
    OneGroup(data, locs, groups, g);
  }

  // ---------------------------------------------------------------- encodedParts

  // A stretch that decodes to readable text; `size` is the length of that text.
  datatype Part = Part(from: nat, to: nat, decoded: Bytes)

  // What decoding answers: decodeBase64Text of a stretch, and whether a line decodes on its own.
  datatype Decoder = Decoder(text: (nat, nat) -> Option<Bytes>, onItsOwn: (nat, nat) -> bool)

  const MAX_ENCODED_RUN := 64 * 1024

  function Decode(d: Decoder, from: nat, to: nat): Option<Part>
    requires from <= to
  {
    if to - from > MAX_ENCODED_RUN then None
    else match d.text(from, to) case Some(text) => Some(Part(from, to, text)) case None => None
  }

  // The part is what the stretch from the start of one line of the value to the end of another decodes to.
  predicate IsPart(d: Decoder, lines: seq<Line>, p: Part) {
    && p.from <= p.to <= p.from + 65536 && d.text(p.from, p.to) == Some(p.decoded)
    && exists a, b :: 0 <= a <= b < |lines| && p.from == lines[a].from && p.to == lines[b].to
  }

  predicate PartsAscend(parts: seq<Part>) { forall i, j :: 0 <= i < j < |parts| ==> parts[i].to <= parts[j].from }

  predicate PartsBetween(parts: seq<Part>, from: nat, to: nat) {
    forall i :: 0 <= i < |parts| ==> from <= parts[i].from <= parts[i].to <= to
  }

  predicate Ordered(lines: seq<Line>) {
    && (forall i :: 0 <= i < |lines| ==> lines[i].from < lines[i].to)
    && (forall i, j :: 0 <= i < j < |lines| ==> lines[i].to <= lines[j].from)
  }

  lemma PartsPush(parts: seq<Part>, from: nat, mid: nat, p: Part, to: nat)
    requires PartsAscend(parts) && PartsBetween(parts, from, mid) && from <= mid <= p.from <= p.to <= to
    ensures PartsAscend(parts + [p]) && PartsBetween(parts + [p], from, to)
  {
  }

  // Where line i starts, or the end of the last.
  function Limit(lines: seq<Line>, i: nat): nat
    requires lines != [] && i <= |lines|
  {
    if i < |lines| then lines[i].from else End(lines)
  }

  // What has been decoded of the lines before i: parts in order, and every readable line in one of them.
  ghost predicate PartsUpTo(d: Decoder, lines: seq<Line>, i: nat, parts: seq<Part>)
    requires lines != [] && i <= |lines|
  {
    && PartsAscend(parts) && PartsBetween(parts, First(lines), Limit(lines, i))
    && (forall p :: p in parts ==> IsPart(d, lines, p))
    && (forall k :: 0 <= k < i && Readable(d, lines[k]) ==> Inside(lines[k], parts))
  }

  predicate Readable(d: Decoder, l: Line) {
    l.from <= l.to <= l.from + 65536 && d.onItsOwn(l.from, l.to) && d.text(l.from, l.to).Some?
  }

  predicate Inside(l: Line, parts: seq<Part>) { exists p :: p in parts && p.from <= l.from && l.to <= p.to }

  lemma InsidePush(l: Line, parts: seq<Part>, p: Part)
    requires Inside(l, parts) || (p.from <= l.from && l.to <= p.to)
    ensures Inside(l, parts + [p])
  {
    if Inside(l, parts) {
      var q :| q in parts && q.from <= l.from && l.to <= q.to;
      assert q in parts + [p];
    } else {
      assert p in parts + [p];
    }
  }

  // The stretch of lines i up to j as one part.
  lemma StretchAdded(d: Decoder, lines: seq<Line>, i: nat, j: nat, parts: seq<Part>, p: Part)
    requires lines != [] && Ordered(lines) && i < j <= |lines| && PartsUpTo(d, lines, i, parts)
    requires p.from == lines[i].from && p.to == lines[j - 1].to && p.from <= p.to && Decode(d, p.from, p.to) == Some(p)
    ensures PartsUpTo(d, lines, j, parts + [p])
  {
    PartsPush(parts, First(lines), lines[i].from, p, Limit(lines, j));
    assert IsPart(d, lines, p);
    forall k | 0 <= k < j && Readable(d, lines[k]) ensures Inside(lines[k], parts + [p]) {
      InsidePush(lines[k], parts, p);
    }
  }

  // A line that gives no part.
  lemma LineSkipped(d: Decoder, lines: seq<Line>, i: nat, parts: seq<Part>)
    requires lines != [] && Ordered(lines) && i < |lines| && PartsUpTo(d, lines, i, parts) && !Readable(d, lines[i])
    ensures PartsUpTo(d, lines, i + 1, parts)
  {
  }

  // The parts of one value.
  method ValueParts(d: Decoder, lines: seq<Line>) returns (parts: seq<Part>)
    requires lines != [] && Ordered(lines)
    ensures PartsUpTo(d, lines, |lines|, parts)
    ensures var text := d.text(First(lines), End(lines));
      End(lines) <= First(lines) + 65536 && text.Some? ==> parts == [Part(First(lines), End(lines), text.value)]
  {
    parts := [];
    OrderedSpan(lines);
    assert PartsUpTo(d, lines, 0, parts);
    var whole := Decode(d, First(lines), End(lines));
    if whole.Some? {
      StretchAdded(d, lines, 0, |lines|, parts, whole.value);
      return [whole.value];
    }
    hide PartsUpTo, Ordered;
    var i := 0;
    while i < |lines|
      invariant 0 <= i <= |lines| && PartsUpTo(d, lines, i, parts)
    {
      var j := i;
      while j < |lines| && d.onItsOwn(lines[j].from, lines[j].to)
        invariant i <= j <= |lines|
      {
        j := j + 1;
      }
      if j == i {
        LineSkipped(d, lines, i, parts);
        i := i + 1;
      } else {
        parts := StretchParts(d, lines, i, j, parts);
        i := j;
      }
    }
  }

  lemma OrderedSpan(lines: seq<Line>)
    requires lines != [] && Ordered(lines)
    ensures First(lines) <= End(lines)
  {
  }

  // A stretch of lines: one part, or the lines that decode alone.
  method StretchParts(d: Decoder, lines: seq<Line>, i: nat, j: nat, parts: seq<Part>) returns (out: seq<Part>)
    requires lines != [] && Ordered(lines) && i < j <= |lines| && PartsUpTo(d, lines, i, parts)
    ensures PartsUpTo(d, lines, j, out)
  {
    assert lines[i].from <= lines[j - 1].to;
    var whole := Decode(d, lines[i].from, lines[j - 1].to);
    if whole.Some? {
      StretchAdded(d, lines, i, j, parts, whole.value);
      return parts + [whole.value];
    }
    out := parts;
    for k := i to j
      invariant PartsUpTo(d, lines, k, out)
    {
      var alone := Decode(d, lines[k].from, lines[k].to);
      if alone.Some? {
        StretchAdded(d, lines, k, k + 1, out, alone.value);
        out := out + [alone.value];
      } else {
        LineSkipped(d, lines, k, out);
      }
    }
  }

  lemma ValueOrdered(data: Bytes, lines: seq<Line>)
    requires IsValue(data, lines)
    ensures Ordered(lines)
  {
    LinesAscend(data, lines);
  }

  // Parts of one value after those of the values before it.
  lemma PartsAppend(parts: seq<Part>, from: nat, mid: nat, more: seq<Part>, next: nat, to: nat)
    requires PartsAscend(parts) && PartsBetween(parts, from, mid) && PartsAscend(more) && PartsBetween(more, next, to)
    requires from <= mid <= next <= to
    ensures PartsAscend(parts + more) && PartsBetween(parts + more, from, to)
  {
  }

  // Every line of a value begins with a byte of the alphabets.
  lemma LineStarts(data: Bytes, locs: seq<Line>, lines: seq<Line>, i: nat)
    requires AreMatches(data, locs) && IsValue(data, lines) && lines[0] in locs && i < |lines|
    ensures lines[i].from < lines[i].to <= |data| && InAlphabet(data[lines[i].from])
  {
    if i > 0 {
      assert Follows(data, lines[i - 1], lines[i]);
    }
  }

  lemma PartFits(d: Decoder, data: Bytes, locs: seq<Line>, lines: seq<Line>, p: Part)
    requires AreMatches(data, locs) && IsValue(data, lines) && lines[0] in locs && IsPart(d, lines, p)
    ensures p.from < p.to <= |data| && RuneStart(data[p.from])
  {
    ValueOrdered(data, lines);
    var a, b :| 0 <= a <= b < |lines| && p.from == lines[a].from && p.to == lines[b].to;
    LineStarts(data, locs, lines, a);
    LineStarts(data, locs, lines, b);
    hide IsValue, AreMatches, IsPart;
  }

  // Each part is part of a value, and every line that is readable by itself is in one of them.
  ghost predicate FromGroups(d: Decoder, groups: seq<seq<Line>>, parts: seq<Part>) {
    && (forall p :: p in parts ==> exists g :: 0 <= g < |groups| && IsPart(d, groups[g], p))
    && (forall g, k :: 0 <= g < |groups| && 0 <= k < |groups[g]| && Readable(d, groups[g][k]) ==> Inside(groups[g][k], parts))
  }

  // The parts of the values that the matches make up; they lie in the data, in order, and start at runes.
  ghost predicate ArePartsOf(d: Decoder, data: Bytes, locs: seq<Line>, parts: seq<Part>) {
    Fit(data, parts) && exists groups :: AreGroups(data, locs, groups) && FromGroups(d, groups, parts)
  }

  // The parts of the first n groups.
  ghost predicate FirstDone(d: Decoder, groups: seq<seq<Line>>, n: nat, parts: seq<Part>) {
    && n <= |groups| && Ascend(groups) && PartsAscend(parts)
    && PartsBetween(parts, 0, if n == 0 then 0 else End(groups[n - 1]))
    && FromGroups(d, groups[..n], parts)
  }

  /** The stretches that decode, in order and apart from one another, and with them every line of a
      value that is readable text by itself. */
  method EncodedParts(d: Decoder, data: Bytes, locs: seq<Line>) returns (parts: seq<Part>)
    requires AreMatches(data, locs)
    ensures ArePartsOf(d, data, locs, parts)
  {
    hide IsValue, AreMatches, IsPart, Readable, InOne, PartsUpTo, Ascend, FirstDone;
    parts := [];
    var groups := WrappedRuns(data, locs);
    NoneDone(d, groups);
    for n := 0 to |groups|
      invariant FirstDone(d, groups, n, parts)
    {
      ValueOrdered(data, groups[n]);
      ValueSpans(data, groups[n]);
      var more := ValueParts(d, groups[n]);
      GroupDone(d, groups, n, parts, more);
      parts := parts + more;
    }
    AllDone(d, groups, parts);
    PartsFit(d, data, locs, groups, parts);
    assert AreGroups(data, locs, groups);
  }

  lemma NoneDone(d: Decoder, groups: seq<seq<Line>>)
    requires Ascend(groups)
    ensures FirstDone(d, groups, 0, [])
  {
  }

  lemma AllDone(d: Decoder, groups: seq<seq<Line>>, parts: seq<Part>)
    requires FirstDone(d, groups, |groups|, parts)
    ensures PartsAscend(parts) && FromGroups(d, groups, parts)
  {
    assert groups[..|groups|] == groups;
  }

  lemma GroupDone(d: Decoder, groups: seq<seq<Line>>, n: nat, parts: seq<Part>, more: seq<Part>)
    requires n < |groups| && FirstDone(d, groups, n, parts)
    requires groups[n] != [] && First(groups[n]) <= End(groups[n]) && PartsUpTo(d, groups[n], |groups[n]|, more)
    ensures FirstDone(d, groups, n + 1, parts + more)
  {
    GroupAdded(d, groups, n, parts, more);
    hide FromGroups, IsPart, Readable, Inside;
    assert n > 0 ==> End(groups[n - 1]) <= First(groups[n]);
    PartsAppend(parts, 0, if n == 0 then 0 else End(groups[n - 1]), more, First(groups[n]), End(groups[n]));
  }

  lemma PartsFit(d: Decoder, data: Bytes, locs: seq<Line>, groups: seq<seq<Line>>, parts: seq<Part>)
    requires AreMatches(data, locs) && AreValues(data, locs, groups) && FromGroups(d, groups, parts) && PartsAscend(parts)
    ensures Fit(data, parts)
  {
    hide IsValue, AreMatches, IsPart, Readable;
    forall i | 0 <= i < |parts|
      ensures parts[i].from < parts[i].to <= |data| && RuneStart(data[parts[i].from])
    {
      assert parts[i] in parts;
      var g :| 0 <= g < |groups| && IsPart(d, groups[g], parts[i]);
      ValueSpans(data, groups[g]);
      PartFits(d, data, locs, groups[g], parts[i]);
    }
  }

  lemma GroupAdded(d: Decoder, groups: seq<seq<Line>>, n: nat, parts: seq<Part>, more: seq<Part>)
    requires n < |groups| && groups[n] != [] && FromGroups(d, groups[..n], parts) && PartsUpTo(d, groups[n], |groups[n]|, more)
    ensures FromGroups(d, groups[..n + 1], parts + more)
  {
    hide IsPart, Readable, Inside, PartsAscend, PartsBetween;
    var now := groups[..n + 1];
    assert now[n] == groups[n] && forall g :: 0 <= g < n ==> now[g] == groups[..n][g];
    InsideAll(parts, more);
    forall p | p in parts + more ensures exists g :: 0 <= g < |now| && IsPart(d, now[g], p) {
      if p in parts {
        var g :| 0 <= g < |groups[..n]| && IsPart(d, groups[..n][g], p);
        assert IsPart(d, now[g], p);
      } else {
        assert IsPart(d, now[n], p);
      }
    }
  }

  lemma InsideAll(parts: seq<Part>, more: seq<Part>)
    ensures forall l :: Inside(l, parts) || Inside(l, more) ==> Inside(l, parts + more)
  {
    forall l | Inside(l, parts) || Inside(l, more) ensures Inside(l, parts + more) {
      var p :| (p in parts || p in more) && p.from <= l.from && l.to <= p.to;
      assert p in parts + more;
    }
  }

  // ---------------------------------------------------------------- scanEncoded

  const MAX_DECODED_BYTES := 256 * 1024
  const DB_CONNECTION_URI_NAME := "db-connection-uri"

  predicate Generic(name: string): (r: bool)
    ensures r <==> name == "generic-secret" || name == "db-connection-uri" || name == "entropy-secret"
  {
    name == GENERIC_SECRET_NAME || name == DB_CONNECTION_URI_NAME || name == ENTROPY_NAME
  }

  // Some named finding contains the span.
  predicate CoveredBy(kept: seq<Finding>, start: int, end: int) {
    exists k :: k in kept && !Generic(k.entity) && k.start <= start && end <= k.end
  }

  predicate Touches(kept: seq<Finding>, start: int, end: int) {
    exists k :: k in kept && k.start < end && k.end > start
  }

  predicate HasNamed(found: seq<Finding>) { exists f :: f in found && !Generic(f.entity) }

  // The first finding of each entity, over the run's span; generic ones only where nothing is named.
  function FirstOfEach(found: seq<Finding>, namedOnly: bool, start: int, end: int): seq<Finding> {
    if found == [] then []
    else
      var before, f := found[..|found| - 1], found[|found| - 1];
      FirstOfEach(before, namedOnly, start, end) +
        if (exists g :: g in before && g.entity == f.entity) || (namedOnly && Generic(f.entity)) then []
        else [f.(start := start, end := end)]
  }

  function Reported(kept: seq<Finding>, found: seq<Finding>, start: int, end: int): seq<Finding> {
    if !HasNamed(found) && Touches(kept, start, end) then [] else FirstOfEach(found, HasNamed(found), start, end)
  }

  function RunStart(data: Bytes, p: Part): nat
    requires p.from <= |data|
  {
    RuneCount(data[..p.from])
  }

  function RunStop(data: Bytes, p: Part): nat
    requires p.from <= p.to <= |data|
  {
    RuneCount(data[..p.from]) + RuneCount(data[p.from..p.to])
  }

  // Parts of the request, in order, that start at a rune.
  predicate Fit(data: Bytes, parts: seq<Part>) {
    PartsAscend(parts) && forall i :: 0 <= i < |parts| ==> parts[i].from < parts[i].to <= |data| && RuneStart(data[parts[i].from])
  }

  /** The simple form: each run is placed by counting all the runes before it and compared with every
      finding; runs are scanned until the budget of decoded text is spent. */
  function EncodedFindings(data: Bytes, kept: seq<Finding>, parts: seq<Part>, scan: Part -> seq<Finding>, used: nat): seq<Finding>
    requires Fit(data, parts)
    decreases |parts|
  {
    if parts == [] then []
    else
      var p := parts[0];
      var start, end := RunStart(data, p), RunStop(data, p);
      if CoveredBy(kept, start, end) then EncodedFindings(data, kept, parts[1..], scan, used)
      else if used + |p.decoded| > 262144 then []
      else Reported(kept, scan(p), start, end) + EncodedFindings(data, kept, parts[1..], scan, used + |p.decoded|)
  }

  // The parts whose text is scanned.
  function Scanned(data: Bytes, kept: seq<Finding>, parts: seq<Part>, used: nat): seq<Part>
    requires Fit(data, parts)
    decreases |parts|
  {
    if parts == [] then []
    else
      var p := parts[0];
      if CoveredBy(kept, RunStart(data, p), RunStop(data, p)) then Scanned(data, kept, parts[1..], used)
      else if used + |p.decoded| > 262144 then []
      else [p] + Scanned(data, kept, parts[1..], used + |p.decoded|)
  }

  // What scanning these parts reports.
  function Reports(data: Bytes, kept: seq<Finding>, parts: seq<Part>, scan: Part -> seq<Finding>): seq<Finding>
    requires forall p :: p in parts ==> p.from <= p.to <= |data|
  {
    if parts == [] then []
    else Reported(kept, scan(parts[0]), RunStart(data, parts[0]), RunStop(data, parts[0])) + Reports(data, kept, parts[1..], scan)
  }

  /** What is reported is what the scanned parts report, and nothing else. */
  lemma {:induction false} FindingsOfScanned(data: Bytes, kept: seq<Finding>, parts: seq<Part>, scan: Part -> seq<Finding>, used: nat)
    requires Fit(data, parts)
    ensures var scanned := Scanned(data, kept, parts, used);
      && (forall p :: p in scanned ==> p.from <= p.to <= |data|)
      && EncodedFindings(data, kept, parts, scan, used) == Reports(data, kept, scanned, scan)
    decreases |parts|
  {
    hide CoveredBy, Reported, RunStart, RunStop;
    if parts != [] {
      var p := parts[0];
      if CoveredBy(kept, RunStart(data, p), RunStop(data, p)) {
        FindingsOfScanned(data, kept, parts[1..], scan, used);
      } else if used + |p.decoded| <= 262144 {
        FindingsOfScanned(data, kept, parts[1..], scan, used + |p.decoded|);
        var rest := Scanned(data, kept, parts[1..], used + |p.decoded|);
        assert ([p] + rest)[1..] == rest;
      }
    }
  }

  function DecodedSize(parts: seq<Part>): nat { if parts == [] then 0 else |parts[0].decoded| + DecodedSize(parts[1..]) }

  /** No more than 256 kB of decoded text are scanned. */
  lemma {:induction false} BudgetKept(data: Bytes, kept: seq<Finding>, parts: seq<Part>, used: nat)
    requires Fit(data, parts) && used <= 262144
    ensures used + DecodedSize(Scanned(data, kept, parts, used)) <= 262144
    decreases |parts|
  {
    hide CoveredBy;
    if parts != [] {
      var p := parts[0];
      if CoveredBy(kept, RunStart(data, p), RunStop(data, p)) {
        BudgetKept(data, kept, parts[1..], used);
      } else if used + |p.decoded| <= 262144 {
        BudgetKept(data, kept, parts[1..], used + |p.decoded|);
        var rest := Scanned(data, kept, parts[1..], used + |p.decoded|);
        assert ([p] + rest)[1..] == rest;
      }
    }
  }

  function NamedOf(kept: seq<Finding>): seq<Finding> {
    if kept == [] then []
    else NamedOf(kept[..|kept| - 1]) + if Generic(kept[|kept| - 1].entity) then [] else [kept[|kept| - 1]]
  }

  lemma {:induction false} NamedMember(kept: seq<Finding>, f: Finding)
    ensures f in NamedOf(kept) <==> f in kept && !Generic(f.entity)
  {
    if kept != [] {
      NamedMember(kept[..|kept| - 1], f);
      assert kept == kept[..|kept| - 1] + [kept[|kept| - 1]];
    }
  }

  // namedByStart.
  method NamedByStart(kept: seq<Finding>) returns (named: seq<Finding>)
    ensures Sorted(ByStart, named) && forall f :: f in named <==> f in kept && !Generic(f.entity)
  {
    named := [];
    for i := 0 to |kept|
      invariant named == NamedOf(kept[..i])
    {
      assert kept[..i + 1][..i] == kept[..i];
      if !Generic(kept[i].entity) { named := named + [kept[i]]; }
    }
    assert kept[..|kept|] == kept;
    forall f ensures f in named <==> f in kept && !Generic(f.entity) { NamedMember(kept, f); }
    SortSorts(ByStart, named);
    ghost var unsorted := named;
    named := StableSort(ByStart, named);
    assert forall f :: f in named <==> f in multiset(named);
    assert forall f :: f in unsorted <==> f in multiset(unsorted);
  }

  // The furthest end among the first `next` named findings, or -1.
  ghost predicate Reaches(named: seq<Finding>, next: nat, reach: int) {
    && next <= |named|
    && (forall i :: 0 <= i < next ==> named[i].end <= reach)
    && (reach == -1 || exists i :: 0 <= i < next && named[i].end == reach)
  }

  // Moves the sweep to `start`.
  method Sweep(named: seq<Finding>, start: int, next: nat, reach: int) returns (next': nat, reach': int)
    requires Sorted(ByStart, named) && Reaches(named, next, reach) && forall i :: 0 <= i < next ==> named[i].start <= start
    requires forall f :: f in named ==> f.end >= 0
    ensures Reaches(named, next', reach') && forall i :: 0 <= i < |named| ==> (i < next' <==> named[i].start <= start)
  {
    next', reach' := next, reach;
    while next' < |named| && named[next'].start <= start
      invariant Reaches(named, next', reach') && forall i :: 0 <= i < next' ==> named[i].start <= start
    {
      reach' := if reach' > named[next'].end then reach' else named[next'].end;
      next' := next' + 1;
    }
    forall i | next' <= i < |named| ensures named[i].start > start {
      assert !Less(ByStart, named[i], named[next']);
    }
  }

  lemma ReachDecides(kept: seq<Finding>, named: seq<Finding>, next: nat, reach: int, start: int, end: int)
    requires forall f :: f in named <==> f in kept && !Generic(f.entity)
    requires Reaches(named, next, reach) && end >= 0
    requires forall i :: 0 <= i < |named| ==> (i < next <==> named[i].start <= start)
    ensures reach >= end <==> CoveredBy(kept, start, end)
  {
    if reach >= end {
      var i :| 0 <= i < next && named[i].end == reach;
      assert named[i] in named;
    }
    if CoveredBy(kept, start, end) {
      var k :| k in kept && !Generic(k.entity) && k.start <= start && end <= k.end;
      assert k in named;
      var i :| 0 <= i < |named| && named[i] == k;
    }
  }

  // What a scanned run reports.
  method Report(kept: seq<Finding>, found: seq<Finding>, start: int, end: int) returns (out: seq<Finding>)
    ensures out == Reported(kept, found, start, end)
  {
    var hasNamed := false;
    for i := 0 to |found|
      invariant hasNamed <==> exists j :: 0 <= j < i && !Generic(found[j].entity)
    {
      hasNamed := hasNamed || !Generic(found[i].entity);
    }
    assert hasNamed <==> HasNamed(found);
    if !hasNamed {
      var touches := OverlapsSpan(kept, start, end);
      if touches { return []; }
    }
    hide Touches, HasNamed;
    out := Relabel(found, hasNamed, start, end);
  }

  // One finding per entity, over the run's span.
  method Relabel(found: seq<Finding>, hasNamed: bool, start: int, end: int) returns (out: seq<Finding>)
    ensures out == FirstOfEach(found, hasNamed, start, end)
  {
    out := [];
    var seen: set<string> := {};
    for i := 0 to |found|
      invariant out == FirstOfEach(found[..i], hasNamed, start, end)
      invariant forall e :: e in seen ==> exists g :: g in found[..i] && g.entity == e
      invariant forall g :: g in found[..i] && !(hasNamed && Generic(g.entity)) ==> g.entity in seen
    {
      var f := found[i];
      assert found[..i + 1][..i] == found[..i] && found[..i + 1] == found[..i] + [f];
      assert !(hasNamed && Generic(f.entity)) ==> (f.entity in seen <==> exists g :: g in found[..i] && g.entity == f.entity);
      if !(f.entity in seen || (hasNamed && Generic(f.entity))) {
        seen := seen + {f.entity};
        out := out + [f.(start := start, end := end)];
      }
    }
    assert found[..|found|] == found;
  }

  method OverlapsSpan(kept: seq<Finding>, start: int, end: int) returns (r: bool)
    ensures r <==> Touches(kept, start, end)
  {
    for i := 0 to |kept|
      invariant forall j :: 0 <= j < i ==> !(kept[j].start < end && kept[j].end > start)
    {
      if kept[i].start < end && kept[i].end > start {
        assert kept[i] in kept;
        return true;
      }
    }
    return false;
  }

  lemma FitRest(data: Bytes, parts: seq<Part>, n: nat)
    requires Fit(data, parts) && n <= |parts|
    ensures Fit(data, parts[n..])
  {
  }

  // One run of the simple form.
  lemma EncodedTurn(data: Bytes, kept: seq<Finding>, parts: seq<Part>, scan: Part -> seq<Finding>, used: nat, n: nat)
    requires Fit(data, parts[..]) && n < |parts|
    ensures Fit(data, parts[n..]) && Fit(data, parts[n + 1..])
    ensures var p := parts[n]; var start, end := RunStart(data, p), RunStop(data, p);
      EncodedFindings(data, kept, parts[n..], scan, used) ==
        if CoveredBy(kept, start, end) then EncodedFindings(data, kept, parts[n + 1..], scan, used)
        else if used + |p.decoded| > 262144 then []
        else Reported(kept, scan(p), start, end) + EncodedFindings(data, kept, parts[n + 1..], scan, used + |p.decoded|)
    ensures var p := parts[n];
      Scanned(data, kept, parts[n..], used) ==
        if CoveredBy(kept, RunStart(data, p), RunStop(data, p)) then Scanned(data, kept, parts[n + 1..], used)
        else if used + |p.decoded| > 262144 then []
        else [p] + Scanned(data, kept, parts[n + 1..], used + |p.decoded|)
  {
    hide RunStart, RunStop, CoveredBy, Reported;
    assert parts[..] == parts;
    FitRest(data, parts, n);
    FitRest(data, parts, n + 1);
    assert parts[n..][0] == parts[n] && parts[n..][1..] == parts[n + 1..];
  }

  // Where a run starts and stops, counted on from an earlier position.
  lemma CountedOn(data: Bytes, parts: seq<Part>, n: nat, byteAt: nat)
    requires Fit(data, parts) && n < |parts| && byteAt <= parts[n].from && AtRune(data, byteAt)
    ensures parts[n].from < parts[n].to <= |data| && AtRune(data, parts[n].from)
    ensures n + 1 < |parts| ==> parts[n].from <= parts[n + 1].from
    ensures RunStart(data, parts[n]) == RuneCount(data[..byteAt]) + RuneCount(data[byteAt..parts[n].from])
    ensures RunStop(data, parts[n]) == RunStart(data, parts[n]) + RuneCount(data[parts[n].from..parts[n].to])
    ensures RunStart(data, parts[n]) == RuneCount(data[..parts[n].from])
  {
    hide RuneCount;
    CountsOn(data, byteAt, parts[n].from);
  }

  // What has been reported and scanned before run n, with what the simple form does from there on.
  ghost predicate SoFar(data: Bytes, kept: seq<Finding>, parts: seq<Part>, scan: Part -> seq<Finding>, n: nat, used: nat,
                        out: seq<Finding>, scanned: seq<Part>)
    requires Fit(data, parts)
  {
    n <= |parts| && Fit(data, parts[n..]) &&
    out + EncodedFindings(data, kept, parts[n..], scan, used) == EncodedFindings(data, kept, parts, scan, 0) &&
    scanned + Scanned(data, kept, parts[n..], used) == Scanned(data, kept, parts, 0)
  }

  lemma NothingSoFar(data: Bytes, kept: seq<Finding>, parts: seq<Part>, scan: Part -> seq<Finding>)
    requires Fit(data, parts)
    ensures SoFar(data, kept, parts, scan, 0, 0, [], [])
  {
    hide EncodedFindings, Scanned, Fit;
    assert parts[0..] == parts;
  }

  lemma AllSoFar(data: Bytes, kept: seq<Finding>, parts: seq<Part>, scan: Part -> seq<Finding>, used: nat,
                 out: seq<Finding>, scanned: seq<Part>)
    requires Fit(data, parts) && SoFar(data, kept, parts, scan, |parts|, used, out, scanned)
    ensures out == EncodedFindings(data, kept, parts, scan, 0) && scanned == Scanned(data, kept, parts, 0)
  {
    NoParts(data, kept, parts[|parts|..], scan, used);
    hide EncodedFindings, Scanned, Fit;
  }

  lemma SoFarNext(data: Bytes, kept: seq<Finding>, parts: seq<Part>, scan: Part -> seq<Finding>, n: nat, used: nat,
                  out: seq<Finding>, scanned: seq<Part>, start: nat, end: nat)
    requires Fit(data, parts) && n < |parts| && SoFar(data, kept, parts, scan, n, used, out, scanned)
    requires parts[n].from <= parts[n].to <= |data| && start == RunStart(data, parts[n]) && end == RunStop(data, parts[n])
    ensures CoveredBy(kept, start, end) ==> SoFar(data, kept, parts, scan, n + 1, used, out, scanned)
    ensures !CoveredBy(kept, start, end) ==>
      if used + |parts[n].decoded| > 262144 then
        out == EncodedFindings(data, kept, parts, scan, 0) && scanned == Scanned(data, kept, parts, 0)
      else
        SoFar(data, kept, parts, scan, n + 1, used + |parts[n].decoded|, out + Reported(kept, scan(parts[n]), start, end),
              scanned + [parts[n]])
  {
    hide RunStart, RunStop, CoveredBy, Reported, EncodedFindings, Scanned, Fit;
    assert parts[..] == parts;
    EncodedTurn(data, kept, parts, scan, used, n);
  }

  predicate EndsFromZero(kept: seq<Finding>) { forall f :: f in kept ==> f.end >= 0 }

  // The sweep over the named findings has come to `start`.
  ghost predicate SweptTo(kept: seq<Finding>, named: seq<Finding>, next: nat, reach: int, start: int) {
    && Sorted(ByStart, named) && (forall f :: f in named <==> f in kept && !Generic(f.entity))
    && Reaches(named, next, reach) && forall i :: 0 <= i < next ==> named[i].start <= start
  }

  // The runes of the first byteAt bytes have been counted.
  ghost predicate CountedTo(data: Bytes, byteAt: nat, runeAt: nat) {
    byteAt <= |data| && AtRune(data, byteAt) && runeAt == RuneCount(data[..byteAt])
  }

  lemma WholeBudgetKept(data: Bytes, kept: seq<Finding>, parts: seq<Part>)
    requires Fit(data, parts)
    ensures DecodedSize(Scanned(data, kept, parts, 0)) <= 262144
  {
    BudgetKept(data, kept, parts, 0);
    hide Scanned, DecodedSize, Fit;
  }

  lemma NothingSwept(data: Bytes, kept: seq<Finding>, named: seq<Finding>)
    requires Sorted(ByStart, named) && forall f :: f in named <==> f in kept && !Generic(f.entity)
    ensures SweptTo(kept, named, 0, -1, 0) && CountedTo(data, 0, 0)
  {
    CountNothing(data);
  }

  // The run's span, counted on from the last run, and whether some named finding contains it.
  method PlaceRun(data: Bytes, kept: seq<Finding>, ghost parts: seq<Part>, ghost n: nat, part: Part, named: seq<Finding>,
                  next: nat, reach: int, byteAt: nat, runeAt: nat)
    returns (start: nat, end: nat, next': nat, reach': int, covered: bool)
    requires Fit(data, parts) && n < |parts| && part == parts[n] && byteAt <= part.from && CountedTo(data, byteAt, runeAt)
    requires SweptTo(kept, named, next, reach, runeAt) && EndsFromZero(kept)
    ensures part.from < part.to <= |data| && CountedTo(data, part.from, start)
    ensures start == RunStart(data, part) && end == RunStop(data, part)
    ensures SweptTo(kept, named, next', reach', start)
    ensures covered <==> CoveredBy(kept, start, end)
  {
    CountedOn(data, parts, n, byteAt);
    hide RuneCount, CoveredBy, Sorted, Fit, RunStart, RunStop, AtRune;
    start := runeAt + RuneCount(data[byteAt..part.from]);
    end := start + RuneCount(data[part.from..part.to]);
    next', reach' := Sweep(named, start, next, reach);
    ReachDecides(kept, named, next', reach', start, end);
    covered := reach' >= end;
  }

  /** One pass over the runs, with rune offsets counted on from the last run and a single sweep over the
      named findings, reports what the simple form reports. */
  method ScanParts(data: Bytes, kept: seq<Finding>, parts: seq<Part>, scan: Part -> seq<Finding>)
    returns (out: seq<Finding>, ghost scanned: seq<Part>)
    requires Fit(data, parts) && EndsFromZero(kept)
    ensures out == EncodedFindings(data, kept, parts, scan, 0)
    ensures scanned == Scanned(data, kept, parts, 0) && DecodedSize(scanned) <= 262144
  {
    var limit := MAX_DECODED_BYTES;
    assert limit == 262144;
    hide *;
    WholeBudgetKept(data, kept, parts);
    out, scanned := [], [];
    var decodedBytes: nat, byteAt: nat, runeAt: nat := 0, 0, 0;
    var named := NamedByStart(kept);
    var next: nat, reach := 0, -1;
    NothingSoFar(data, kept, parts, scan);
    NothingSwept(data, kept, named);
    for n := 0 to |parts|
      invariant SoFar(data, kept, parts, scan, n, decodedBytes, out, scanned)
      invariant CountedTo(data, byteAt, runeAt) && (n < |parts| ==> byteAt <= parts[n].from)
      invariant SweptTo(kept, named, next, reach, runeAt)
    {
      var part := parts[n];
      var start, end, covered;
      start, end, next, reach, covered := PlaceRun(data, kept, parts, n, part, named, next, reach, byteAt, runeAt);
      byteAt, runeAt := part.from, start;
      SoFarNext(data, kept, parts, scan, n, decodedBytes, out, scanned, start, end);
      NextPart(data, parts, n);
      if covered { continue; }
      var decoded := part.decoded;
      decodedBytes := decodedBytes + |decoded|;
      if decodedBytes > limit { return; }
      scanned := scanned + [part];
      var reported := Report(kept, scan(part), start, end);
      out := out + reported;
    }
    AllSoFar(data, kept, parts, scan, decodedBytes, out, scanned);
  }

  lemma NextPart(data: Bytes, parts: seq<Part>, n: nat)
    requires Fit(data, parts) && n < |parts|
    ensures n + 1 < |parts| ==> parts[n].from <= parts[n + 1].from
  {
  }

  /** scanEncoded on the matches of the pattern: what the simple form reports of the parts they make up. */
  method ScanEncoded(d: Decoder, data: Bytes, locs: seq<Line>, kept: seq<Finding>, scan: Part -> seq<Finding>)
    returns (out: seq<Finding>)
    requires AreMatches(data, locs) && EndsFromZero(kept)
    ensures exists parts :: ArePartsOf(d, data, locs, parts) && out == EncodedFindings(data, kept, parts, scan, 0)
  {
    var parts := EncodedParts(d, data, locs);
    hide AreMatches, FromGroups, AreGroups;
    ghost var scanned;
    out, scanned := ScanParts(data, kept, parts, scan);
  }

  lemma NoParts(data: Bytes, kept: seq<Finding>, parts: seq<Part>, scan: Part -> seq<Finding>, used: nat)
    requires parts == [] && Fit(data, parts)
    ensures EncodedFindings(data, kept, parts, scan, used) == [] && Scanned(data, kept, parts, used) == []
  {
  }

  lemma CountNothing(data: Bytes)
    ensures RuneCount(data[..0]) == 0 && AtRune(data, 0)
  {
  }
}
