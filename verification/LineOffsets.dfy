/**
 The line a detected secret is reported at: AssignDuplicateLineOffsets, which gives the results of
 one chunk that share a secret an occurrence each, and FragmentLineOffset, which turns a result
 into a line within its chunk.
 */
module LineOffsets {
  import opened Bytes
  import opened SourceMapping

  datatype ChunkOffset = Unset | At(offset: int)

  // A detector result: its effective secret, and the chunk offset if one has been assigned.
  datatype Result = Result(secret: Bytes, offset: ChunkOffset)

  // ---------------------------------------------------------------- duplicate secrets

  // Where the kth search for sep ends up, each search starting where the previous match ended.
  function NthFrom(data: Bytes, sep: Bytes, k: nat, from: nat): (r: int)
    ensures r == -1 || from <= r <= |data| - |sep|
  {
    var i := IndexFrom(data, sep, from);
    if i == -1 || k == 0 then i else NthFrom(data, sep, k - 1, i + |sep|)
  }

  // For a non-empty secret that is its kth occurrence.
  lemma {:induction false} NthIsOccurrence(data: Bytes, sep: Bytes, k: nat, from: nat)
    requires sep != []
    ensures var occ := Occurrences(data, sep, from);
      NthFrom(data, sep, k, from) == if k < |occ| then occ[k] else -1
    decreases k
  {
    hide IndexFrom;
    var i := IndexFrom(data, sep, from);
    if i != -1 && k > 0 {
      NthIsOccurrence(data, sep, k - 1, i + |sep|);
      var rest := Occurrences(data, sep, i + |sep|);
      assert Occurrences(data, sep, from) == [i] + rest;
      assert k < |rest| + 1 ==> ([i] + rest)[k] == rest[k - 1];
    }
  }

  // How many of the first n results have this secret.
  function Copies(results: seq<Result>, secret: Bytes, n: nat): nat
    requires n <= |results|
  {
    if n == 0 then 0 else Copies(results, secret, n - 1) + if results[n - 1].secret == secret then 1 else 0
  }

  // A result whose secret is shared gets the occurrence that matches its rank among the results
  // with that secret; the others, and those left over when the data has too few, keep what they had.
  ghost function Assigned(data: Bytes, results: seq<Result>, i: nat): Result
    requires i < |results|
  {
    var r := results[i];
    var p := NthFrom(data, r.secret, Copies(results, r.secret, i), 0);
    if Copies(results, r.secret, |results|) <= 1 || p == -1 then r else r.(offset := At(p))
  }

  datatype Group = Group(secret: Bytes, indices: seq<nat>)

  // The group's indices are the results among the first n with its secret, in order.
  ghost predicate Collects(results: seq<Result>, n: nat, g: Group)
    requires n <= |results|
  {
    && |g.indices| == Copies(results, g.secret, n)
    && (forall k :: 0 <= k < |g.indices| ==>
          g.indices[k] < n && results[g.indices[k]].secret == g.secret && Copies(results, g.secret, g.indices[k]) == k)
    && (forall i :: 0 <= i < n && results[i].secret == g.secret ==> i in g.indices)
  }

  ghost predicate Grouped(results: seq<Result>, n: nat, seen: map<Bytes, nat>, groups: seq<Group>)
    requires n <= |results|
  {
    && (forall s :: s in seen ==> seen[s] < |groups| && groups[seen[s]].secret == s)
    && (forall g :: 0 <= g < |groups| ==> groups[g].secret in seen && seen[groups[g].secret] == g)
    && (forall g :: 0 <= g < |groups| ==> Collects(results, n, groups[g]))
    && (forall i :: 0 <= i < n ==> results[i].secret in seen)
  }

  lemma {:induction false} NoCopies(results: seq<Result>, secret: Bytes, n: nat)
    requires n <= |results| && forall i :: 0 <= i < n ==> results[i].secret != secret
    ensures Copies(results, secret, n) == 0
  {
    if n > 0 {
      NoCopies(results, secret, n - 1);
    }
  }

  lemma CollectNext(results: seq<Result>, n: nat, g: Group)
    requires n < |results| && Collects(results, n, g)
    ensures Collects(results, n + 1, if results[n].secret == g.secret then g.(indices := g.indices + [n]) else g)
  {
    if results[n].secret == g.secret {
      var g' := g.(indices := g.indices + [n]);
      forall i | 0 <= i < n + 1 && results[i].secret == g.secret ensures i in g'.indices {
        assert i == n || i in g.indices;
        assert g'.indices[|g.indices|] == n;
      }
    }
  }

  // The groups after result n: its own group grown, or a new one.
  function Filed(results: seq<Result>, n: nat, seen: map<Bytes, nat>, groups: seq<Group>): seq<Group>
    requires n < |results| && forall s :: s in seen ==> seen[s] < |groups|
  {
    var s := results[n].secret;
    if s in seen then groups[seen[s] := groups[seen[s]].(indices := groups[seen[s]].indices + [n])]
    else groups + [Group(s, [n])]
  }

  lemma GroupStep(results: seq<Result>, n: nat, seen: map<Bytes, nat>, groups: seq<Group>)
    requires n < |results| && Grouped(results, n, seen, groups)
    ensures var s := results[n].secret;
      Grouped(results, n + 1, if s in seen then seen else seen[s := |groups|], Filed(results, n, seen, groups))
  {
    hide Collects, Copies;
    var s := results[n].secret;
    if s !in seen {
      NewGroup(results, n);
    }
    var groups' := Filed(results, n, seen, groups);
    forall h | 0 <= h < |groups'| ensures Collects(results, n + 1, groups'[h]) {
      if h < |groups| {
        CollectNext(results, n, groups[h]);
      }
    }
  }

  lemma NewGroup(results: seq<Result>, n: nat)
    requires n < |results| && forall i :: 0 <= i < n ==> results[i].secret != results[n].secret
    ensures Collects(results, n + 1, Group(results[n].secret, [n]))
  {
    NoCopies(results, results[n].secret, n);
    assert [n][0] == n;
  }

  method AssignDuplicateLineOffsets(data: Bytes, results: array<Result>)
    modifies results
    ensures forall i :: 0 <= i < results.Length ==> results[i] == Assigned(data, old(results[..]), i)
  {
    hide Collects, Assigned;
    ghost var rs := results[..];
    var seen: map<Bytes, nat> := map[];
    var groups: seq<Group> := [];
    for i := 0 to results.Length
      invariant results[..] == rs && Grouped(rs, i, seen, groups)
    {
      var secret := results[i].secret;
      GroupStep(rs, i, seen, groups);
      if secret in seen {
        var idx := seen[secret];
        groups := groups[idx := groups[idx].(indices := groups[idx].indices + [i])];
      } else {
        seen := seen[secret := |groups|];
        groups := groups + [Group(secret, [i])];
      }
    }
    for g := 0 to |groups|
      invariant Progress(data, rs, seen, g, results[..])
    {
      ghost var before := results[..];
      AssignGroup(data, results, groups[g], rs, seen, g);
      GroupDone(data, rs, seen, groups, g, before, results[..]);
    }
  }

  // The results whose group is among the first g have been assigned.
  ghost predicate Progress(data: Bytes, rs: seq<Result>, seen: map<Bytes, nat>, g: nat, now: seq<Result>) {
    |now| == |rs| && forall i :: 0 <= i < |rs| ==>
      rs[i].secret in seen && now[i] == if seen[rs[i].secret] < g then Assigned(data, rs, i) else rs[i]
  }

  ghost predicate GroupAssigned(data: Bytes, rs: seq<Result>, secret: Bytes, before: seq<Result>, now: seq<Result>) {
    |now| == |before| == |rs| && forall i :: 0 <= i < |rs| ==>
      now[i] == if rs[i].secret == secret then Assigned(data, rs, i) else before[i]
  }

  lemma GroupDone(data: Bytes, rs: seq<Result>, seen: map<Bytes, nat>, groups: seq<Group>, g: nat,
                  before: seq<Result>, now: seq<Result>)
    requires Grouped(rs, |rs|, seen, groups) && g < |groups| && Progress(data, rs, seen, g, before)
    requires GroupAssigned(data, rs, groups[g].secret, before, now)
    ensures Progress(data, rs, seen, g + 1, now)
  {
    forall i | 0 <= i < |rs|
      ensures now[i] == if seen[rs[i].secret] < g + 1 then Assigned(data, rs, i) else rs[i]
    {
      assert groups[seen[rs[i].secret]].secret == rs[i].secret;
    }
  }

  // After k searches the next one starts at searchStart.
  ghost predicate Searching(data: Bytes, sep: Bytes, k: nat, searchStart: nat) {
    searchStart <= |data| && forall j :: k <= j ==> NthFrom(data, sep, j, 0) == NthFrom(data, sep, j - k, searchStart)
  }

  lemma SearchOn(data: Bytes, sep: Bytes, k: nat, searchStart: nat)
    requires Searching(data, sep, k, searchStart)
    ensures var i := IndexFrom(data, sep, searchStart);
      NthFrom(data, sep, k, 0) == i &&
      if i == -1 then forall j :: k <= j ==> NthFrom(data, sep, j, 0) == -1
      else Searching(data, sep, k + 1, i + |sep|)
  {
  }

  // Of the group, the first k results have been assigned; the others are as they were.
  ghost predicate Partly(data: Bytes, rs: seq<Result>, secret: Bytes, k: nat, before: seq<Result>, now: seq<Result>) {
    |now| == |before| == |rs| && forall i :: 0 <= i < |rs| ==>
      now[i] == if rs[i].secret == secret && Copies(rs, secret, i) < k then Assigned(data, rs, i) else before[i]
  }

  lemma PartlyNext(data: Bytes, rs: seq<Result>, g: Group, k: nat, before: seq<Result>, now: seq<Result>, p: int)
    requires Collects(rs, |rs|, g) && k < |g.indices| && |g.indices| > 1 && Partly(data, rs, g.secret, k, before, now)
    requires forall i :: 0 <= i < |rs| && rs[i].secret == g.secret ==> before[i] == rs[i]
    requires p != -1 && NthFrom(data, g.secret, k, 0) == p
    ensures Partly(data, rs, g.secret, k + 1, before, now[g.indices[k] := now[g.indices[k]].(offset := At(p))])
  {
    var ri := g.indices[k];
    var now' := now[ri := now[ri].(offset := At(p))];
    forall i | 0 <= i < |rs|
      ensures now'[i] == if rs[i].secret == g.secret && Copies(rs, g.secret, i) < k + 1 then Assigned(data, rs, i) else before[i]
    {
      if rs[i].secret == g.secret && Copies(rs, g.secret, i) == k {
        assert i in g.indices;
      }
    }
  }

  lemma PartlyAll(data: Bytes, rs: seq<Result>, g: Group, k: nat, before: seq<Result>, now: seq<Result>)
    requires Collects(rs, |rs|, g) && Partly(data, rs, g.secret, k, before, now)
    requires forall i :: 0 <= i < |rs| && rs[i].secret == g.secret ==> before[i] == rs[i]
    requires |g.indices| <= 1 || k == |g.indices| || forall j :: k <= j ==> NthFrom(data, g.secret, j, 0) == -1
    requires |g.indices| <= 1 ==> k == 0
    ensures GroupAssigned(data, rs, g.secret, before, now)
  {
    hide Copies, NthFrom;
    forall i | 0 <= i < |rs|
      ensures now[i] == if rs[i].secret == g.secret then Assigned(data, rs, i) else before[i]
    {
      if rs[i].secret == g.secret {
        assert i in g.indices;
        var j :| 0 <= j < |g.indices| && g.indices[j] == i;
        assert Copies(rs, rs[i].secret, i) == j && Copies(rs, rs[i].secret, |rs|) == |g.indices|;
        if j >= k && |g.indices| > 1 {
          assert NthFrom(data, rs[i].secret, j, 0) == -1;
        }
      }
    }
  }

  // The body of the loop over the groups: a secret found once keeps its first occurrence; for the
  // others each search starts where the previous match ended, and the first to fail ends the loop.
  method AssignGroup(data: Bytes, results: array<Result>, g: Group, ghost rs: seq<Result>,
                     ghost seen: map<Bytes, nat>, ghost n: nat)
    requires Collects(rs, |rs|, g) && Progress(data, rs, seen, n, results[..])
    requires g.secret in seen && seen[g.secret] == n
    modifies results
    ensures GroupAssigned(data, rs, g.secret, old(results[..]), results[..])
  {
    hide Assigned, NthFrom, IndexFrom, Index;
    ghost var before := results[..];
    if |g.indices| <= 1 {
      PartlyAll(data, rs, g, 0, before, before);
      return;
    }
    var searchStart: nat := 0;
    ghost var done: nat := 0;
    for k := 0 to |g.indices|
      invariant done == k && Searching(data, g.secret, k, searchStart)
      invariant Partly(data, rs, g.secret, k, before, results[..])
    {
      var pos := Index(data[searchStart..], g.secret);
      IndexInSuffix(data, g.secret, searchStart);
      SearchOn(data, g.secret, k, searchStart);
      if pos == -1 {
        break;
      }
      var absPos := searchStart + pos;
      ghost var now := results[..];
      PartlyNext(data, rs, g, k, before, now, absPos);
      results[g.indices[k]] := results[g.indices[k]].(offset := At(absPos));
      assert results[..] == now[g.indices[k] := now[g.indices[k]].(offset := At(absPos))];
      searchStart := absPos + |g.secret|;
      done := k + 1;
    }
    PartlyAll(data, rs, g, done, before, results[..]);
  }

  // Results that share a non-empty secret never share an occurrence: the kth gets the kth one.
  lemma KthGetsKth(data: Bytes, results: seq<Result>, i: nat)
    requires i < |results| && results[i].secret != []
    requires Copies(results, results[i].secret, |results|) > 1
    ensures var k, occ := Copies(results, results[i].secret, i), Occurrences(data, results[i].secret, 0);
      Assigned(data, results, i).offset == if k < |occ| then At(occ[k]) else results[i].offset
  {
    NthIsOccurrence(data, results[i].secret, Copies(results, results[i].secret, i), 0);
  }

  // ---------------------------------------------------------------- lines

  const IGNORE_TAG: Bytes :=
    [116, 114, 117, 102, 102, 108, 101, 104, 111, 103, 58, 105, 103, 110, 111, 114, 101]

  // The text whose characters have these numbers.
  ghost function Text(bytes: Bytes): string { seq(|bytes|, i requires 0 <= i < |bytes| => bytes[i] as char) }

  // What is left of the line that position p is on.
  ghost function RestOfLine(data: Bytes, p: nat): Bytes
    requires p <= |data|
  {
    var e := IndexFrom(data, [NEWLINE], p);
    data[p..if e == -1 then |data| else e]
  }

  // The secret stands at p in the buffer, the line is the number of newlines before it, and the
  // result is to be ignored exactly if the tag follows on the same line.
  ghost predicate Reports(buffer: Bytes, p: int, secret: Bytes, line: int, ignore: bool) {
    && MatchAt(buffer, secret, p)
    && line == Newlines(buffer[..p])
    && (ignore <==> exists tag :: Text(tag) == "trufflehog:ignore" && Occurs(RestOfLine(buffer, p + |secret|), tag))
  }

  // What is reported for the secret at `at` in the decoded data: its place in the source, if it is mapped
  // to one, and the decoded data otherwise.
  ghost predicate ReportsFor(original: Bytes, data: Bytes, at: int, secret: Bytes, line: int, ignore: bool) {
    exists r :: MapsTo(original, data, at, |secret|, r) &&
      if r >= 0 then Reports(original, r, secret, line, ignore) else Reports(data, at, secret, line, ignore)
  }

  method FragmentLineOffset(original: Bytes, data: Bytes, result: Result) returns (line: int, ignore: bool)
    requires result.offset.At? ==> 0 <= result.offset.offset <= |data| - |result.secret|
    ensures var at := if result.offset.At? then result.offset.offset else Index(data, result.secret);
      if at == -1 then line == 0 && !ignore && !Occurs(data, result.secret)
      else
        var found := data[at..at + |result.secret|];
        ReportsFor(original, data, at, found, line, ignore) && (result.offset.Unset? ==> found == result.secret)
  {
    hide IndexFrom, Index, Newlines, Occurrences, Scores, Reports, Score, FirstBest, AllFit, MapsTo;
    var secretBytes := result.secret;
    var offset: int;
    if result.offset.At? {
      offset := result.offset.offset;
    } else {
      offset := Index(data, secretBytes);
      IndexMatches(data, secretBytes);
      if offset == -1 {
        return 0, false;
      }
    }
    var source, at := data, offset;
    ghost var found := data[at..at + |secretBytes|];
    var originalOffset := SourceOffset(original, data, offset, |secretBytes|);
    MappedMatches(original, data, at, found, originalOffset);
    if originalOffset >= 0 {
      source, offset := original, originalOffset;
    }
    line, ignore := LineAt(source, offset, |secretBytes|, found);
  }

  // Where the secret is looked up, it is.
  lemma MappedMatches(original: Bytes, data: Bytes, at: int, secret: Bytes, r: int)
    requires MatchAt(data, secret, at) && MapsTo(original, data, at, |secret|, r)
    ensures r >= 0 ==> MatchAt(original, secret, r)
  {
    hide IndexFrom, Occurrences, Scores, Score, FirstBest, AllFit;
  }

  lemma IndexMatches(data: Bytes, secret: Bytes)
    ensures if Index(data, secret) == -1 then !Occurs(data, secret) else MatchAt(data, secret, Index(data, secret))
  {
    IndexFinds(data, secret, 0);
  }

  // The second half of the function: the line of position `offset`, and its ignore tag.
  method LineAt(source: Bytes, offset: nat, length: nat, ghost secret: Bytes) returns (line: int, ignore: bool)
    requires MatchAt(source, secret, offset) && |secret| == length
    ensures Reports(source, offset, secret, line, ignore)
  {
    hide IndexFrom, Index;
    line := Newlines(source[..offset]);
    var after := source[offset + length..];
    var endLine := Index(after, [NEWLINE]);
    IndexInSuffix(source, [NEWLINE], offset + length);
    if endLine == -1 {
      endLine := |after|;
    }
    assert after[..endLine] == RestOfLine(source, offset + length);
    ignore := Index(after[..endLine], IGNORE_TAG) != -1;
    IndexMatches(after[..endLine], IGNORE_TAG);
    TagIs(RestOfLine(source, offset + length));
  }

  lemma TagIs(line: Bytes)
    ensures Occurs(line, IGNORE_TAG) <==> exists tag :: Text(tag) == "trufflehog:ignore" && Occurs(line, tag)
  {
    assert Text(IGNORE_TAG) == "trufflehog:ignore";
    forall tag | Text(tag) == "trufflehog:ignore" ensures tag == IGNORE_TAG { SameText(tag, IGNORE_TAG); }
  }

  lemma SameText(a: Bytes, b: Bytes)
    requires Text(a) == Text(b)
    ensures a == b
  {
    assert |a| == |Text(a)| == |Text(b)| == |b|;
    forall i | 0 <= i < |a| ensures a[i] == b[i] {
      assert Text(a)[i] == a[i] as char && Text(b)[i] == b[i] as char;
    }
  }
}
