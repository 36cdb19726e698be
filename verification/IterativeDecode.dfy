/**
 iterativeDecode: a breadth-first search over decoded forms, bounded in depth, that re-decodes a
 form only if it has not been queued before.

 A decoder is a pure function from data to optional data, with its type.
 */
module IterativeDecode {
  import opened Options
  import opened Bytes

  datatype DecoderType = PLAIN | BASE64 | UTF16 | ESCAPED_UNICODE | HTML

  datatype Decoder = Decoder(kind: DecoderType, decode: Bytes -> Option<Bytes>)

  datatype Decoded = Decoded(kind: DecoderType, data: Bytes)

  // ---------------------------------------------------------------- specification

  // What the decoders in `chain`, none of them PLAIN, turn data into, one after the other.
  ghost function Through(data: Bytes, decoders: seq<Decoder>, chain: seq<nat>): Option<Bytes> {
    if chain == [] then Some(data)
    else
      var d := |chain| - 1;
      match Through(data, decoders, chain[..d])
      case None => None
      case Some(x) =>
        if chain[d] < |decoders| && decoders[chain[d]].kind != PLAIN then decoders[chain[d]].decode(x) else None
  }

  // x is a form of data that is at most n decoding steps away.
  ghost predicate Within(data: Bytes, decoders: seq<Decoder>, n: nat, x: Bytes) {
    exists chain :: |chain| <= n && Through(data, decoders, chain) == Some(x)
  }

  ghost predicate Yields(decoders: seq<Decoder>, x: Bytes, i: nat, out: Decoded) {
    i < |decoders| && decoders[i].kind == out.kind && decoders[i].decode(x) == Some(out.data)
  }

  // out is what some chain of at most maxDepth decoders ends in, PLAIN only on its own.
  ghost predicate ChainOutput(data: Bytes, decoders: seq<Decoder>, maxDepth: int, out: Decoded) {
    exists chain: seq<nat>, i: nat, x: Bytes ::
      && |chain| + 1 <= maxDepth
      && Through(data, decoders, chain) == Some(x)
      && Yields(decoders, x, i, out)
      && (out.kind == PLAIN ==> chain == [])
  }

  // The outputs of the first n decoders on x, in order.
  ghost function Outputs(x: Bytes, decoders: seq<Decoder>, plain: bool, n: nat): seq<Decoded>
    requires n <= |decoders|
  {
    if n == 0 then []
    else
      var d := decoders[n - 1];
      var before := Outputs(x, decoders, plain, n - 1);
      if (d.kind == PLAIN && !plain) || d.decode(x).None? then before
      else before + [Decoded(d.kind, d.decode(x).value)]
  }

  // The outputs on each of xs in turn, PLAIN only on the first.
  ghost function AllOutputs(xs: seq<Bytes>, decoders: seq<Decoder>): seq<Decoded> {
    if xs == [] then []
    else AllOutputs(xs[..|xs| - 1], decoders) + Outputs(xs[|xs| - 1], decoders, |xs| == 1, |decoders|)
  }

  ghost predicate Distinct(xs: seq<Bytes>) {
    forall i, j :: 0 <= i < j < |xs| ==> xs[i] != xs[j]
  }

  // The n-step forms of data are exactly the elements of xs.
  ghost predicate Reaches(data: Bytes, decoders: seq<Decoder>, n: nat, xs: seq<Bytes>) {
    forall x :: Within(data, decoders, n, x) <==> x in xs
  }

  // What the first n decoders, PLAIN aside, make of x is in xs.
  ghost predicate ClosedUpTo(decoders: seq<Decoder>, x: Bytes, n: nat, xs: seq<Bytes>) {
    forall i :: 0 <= i < n && i < |decoders| && decoders[i].kind != PLAIN && decoders[i].decode(x).Some? ==>
      decoders[i].decode(x).value in xs
  }

  ghost predicate Closed(decoders: seq<Decoder>, done: seq<Bytes>, xs: seq<Bytes>) {
    forall x :: x in done ==> ClosedUpTo(decoders, x, |decoders|, xs)
  }

  ghost predicate AllWithin(data: Bytes, decoders: seq<Decoder>, n: nat, xs: seq<Bytes>) {
    forall x :: x in xs ==> Within(data, decoders, n, x)
  }

  lemma WithinZero(data: Bytes, decoders: seq<Decoder>)
    ensures Reaches(data, decoders, 0, [data])
  {
    forall x ensures Within(data, decoders, 0, x) <==> x in [data] {
      assert Through(data, decoders, []) == Some(data);
    }
  }

  lemma OneStepFurther(data: Bytes, decoders: seq<Decoder>, n: nat, x: Bytes, i: nat)
    requires Within(data, decoders, n, x)
    requires i < |decoders| && decoders[i].kind != PLAIN && decoders[i].decode(x).Some?
    ensures Within(data, decoders, n + 1, decoders[i].decode(x).value)
  {
    var chain :| |chain| <= n && Through(data, decoders, chain) == Some(x);
    assert (chain + [i])[..|chain|] == chain;
    assert Through(data, decoders, chain + [i]) == decoders[i].decode(x);
  }

  // If the n-step forms are xs, and what they decode to is in ys, then the forms one step further
  // are ys.
  lemma ReachesFurther(data: Bytes, decoders: seq<Decoder>, n: nat, xs: seq<Bytes>, ys: seq<Bytes>)
    requires Reaches(data, decoders, n, xs) && Closed(decoders, xs, ys)
    requires forall x :: x in xs ==> x in ys
    requires forall y :: y in ys ==> y in xs || Within(data, decoders, n + 1, y)
    ensures Reaches(data, decoders, n + 1, ys)
  {
    forall y ensures Within(data, decoders, n + 1, y) <==> y in ys {
      if y in xs {
        assert Within(data, decoders, n, y);
      }
      if Within(data, decoders, n + 1, y) {
        var chain :| |chain| <= n + 1 && Through(data, decoders, chain) == Some(y);
        if |chain| <= n {
          assert Within(data, decoders, n, y);
        } else {
          var x := Through(data, decoders, chain[..n]).value;
          assert Within(data, decoders, n, x);
          assert ClosedUpTo(decoders, x, |decoders|, ys);
        }
      }
    }
  }

  lemma {:induction false} FixedPoint(data: Bytes, decoders: seq<Decoder>, n: nat, goal: nat, xs: seq<Bytes>)
    requires n <= goal && Reaches(data, decoders, n, xs) && Closed(decoders, xs, xs)
    ensures Reaches(data, decoders, goal, xs)
    decreases goal - n
  {
    if n < goal {
      ReachesFurther(data, decoders, n, xs, xs);
      FixedPoint(data, decoders, n + 1, goal, xs);
    }
  }

  lemma {:induction false} InOutputs(x: Bytes, decoders: seq<Decoder>, plain: bool, n: nat, out: Decoded)
    requires n <= |decoders|
    ensures out in Outputs(x, decoders, plain, n) <==>
            exists i :: 0 <= i < n && Yields(decoders, x, i, out) && (out.kind == PLAIN ==> plain)
  {
    if n > 0 {
      InOutputs(x, decoders, plain, n - 1, out);
      assert Yields(decoders, x, n - 1, out) || !Yields(decoders, x, n - 1, out);
    }
  }

  // out comes from some element of xs, PLAIN only from the first.
  ghost predicate From(xs: seq<Bytes>, decoders: seq<Decoder>, out: Decoded) {
    exists j, i :: 0 <= j < |xs| && 0 <= i < |decoders| && Yields(decoders, xs[j], i, out) && (out.kind == PLAIN ==> j == 0)
  }

  ghost predicate FromOne(x: Bytes, decoders: seq<Decoder>, first: bool, out: Decoded) {
    exists i :: 0 <= i < |decoders| && Yields(decoders, x, i, out) && (out.kind == PLAIN ==> first)
  }

  lemma FromPush(xs: seq<Bytes>, decoders: seq<Decoder>, out: Decoded)
    requires xs != []
    ensures From(xs, decoders, out) <==>
      From(xs[..|xs| - 1], decoders, out) || FromOne(xs[|xs| - 1], decoders, |xs| == 1, out)
  {
    hide Yields;
    var n := |xs| - 1;
    if From(xs[..n], decoders, out) {
      var j, i :| 0 <= j < n && 0 <= i < |decoders| && Yields(decoders, xs[..n][j], i, out) && (out.kind == PLAIN ==> j == 0);
      assert Yields(decoders, xs[j], i, out);
    }
    if From(xs, decoders, out) {
      var j, i :| 0 <= j < |xs| && 0 <= i < |decoders| && Yields(decoders, xs[j], i, out) && (out.kind == PLAIN ==> j == 0);
      if j < n { assert Yields(decoders, xs[..n][j], i, out); }
    }
  }

  lemma {:induction false} InAllOutputs(xs: seq<Bytes>, decoders: seq<Decoder>, out: Decoded)
    ensures out in AllOutputs(xs, decoders) <==> From(xs, decoders, out)
  {
    if xs != [] {
      var n := |xs| - 1;
      InAllOutputs(xs[..n], decoders, out);
      InOutputs(xs[n], decoders, |xs| == 1, |decoders|, out);
      FromPush(xs, decoders, out);
      assert out in Outputs(xs[n], decoders, |xs| == 1, |decoders|) <==> FromOne(xs[n], decoders, |xs| == 1, out);
      hide From, FromOne, Yields, Outputs;
    }
  }

  // When xs are the forms within maxDepth - 1 steps, their outputs are the chain outputs.
  lemma OutputsAreChains(data: Bytes, decoders: seq<Decoder>, maxDepth: nat, xs: seq<Bytes>, out: Decoded)
    requires maxDepth > 0 && xs != [] && xs[0] == data && Reaches(data, decoders, maxDepth - 1, xs)
    ensures out in AllOutputs(xs, decoders) <==> ChainOutput(data, decoders, maxDepth, out)
  {
    InAllOutputs(xs, decoders, out);
    if From(xs, decoders, out) {
      var j, i :| 0 <= j < |xs| && 0 <= i < |decoders| && Yields(decoders, xs[j], i, out) && (out.kind == PLAIN ==> j == 0);
      if j == 0 {
        assert Through(data, decoders, []) == Some(xs[0]);
      } else {
        assert Within(data, decoders, maxDepth - 1, xs[j]);
        var chain :| |chain| <= maxDepth - 1 && Through(data, decoders, chain) == Some(xs[j]);
      }
    }
    if ChainOutput(data, decoders, maxDepth, out) {
      var chain: seq<nat>, i: nat, x: Bytes :|
        |chain| + 1 <= maxDepth && Through(data, decoders, chain) == Some(x) &&
        Yields(decoders, x, i, out) && (out.kind == PLAIN ==> chain == []);
      assert Within(data, decoders, maxDepth - 1, x);
      var j :| 0 <= j < |xs| && xs[j] == x;
      if out.kind == PLAIN {
        assert Yields(decoders, xs[0], i, out);
      } else {
        assert Yields(decoders, xs[j], i, out);
      }
    }
  }

  // ---------------------------------------------------------------- the search

  // Every y in ys is what one decoder, not PLAIN, makes of x.
  ghost predicate StepsOf(decoders: seq<Decoder>, x: Bytes, ys: seq<Bytes>) {
    forall y :: y in ys ==> exists i :: 0 <= i < |decoders| && decoders[i].kind != PLAIN && decoders[i].decode(x) == Some(y)
  }

  // The loop over the decoders for one input: what they put out, and what is queued of it.
  method ExpandInput(x: Bytes, decoders: seq<Decoder>, first: bool, more: bool, seen: seq<Bytes>)
    returns (results: seq<Decoded>, queue: seq<Bytes>)
    requires Distinct(seen)
    ensures results == Outputs(x, decoders, first, |decoders|)
    ensures Distinct(seen + queue) && StepsOf(decoders, x, queue)
    ensures if more then ClosedUpTo(decoders, x, |decoders|, [x] + seen + queue) else queue == []
  {
    results, queue := [], [];
    for q := 0 to |decoders|
      invariant results == Outputs(x, decoders, first, q)
      invariant Distinct(seen + queue) && StepsOf(decoders, x, queue)
      invariant if more then ClosedUpTo(decoders, x, q, [x] + seen + queue) else queue == []
    {
      var decoder := decoders[q];
      if !first && decoder.kind == PLAIN {
        continue;
      }
      var decoded := decoder.decode(x);
      if decoded.None? {
        continue;
      }
      results := results + [Decoded(decoder.kind, decoded.value)];
      if more && decoder.kind != PLAIN && decoded.value != x && decoded.value !in seen + queue {
        DistinctPush(seen + queue, decoded.value);
        assert seen + (queue + [decoded.value]) == (seen + queue) + [decoded.value];
        queue := queue + [decoded.value];
      }
    }
  }

  lemma DistinctPush(xs: seq<Bytes>, y: Bytes)
    requires Distinct(xs) && y !in xs
    ensures Distinct(xs + [y])
  {
  }

  // The loop over the inputs of one depth; all is the chunk's data and everything queued so far,
  // of which the first m were expanded at lower depths.
  method ExpandLevel(ghost data: Bytes, decoders: seq<Decoder>, depth: nat, maxDepth: nat, inputs: seq<Bytes>,
                     seen: seq<Bytes>, ghost all: seq<Bytes>, ghost m: nat)
    returns (results: seq<Decoded>, queue: seq<Bytes>)
    requires all == [data] + seen && depth < maxDepth && m <= |all| && inputs == all[m..] && Distinct(seen)
    requires if depth == 0 then m == 0 && |all| == 1 else m > 0
    requires Reaches(data, decoders, depth, all) && Closed(decoders, all[..m], all)
    ensures AllOutputs(all[..m], decoders) + results == AllOutputs(all, decoders)
    ensures Distinct(seen + queue)
    ensures depth + 1 == maxDepth ==> queue == []
    ensures depth + 1 < maxDepth ==>
      Reaches(data, decoders, depth + 1, all + queue) && Closed(decoders, all, all + queue)
  {
    hide AllOutputs, Reaches, Distinct;
    results, queue := [], [];
    ghost var before := AllOutputs(all[..m], decoders);
    assert before + results == before && all + queue == all && seen + queue == seen;
    for p := 0 to |inputs|
      invariant before + results == AllOutputs(all[..m + p], decoders)
      invariant Distinct(seen + queue)
      invariant Level(data, decoders, depth, depth + 1 < maxDepth, all, m + p, queue)
    {
      assert inputs[p] == all[m + p] && (depth == 0 <==> m + p == 0);
      queue, results := ExpandNext(data, decoders, depth, depth + 1 < maxDepth, inputs[p], seen, queue, results, all, m + p, before);
    }
    assert all[..m + |inputs|] == all;
    LevelDone(data, decoders, depth, depth + 1 < maxDepth, all, queue);
  }

  method ExpandNext(ghost data: Bytes, decoders: seq<Decoder>, depth: nat, more: bool, x: Bytes, seen: seq<Bytes>,
                    queue: seq<Bytes>, results: seq<Decoded>, ghost all: seq<Bytes>, ghost n: nat, ghost before: seq<Decoded>)
    returns (queue': seq<Bytes>, results': seq<Decoded>)
    requires all == [data] + seen && n < |all| && x == all[n] && (depth == 0 <==> n == 0) && Distinct(seen + queue)
    requires Reaches(data, decoders, depth, all) && Level(data, decoders, depth, more, all, n, queue)
    requires before + results == AllOutputs(all[..n], decoders)
    ensures Distinct(seen + queue') && Level(data, decoders, depth, more, all, n + 1, queue')
    ensures before + results' == AllOutputs(all[..n + 1], decoders)
  {
    var outs, qs := ExpandInput(x, decoders, depth == 0, more, seen + queue);
    assert seen == all[1..] && seen + queue + qs == seen + (queue + qs);
    assert [x] + (seen + queue) + qs == [x] + (all[1..] + queue) + qs;
    LevelStep(data, decoders, depth, more, all, n, queue, qs);
    OutputsStep(all, decoders, n, before, results, outs);
    queue', results' := queue + qs, results + outs;
  }

  // The bookkeeping of a level whose first n inputs of all have been expanded.
  ghost predicate Level(data: Bytes, decoders: seq<Decoder>, depth: nat, more: bool,
                        all: seq<Bytes>, n: nat, queue: seq<Bytes>)
    requires n <= |all|
  {
    AllWithin(data, decoders, depth + 1, queue) &&
    if more then Closed(decoders, all[..n], all + queue) else queue == []
  }

  lemma LevelStep(data: Bytes, decoders: seq<Decoder>, depth: nat, more: bool,
                  all: seq<Bytes>, n: nat, queue: seq<Bytes>, qs: seq<Bytes>)
    requires n < |all| && all[0] == data && Reaches(data, decoders, depth, all)
    requires Level(data, decoders, depth, more, all, n, queue) && StepsOf(decoders, all[n], qs)
    requires if more then ClosedUpTo(decoders, all[n], |decoders|, [all[n]] + (all[1..] + queue) + qs) else qs == []
    ensures Level(data, decoders, depth, more, all, n + 1, queue + qs)
  {
    forall y | y in qs ensures Within(data, decoders, depth + 1, y) {
      var i :| 0 <= i < |decoders| && decoders[i].kind != PLAIN && decoders[i].decode(all[n]) == Some(y);
      assert Within(data, decoders, depth, all[n]);
      OneStepFurther(data, decoders, depth, all[n], i);
    }
    if more {
      forall z | z in all[..n + 1] ensures ClosedUpTo(decoders, z, |decoders|, all + (queue + qs)) {
        if z in all[..n] {
          assert ClosedUpTo(decoders, z, |decoders|, all + queue);
        } else {
          assert z == all[n];
        }
      }
    }
  }

  lemma LevelDone(data: Bytes, decoders: seq<Decoder>, depth: nat, more: bool, all: seq<Bytes>, queue: seq<Bytes>)
    requires Reaches(data, decoders, depth, all) && Level(data, decoders, depth, more, all, |all|, queue)
    ensures more ==> Reaches(data, decoders, depth + 1, all + queue) && Closed(decoders, all, all + queue)
  {
    assert all[..|all|] == all;
    if more {
      ReachesFurther(data, decoders, depth, all, all + queue);
    }
  }

  lemma OutputsStep(all: seq<Bytes>, decoders: seq<Decoder>, n: nat, before: seq<Decoded>, results: seq<Decoded>, outs: seq<Decoded>)
    requires n < |all| && before + results == AllOutputs(all[..n], decoders)
    requires outs == Outputs(all[n], decoders, n == 0, |decoders|)
    ensures before + (results + outs) == AllOutputs(all[..n + 1], decoders)
  {
    assert all[..n + 1][..n] == all[..n];
    assert before + (results + outs) == (before + results) + outs;
  }

  // Exactly the chain outputs; and in order, each input expanded once: the chunk's own data, then
  // the queued forms, which are pairwise distinct.
  method IterativeDecode(data: Bytes, decoders: seq<Decoder>, maxDepth: int)
    returns (results: seq<Decoded>, ghost queued: seq<Bytes>)
    ensures forall out :: out in results <==> ChainOutput(data, decoders, maxDepth, out)
    ensures Distinct(queued)
    ensures results == if maxDepth <= 0 then [] else AllOutputs([data] + queued, decoders)
  {
    results := [];
    var currentInputs := [data];
    var seen: seq<Bytes> := [];
    ghost var m := 0;
    var depth := 0;
    WithinZero(data, decoders);
    while depth < maxDepth
      invariant 0 <= depth && (depth < maxDepth || (maxDepth <= 0 && depth == 0))
      invariant 0 <= m <= |seen| + 1 && (depth == 0 <==> m == 0) && (depth == 0 ==> seen == [])
      invariant currentInputs == ([data] + seen)[m..]
      invariant results == AllOutputs(([data] + seen)[..m], decoders)
      invariant Distinct(seen)
      invariant Reaches(data, decoders, depth, [data] + seen)
      invariant Closed(decoders, ([data] + seen)[..m], [data] + seen)
    {
      ghost var all := [data] + seen;
      var outs, nextInputs := ExpandLevel(data, decoders, depth, maxDepth, currentInputs, seen, all, m);
      results := results + outs;
      if |nextInputs| == 0 {
        assert all + nextInputs == all;
        if depth + 1 < maxDepth {
          FixedPoint(data, decoders, depth + 1, maxDepth - 1, all);
        }
        break;
      }
      m := |all|;
      assert [data] + (seen + nextInputs) == all + nextInputs;
      seen := seen + nextInputs;
      currentInputs := nextInputs;
      depth := depth + 1;
    }
    queued := seen;
    if maxDepth > 0 {
      forall out ensures out in results <==> ChainOutput(data, decoders, maxDepth, out) {
        OutputsAreChains(data, decoders, maxDepth, [data] + queued, out);
      }
    }
  }
}
