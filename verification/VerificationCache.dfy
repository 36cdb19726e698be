/**
 The verification cache: FromData and verifyCacheMisses.

 What a remote verification answers is a function `world` of the result, the same at every call. A
 detector finds candidates in a chunk, or fails; asked to verify, it finds the same ones and verifies
 each. The hash of the key bytes is modelled as injective, so the key bytes stand for it. A cache never
 drops an entry by itself. Calls are sequential.
 */
module VerificationCache {
  import opened Options
  import opened Bytes

  // Whether a credential is live, and the error of the verification itself ("" is none).
  datatype Outcome = Outcome(verified: bool, error: string)

  // `redacted` stands for the fields that neither the key nor a verification touches.
  datatype Result = Result(detectorType: int, raw: Bytes, rawV2: Bytes, secretParts: seq<string>, primarySecret: string,
                           redacted: string, info: Outcome, fromCache: bool)

  type World = Result -> Outcome

  // `perResult`: the detector is a ResultVerifier.
  datatype Detector = Detector(find: Bytes -> Option<seq<Result>>, perResult: bool)

  const UNVERIFIED := Outcome(false, "")

  // A candidate carries no verification yet.
  predicate Candidate(r: Result) { r.info == UNVERIFIED && !r.fromCache }

  predicate AreCandidates(rs: seq<Result>) { forall i :: 0 <= i < |rs| ==> Candidate(rs[i]) }

  ghost predicate Finds(d: Detector) { forall data: Bytes :: d.find(data).Some? ==> AreCandidates(d.find(data).value) }

  function Verified(world: World, r: Result): Result { r.(info := world(r)) }

  function AllVerified(world: World, rs: seq<Result>): (vs: seq<Result>)
    ensures |vs| == |rs| && forall i :: 0 <= i < |rs| ==> vs[i] == Verified(world, rs[i])
  {
    if rs == [] then [] else AllVerified(world, rs[..|rs| - 1]) + [Verified(world, rs[|rs| - 1])]
  }

  // The detector's own FromData.
  function Direct(world: World, d: Detector, verify: bool, data: Bytes): Option<seq<Result>> {
    match d.find(data)
    case None => None
    case Some(rs) => Some(if verify then AllVerified(world, rs) else rs)
  }

  // ---------------------------------------------------------------- keys

  const MAX_INPUT_SIZE := 16384

  // A 32-bit integer in big-endian order.
  function BigEndian(n: int): Bytes {
    var u := n % 0x1_0000_0000;
    [u / 0x100_0000, u / 0x1_0000 % 0x100, u / 0x100 % 0x100, u % 0x100]
  }

  function KeyBytes(r: Result): Bytes { r.raw + r.rawV2 + BigEndian(r.detectorType) }

  // getResultCacheKey: the hasher refuses long inputs.
  function Key(r: Result): Option<Bytes> {
    if |KeyBytes(r)| > MAX_INPUT_SIZE then None else Some(KeyBytes(r))
  }

  // ---------------------------------------------------------------- what a key tells apart

  lemma FourBytes(u: nat)
    ensures u / 0x100_0000 * 0x100_0000 + u / 0x1_0000 % 0x100 * 0x1_0000 + u / 0x100 % 0x100 * 0x100 + u % 0x100 == u
  {
    var a, b, c := u / 0x100, u / 0x1_0000, u / 0x100_0000;
    assert u == a * 0x100 + u % 0x100;
    assert b == a / 0x100 && a == b * 0x100 + a % 0x100;
    assert c == b / 0x100 && b == c * 0x100 + b % 0x100;
  }

  lemma BigEndianIs(n: int)
    ensures |BigEndian(n)| == 4
    ensures var b0: int, b1: int, b2: int, b3: int := BigEndian(n)[0], BigEndian(n)[1], BigEndian(n)[2], BigEndian(n)[3];
      b0 * 0x100_0000 + b1 * 0x1_0000 + b2 * 0x100 + b3 == n % 0x1_0000_0000
  {
    FourBytes(n % 0x1_0000_0000);
  }

  lemma SameTail(a: Bytes, x: Bytes, b: Bytes, y: Bytes)
    requires |x| == |y| && a + x == b + y
    ensures a == b && x == y
  {
    assert |a| == |b| && (a + x)[..|a|] == (b + y)[..|b|] && (a + x)[|a|..] == (b + y)[|b|..];
    assert a == (a + x)[..|a|] && b == (b + y)[..|b|] && x == (a + x)[|a|..] && y == (b + y)[|b|..];
  }

  /** A key is made if and only if the secret and the four bytes of the detector type are no longer than the
      hasher takes, and two results have the same key if and only if Raw and RawV2 joined are the same
      and the detector types agree as 32-bit numbers. */
  lemma KeyTells(r: Result, s: Result)
    ensures Key(r).Some? <==> |r.raw| + |r.rawV2| + 4 <= 16384
    ensures Key(r).Some? && Key(s).Some? ==>
      (Key(r) == Key(s) <==> r.raw + r.rawV2 == s.raw + s.rawV2 && r.detectorType % 0x1_0000_0000 == s.detectorType % 0x1_0000_0000)
  {
    BigEndianIs(r.detectorType);
    BigEndianIs(s.detectorType);
    if KeyBytes(r) == KeyBytes(s) {
      SameTail(r.raw + r.rawV2, BigEndian(r.detectorType), s.raw + s.rawV2, BigEndian(s.detectorType));
    }
    hide BigEndian;
  }

  // What may be kept in a long-lived cache.
  function WithoutSecrets(r: Result): Result { r.(raw := [], rawV2 := [], secretParts := [], primarySecret := "") }

  // ---------------------------------------------------------------- the cache as a state

  datatype State = State(entries: map<Bytes, Result>, hits: nat, misses: nat, saved: nat, wasted: nat,
                         asked: seq<Bytes>)  // history: keys whose result was verified by itself

  function Empty(): State { State(map[], 0, 0, 0, 0, []) }

  function Hit(st: State, r: Result): bool { Key(r).Some? && Key(r).value in st.entries }

  function FromEntry(st: State, r: Result): Result
    requires Hit(st, r)
  {
    r.(info := st.entries[Key(r).value].info, fromCache := true)
  }

  function Store(st: State, r: Result): State {
    match Key(r) case None => st case Some(k) => st.(entries := st.entries[k := WithoutSecrets(r)])
  }

  function StoreAll(st: State, rs: seq<Result>): State {
    if rs == [] then st else Store(StoreAll(st, rs[..|rs| - 1]), rs[|rs| - 1])
  }

  // How many results from the first on are cached.
  function CachedPrefix(st: State, rs: seq<Result>): (n: nat)
    ensures n <= |rs|
    ensures forall i :: 0 <= i < n ==> Hit(st, rs[i])
    ensures n < |rs| ==> !Hit(st, rs[n])
  {
    if rs == [] then 0
    else
      var n := CachedPrefix(st, rs[..|rs| - 1]);
      if n == |rs| - 1 && Hit(st, rs[|rs| - 1]) then |rs| else n
  }

  function FromEntries(st: State, rs: seq<Result>): (out: seq<Result>)
    requires forall i :: 0 <= i < |rs| ==> Hit(st, rs[i])
    ensures |out| == |rs| && forall i :: 0 <= i < |rs| ==> out[i] == FromEntry(st, rs[i])
  {
    if rs == [] then [] else FromEntries(st, rs[..|rs| - 1]) + [FromEntry(st, rs[|rs| - 1])]
  }

  datatype Call = Call(detector: Detector, verify: bool, force: bool, data: Bytes)

  datatype Answer = Answer(st: State, results: Option<seq<Result>>)

  // The first n results were found in the cache, and the next was not.
  function Counted(st: State, rs: seq<Result>, n: nat): State
    requires n < |rs|
  {
    st.(hits := st.hits + n, wasted := st.wasted + n, misses := st.misses + if Key(rs[n]).Some? then 1 else 0)
  }

  // All the chunk's results from the cache, or all of them verified anew.
  function AllOrNothing(world: World, st: State, rs: seq<Result>): Answer {
    var n := CachedPrefix(st, rs);
    if n == |rs| then Answer(st.(hits := st.hits + n, saved := st.saved + n), Some(FromEntries(st, rs)))
    else
      Answer(StoreAll(Counted(st, rs, n), AllVerified(world, rs)), Some(AllVerified(world, rs)))
  }

  // One result of a detector that verifies results by themselves.
  function OneResult(world: World, st: State, r: Result): (State, Result) {
    match Key(r)
    case None => (st, Verified(world, r))
    case Some(k) =>
      if k in st.entries then (st.(hits := st.hits + 1, saved := st.saved + 1), FromEntry(st, r))
      else (Store(st.(misses := st.misses + 1, asked := st.asked + [k]), Verified(world, r)), Verified(world, r))
  }

  function EachResult(world: World, st: State, rs: seq<Result>): (State, seq<Result>) {
    if rs == [] then (st, [])
    else
      var (s, out) := EachResult(world, st, rs[..|rs| - 1]);
      var (s', r) := OneResult(world, s, rs[|rs| - 1]);
      (s', out + [r])
  }

  function Serve(world: World, st: State, c: Call): Answer {
    match c.detector.find(c.data)
    case None => Answer(st, None)
    case Some(rs) =>
      if c.force then
        var found := if c.verify then AllVerified(world, rs) else rs;
        Answer(StoreAll(st, found), Some(found))
      else if !c.verify then Answer(st, Some(rs))
      else if c.detector.perResult then
        var (s, out) := EachResult(world, st, rs);
        Answer(s, Some(out))
      else AllOrNothing(world, st, rs)
  }

  // ---------------------------------------------------------------- the object

  class Cache {
    const world: World
    const enabled: bool      // resultCache is not nil
    var entries: map<Bytes, Result>
    var hits: nat
    var misses: nat
    var saved: nat
    var wasted: nat
    ghost var asked: seq<Bytes>

    constructor (world: World, enabled: bool)
      ensures View() == Empty() && this.world == world && this.enabled == enabled
    {
      this.world, this.enabled := world, enabled;
      entries, hits, misses, saved, wasted, asked := map[], 0, 0, 0, 0, [];
    }

    ghost function View(): State
      reads this
    {
      State(entries, hits, misses, saved, wasted, asked)
    }

    // The detector's FromData(ctx, verify, data).
    method Detect(d: Detector, verify: bool, data: Bytes) returns (results: Option<seq<Result>>)
      ensures results == Direct(world, d, verify, data)
    {
      results := Direct(world, d, verify, data);
    }

    method Set(r: Result)
      modifies this
      ensures View() == Store(old(View()), r)
    {
      match Key(r)
      case None =>
      case Some(k) => entries := entries[k := WithoutSecrets(r)];
    }

    // The results with what the cache knows of them, up to the first that it does not.
    method ReadCache(rs: seq<Result>) returns (out: seq<Result>, all: bool)
      modifies this
      ensures var st, n := old(View()), CachedPrefix(old(View()), rs);
        && |out| == |rs| && (all <==> n == |rs|) && (all ==> out == FromEntries(st, rs))
        && View() == if all then st.(hits := st.hits + n, saved := st.saved + n) else Counted(st, rs, n)
    {
      out := rs;
      var hitsInChunk := 0;
      ghost var st := View();
      ghost var n := CachedPrefix(st, rs);
      for i := 0 to |rs|
        invariant |out| == |rs| && i <= n && hitsInChunk == i
        invariant forall j :: 0 <= j < i ==> out[j] == FromEntry(st, rs[j])
        invariant forall j :: i <= j < |rs| ==> out[j] == rs[j]
        invariant View() == st.(hits := st.hits + i)
      {
        match Key(out[i])
        case None =>
          wasted := wasted + hitsInChunk;
          return out, false;
        case Some(k) =>
          if k in entries {
            out := out[i := out[i].(info := entries[k].info, fromCache := true)];
            hits := hits + 1;
            hitsInChunk := hitsInChunk + 1;
          } else {
            misses := misses + 1;
            wasted := wasted + hitsInChunk;
            return out, false;
          }
      }
      saved := saved + |rs|;
      return out, true;
    }

    // One result: served from the cache, or verified by itself and stored.
    method VerifyIfMissed(r: Result) returns (out: Result)
      modifies this
      ensures (View(), out) == OneResult(world, old(View()), r)
    {
      match Key(r)
      case None => out := Verified(world, r);
      case Some(k) =>
        if k in entries {
          out := r.(info := entries[k].info, fromCache := true);
          hits := hits + 1;
          saved := saved + 1;
        } else {
          misses := misses + 1;
          out := Verified(world, r);
          asked := asked + [k];
          Set(out);
        }
    }

    method VerifyCacheMisses(rs: seq<Result>) returns (out: seq<Result>)
      modifies this
      ensures (View(), out) == EachResult(world, old(View()), rs)
    {
      hide OneResult;
      out := [];
      ghost var st := View();
      for i := 0 to |rs|
        invariant (View(), out) == EachResult(world, st, rs[..i])
      {
        assert rs[..i + 1][..i] == rs[..i];
        var r := VerifyIfMissed(rs[i]);
        out := out + [r];
      }
      assert rs[..|rs|] == rs;
    }

    method StoreResults(rs: seq<Result>)
      modifies this
      ensures View() == StoreAll(old(View()), rs)
    {
      hide Store;
      ghost var st := View();
      for i := 0 to |rs|
        invariant View() == StoreAll(st, rs[..i])
      {
        assert rs[..i + 1][..i] == rs[..i];
        Set(rs[i]);
      }
      assert rs[..|rs|] == rs;
    }

    // The detector runs, verifying if asked to, and what it finds is stored.
    method Refresh(d: Detector, verify: bool, data: Bytes) returns (results: Option<seq<Result>>)
      modifies this
      ensures results == Direct(world, d, verify, data)
      ensures View() == match results case None => old(View()) case Some(rs) => StoreAll(old(View()), rs)
    {
      results := Detect(d, verify, data);
      if results.Some? { StoreResults(results.value); }
    }

    // All the results from the cache, or all of them verified anew.
    method ReadOrRefresh(d: Detector, rs: seq<Result>, data: Bytes) returns (results: Option<seq<Result>>)
      requires d.find(data) == Some(rs)
      modifies this
      ensures Answer(View(), results) == AllOrNothing(world, old(View()), rs)
    {
      hide StoreAll, FromEntries, FromEntry, CachedPrefix, AllVerified, Verified, Key, Hit;
      var out, all := ReadCache(rs);
      if all { return Some(out); }
      results := Refresh(d, true, data);
    }

    /** FromData answers and leaves the state that Serve says; without a result cache it is the
        detector's own FromData. */
    method FromData(d: Detector, verify: bool, force: bool, data: Bytes) returns (results: Option<seq<Result>>)
      modifies this
      ensures enabled ==> Answer(View(), results) == Serve(world, old(View()), Call(d, verify, force, data))
      ensures !enabled ==> View() == old(View()) && results == Direct(world, d, verify, data)
    {
      hide EachResult, StoreAll, AllVerified, AllOrNothing;
      if !enabled {
        results := Detect(d, verify, data);
      } else if force {
        results := Refresh(d, verify, data);
      } else {
        results := Detect(d, false, data);
        if results.None? || !verify { return; }
        if d.perResult {
          var out := VerifyCacheMisses(results.value);
          results := Some(out);
        } else {
          results := ReadOrRefresh(d, results.value, data);
        }
      }
    }
  }

  // ---------------------------------------------------------------- agreement

  // Candidates with the same Raw and RawV2 joined and the same 32-bit detector type.
  predicate SameSecret(r: Result, s: Result) {
    r.raw + r.rawV2 == s.raw + s.rawV2 && r.detectorType % 0x1_0000_0000 == s.detectorType % 0x1_0000_0000
  }

  // These decide what a verification answers, where the secret is not too long to be cached.
  ghost predicate Factors(world: World) {
    forall r: Result, s: Result ::
      Candidate(r) && Candidate(s) && |r.raw| + |r.rawV2| + 4 <= 16384 && SameSecret(r, s) ==> world(r) == world(s)
  }

  // The same said of the keys.
  ghost predicate KeyDecides(world: World) {
    forall r: Result, s: Result :: Candidate(r) && Candidate(s) && Key(r).Some? && Key(r) == Key(s) ==> world(r) == world(s)
  }

  lemma FactorsIff(world: World)
    ensures Factors(world) <==> KeyDecides(world)
  {
    forall r: Result, s: Result
      ensures Key(r).Some? && Key(r) == Key(s) <==> |r.raw| + |r.rawV2| + 4 <= 16384 && SameSecret(r, s)
    {
      KeyTells(r, s);
      KeyTells(s, r);
    }
    hide Key, SameSecret, Candidate;
  }

  // Every entry holds what a verification of any candidate with its key answers, and no secret.
  ghost predicate Sound(world: World, st: State) {
    forall k, r: Result :: k in st.entries && Candidate(r) && Key(r) == Some(k) ==> st.entries[k].info == world(r)
  }

  ghost predicate NoSecrets(st: State) { forall k :: k in st.entries ==> HoldsNoSecret(st.entries[k]) }

  predicate HoldsNoSecret(r: Result) { r.raw == [] && r.rawV2 == [] && r.secretParts == [] && r.primarySecret == "" }

  // The same results with the same verification, wherever it came from.
  predicate SameInfo(a: seq<Result>, b: seq<Result>) {
    |a| == |b| && forall i :: 0 <= i < |a| ==> a[i].(fromCache := false) == b[i]
  }

  predicate SameAnswer(a: Option<seq<Result>>, b: Option<seq<Result>>) {
    (a.None? && b.None?) || (a.Some? && b.Some? && SameInfo(a.value, b.value))
  }

  ghost predicate Answers(world: World, r: Result) { forall s: Result :: Candidate(s) && Key(s) == Key(r) ==> r.info == world(s) }

  // The key is not touched by a verification.
  lemma KeyStays(world: World, r: Result)
    ensures Key(Verified(world, r)) == Key(r)
  {
  }

  lemma StoreKeepsSound(world: World, st: State, r: Result)
    requires Sound(world, st) && NoSecrets(st) && (Key(r).Some? ==> Answers(world, r))
    ensures Sound(world, Store(st, r)) && NoSecrets(Store(st, r))
  {
    hide KeyBytes;
  }

  lemma VerifiedAnswers(world: World, r: Result)
    requires Factors(world) && Candidate(r) && Key(r).Some?
    ensures Answers(world, Verified(world, r))
  {
    KeyStays(world, r);
    FactorsIff(world);
    hide Key, Factors;
  }

  lemma {:induction false} StoreAllKeepsSound(world: World, st: State, rs: seq<Result>)
    requires Factors(world) && Sound(world, st) && NoSecrets(st) && AreCandidates(rs)
    ensures Sound(world, StoreAll(st, AllVerified(world, rs))) && NoSecrets(StoreAll(st, AllVerified(world, rs)))
  {
    if rs != [] {
      var before, r := rs[..|rs| - 1], rs[|rs| - 1];
      StoreAllKeepsSound(world, st, before);
      var vs := AllVerified(world, rs);
      assert vs[..|vs| - 1] == AllVerified(world, before) && vs[|vs| - 1] == Verified(world, r);
      KeyStays(world, r);
      if Key(r).Some? { VerifiedAnswers(world, r); }
      hide Store, Key, Sound, NoSecrets, Factors, Answers;
      StoreKeepsSound(world, StoreAll(st, AllVerified(world, before)), Verified(world, r));
    }
  }

  lemma OneResultAgrees(world: World, st: State, r: Result)
    requires Factors(world) && Sound(world, st) && NoSecrets(st) && Candidate(r)
    ensures var (s, out) := OneResult(world, st, r);
      Sound(world, s) && NoSecrets(s) && out.(fromCache := false) == Verified(world, r)
  {
    KeyStays(world, r);
    if Key(r).Some? {
      VerifiedAnswers(world, r);
      var asked := st.(misses := st.misses + 1, asked := st.asked + [Key(r).value]);
      assert Sound(world, asked) && NoSecrets(asked);
      StoreKeepsSound(world, asked, Verified(world, r));
    }
    hide KeyBytes, Factors, Answers;
  }

  lemma {:induction false} EachResultAgrees(world: World, st: State, rs: seq<Result>)
    requires Factors(world) && Sound(world, st) && NoSecrets(st) && AreCandidates(rs)
    ensures var (s, out) := EachResult(world, st, rs);
      Sound(world, s) && NoSecrets(s) && SameInfo(out, AllVerified(world, rs))
  {
    if rs != [] {
      var before, r := rs[..|rs| - 1], rs[|rs| - 1];
      EachResultAgrees(world, st, before);
      var (s, out) := EachResult(world, st, before);
      OneResultAgrees(world, s, r);
      hide OneResult, Sound, NoSecrets, Factors;
      assert forall i :: 0 <= i < |before| ==> rs[i] == before[i];
    }
  }

  lemma EntriesAgree(world: World, st: State, rs: seq<Result>)
    requires Sound(world, st) && AreCandidates(rs) && forall i :: 0 <= i < |rs| ==> Hit(st, rs[i])
    ensures SameInfo(FromEntries(st, rs), AllVerified(world, rs))
  {
    forall i | 0 <= i < |rs| ensures FromEntry(st, rs[i]).(fromCache := false) == Verified(world, rs[i]) {
      assert st.entries[Key(rs[i]).value].info == world(rs[i]);
    }
  }

  lemma AllOrNothingAgrees(world: World, st: State, rs: seq<Result>)
    requires Factors(world) && Sound(world, st) && NoSecrets(st) && AreCandidates(rs)
    ensures var a := AllOrNothing(world, st, rs);
      a.results.Some? && Sound(world, a.st) && NoSecrets(a.st) && SameInfo(a.results.value, AllVerified(world, rs))
  {
    hide Key, FromEntry, CachedPrefix, StoreAll;
    var n := CachedPrefix(st, rs);
    if n == |rs| {
      EntriesAgree(world, st, rs);
      hide Sound, NoSecrets, Factors, SameInfo;
    } else {
      var counted := Counted(st, rs, n);
      assert Sound(world, counted) && NoSecrets(counted);
      hide Sound, NoSecrets, Factors;
      StoreAllKeepsSound(world, counted, rs);
    }
  }

  // Storing these as they were found, unverified, is storing what a verification answers.
  ghost predicate Unverified(world: World, rs: seq<Result>) {
    forall i :: 0 <= i < |rs| && Key(rs[i]).Some? ==> world(rs[i]) == UNVERIFIED
  }

  // The call is not a forced update that stores candidates unverified which a verification would answer
  // otherwise.
  ghost predicate Harmless(world: World, c: Call) {
    Finds(c.detector) &&
    (c.force && !c.verify && c.detector.find(c.data).Some? ==> Unverified(world, c.detector.find(c.data).value))
  }

  lemma {:induction false} SameStored(world: World, st: State, rs: seq<Result>)
    requires AreCandidates(rs) && Unverified(world, rs)
    ensures StoreAll(st, rs) == StoreAll(st, AllVerified(world, rs))
  {
    if rs != [] {
      var before, r := rs[..|rs| - 1], rs[|rs| - 1];
      SameStored(world, st, before);
      var vs := AllVerified(world, rs);
      assert vs[..|vs| - 1] == AllVerified(world, before) && vs[|vs| - 1] == Verified(world, r);
      KeyStays(world, r);
      hide KeyBytes;
    }
  }

  lemma ServeAgrees(world: World, st: State, c: Call)
    requires Factors(world) && Sound(world, st) && NoSecrets(st) && Harmless(world, c)
    ensures var a := Serve(world, st, c);
      Sound(world, a.st) && NoSecrets(a.st) && SameAnswer(a.results, Direct(world, c.detector, c.verify, c.data))
  {
    var found := c.detector.find(c.data);
    if found.Some? {
      var rs := found.value;
      assert AreCandidates(rs);
      if c.force {
        StoreAllKeepsSound(world, st, rs);
        if !c.verify { SameStored(world, st, rs); }
      } else if c.verify {
        if c.detector.perResult { EachResultAgrees(world, st, rs); } else { AllOrNothingAgrees(world, st, rs); }
      }
    }
    hide Sound, NoSecrets, Factors, EachResult, AllOrNothing, StoreAll, Unverified;
  }

  // ---------------------------------------------------------------- runs

  // The state after the calls, the last of them first.
  function After(world: World, calls: seq<Call>): State {
    if calls == [] then Empty() else Serve(world, After(world, calls[..|calls| - 1]), calls[|calls| - 1]).st
  }

  // The answer to the call is what its detector answers.
  predicate Agreeing(world: World, st: State, c: Call) {
    SameAnswer(Serve(world, st, c).results, Direct(world, c.detector, c.verify, c.data))
  }

  predicate AgreesAt(world: World, calls: seq<Call>, i: nat)
    requires i < |calls|
  {
    Agreeing(world, After(world, calls[..i]), calls[i])
  }

  ghost predicate AllHarmless(world: World, calls: seq<Call>) { forall i :: 0 <= i < |calls| ==> Harmless(world, calls[i]) }

  ghost predicate AllFind(calls: seq<Call>) { forall i :: 0 <= i < |calls| ==> Finds(calls[i].detector) }

  ghost predicate Agrees(world: World, calls: seq<Call>) { forall i :: 0 <= i < |calls| ==> AgreesAt(world, calls, i) }

  lemma {:induction false} AfterIsSound(world: World, calls: seq<Call>)
    requires Factors(world) && AllHarmless(world, calls)
    ensures Sound(world, After(world, calls)) && NoSecrets(After(world, calls))
  {
    if calls != [] {
      AfterIsSound(world, calls[..|calls| - 1]);
      ServeAgrees(world, After(world, calls[..|calls| - 1]), calls[|calls| - 1]);
      hide Sound, NoSecrets, Factors, Serve;
    }
  }

  lemma RunsAgree(world: World, calls: seq<Call>)
    requires Factors(world) && AllHarmless(world, calls)
    ensures Agrees(world, calls)
  {
    forall i: nat | i < |calls| ensures AgreesAt(world, calls, i) {
      AfterIsSound(world, calls[..i]);
      assert Harmless(world, calls[i]);
      ServeAgrees(world, After(world, calls[..i]), calls[i]);
    }
  }

  // A detector that verifies by itself and finds r in every chunk.
  function Finder(r: Result): Detector { Detector(data => Some([r]), true) }

  lemma EachOfOne(world: World, st: State, r: Result)
    ensures EachResult(world, st, [r]) == (OneResult(world, st, r).0, [OneResult(world, st, r).1])
  {
    hide OneResult;
    var rs := [r];
    assert rs[..|rs| - 1] == [];
    assert EachResult(world, st, []) == (st, []);
    assert EachResult(world, st, rs) == (OneResult(world, st, rs[0]).0, [] + [OneResult(world, st, rs[0]).1]);
    assert [] + [OneResult(world, st, rs[0]).1] == [OneResult(world, st, r).1];
  }

  lemma AfterOne(world: World, c: Call)
    ensures After(world, [c]) == Serve(world, Empty(), c).st
  {
    assert [c][..0] == [] && After(world, [c][..0]) == Empty();
    hide Serve;
  }

  lemma SameKeyDisagrees(world: World, r: Result, s: Result)
    requires Candidate(r) && Candidate(s) && Key(r).Some? && Key(r) == Key(s) && world(r) != world(s)
    ensures var calls := [Call(Finder(r), true, false, []), Call(Finder(s), true, false, [])];
      AllFind(calls) && AllHarmless(world, calls) && !AgreesAt(world, calls, 1)
  {
    var first, second := Call(Finder(r), true, false, []), Call(Finder(s), true, false, []);
    var calls := [first, second];
    assert Finds(first.detector) && Finds(second.detector);
    assert calls[..1] == [first];
    AfterOne(world, first);
    EachOfOne(world, Empty(), r);
    KeyStays(world, r);
    var st := After(world, [first]);
    hide KeyBytes;
    assert st.entries[Key(r).value].info == world(r);
    EachOfOne(world, st, s);
    assert [s][..0] == [];
    assert AllVerified(world, [s])[0] == Verified(world, s);
  }

  /** The cache agrees with direct verification on every sequence of harmless calls if and only if Raw and
      RawV2 joined and the 32-bit detector type decide the outcome, where they can be cached. */
  lemma AgreementIff(world: World)
    ensures Factors(world) <==> forall calls :: AllHarmless(world, calls) ==> Agrees(world, calls)
  {
    if Factors(world) {
      forall calls | AllHarmless(world, calls) ensures Agrees(world, calls) { RunsAgree(world, calls); }
    } else {
      FactorsIff(world);
      var r: Result, s: Result :| Candidate(r) && Candidate(s) && Key(r).Some? && Key(r) == Key(s) && world(r) != world(s);
      SameKeyDisagrees(world, r, s);
      var calls := [Call(Finder(r), true, false, []), Call(Finder(s), true, false, [])];
      assert AllHarmless(world, calls) && !Agrees(world, calls);
    }
  }

  /** Raw and RawV2 are not told apart: only their concatenation counts. */
  lemma KeysCollide(r: Result, a: Bytes, b: Bytes, c: Bytes)
    ensures Key(r.(raw := a + b, rawV2 := c)) == Key(r.(raw := a, rawV2 := b + c))
  {
    assert (a + b) + c == a + (b + c);
  }

  /** Results of two detector types never share an entry: storing one leaves what the other finds. */
  lemma TypesKeepApart(st: State, r: Result, s: Result)
    requires r.detectorType % 0x1_0000_0000 != s.detectorType % 0x1_0000_0000
    ensures Hit(Store(st, r), s) <==> Hit(st, s)
    ensures Hit(st, s) ==> FromEntry(Store(st, r), s) == FromEntry(st, s)
  {
    KeyTells(r, s);
    KeyTells(s, r);
    hide Key;
  }

  // A verification that looks at nothing but Raw and RawV2 joined and the 32-bit detector type.
  function SecretWorld(answer: (Bytes, int) -> Outcome): World {
    (r: Result) => answer(r.raw + r.rawV2, r.detectorType % 0x1_0000_0000)
  }

  /** With such a verification the cache agrees with it on every sequence of harmless calls. */
  lemma SecretWorldAgrees(answer: (Bytes, int) -> Outcome, calls: seq<Call>)
    requires AllHarmless(SecretWorld(answer), calls)
    ensures Agrees(SecretWorld(answer), calls)
  {
    assert Factors(SecretWorld(answer));
    RunsAgree(SecretWorld(answer), calls);
  }

  // ---------------------------------------------------------------- forced updates without verification

  lemma {:induction false} StoredUnverified(st: State, rs: seq<Result>, i: nat)
    requires AreCandidates(rs) && i < |rs| && Key(rs[i]).Some?
    ensures Key(rs[i]).value in StoreAll(st, rs).entries && StoreAll(st, rs).entries[Key(rs[i]).value].info == UNVERIFIED
  {
    var before, r := rs[..|rs| - 1], rs[|rs| - 1];
    if i < |rs| - 1 {
      StoredUnverified(st, before, i);
      hide Key;
    }
  }

  // An entry that says unverified is served to whoever asks for its key.
  lemma ServedUnverified(world: World, st: State, r: Result)
    requires Candidate(r) && Key(r).Some? && Key(r).value in st.entries && st.entries[Key(r).value].info == UNVERIFIED
    ensures Agreeing(world, st, Call(Finder(r), true, false, [])) <==> world(r) == UNVERIFIED
  {
    EachOfOne(world, st, r);
    assert [r][..0] == [];
    assert AllVerified(world, [r])[0] == Verified(world, r);
    hide Key;
  }

  /** After any harmless calls, a forced update without verification leaves every harmless call after it
      right if and only if a verification would answer unverified for each candidate that it stores. */
  lemma UnverifiedUpdate(world: World, calls: seq<Call>, d: Detector, data: Bytes)
    requires Factors(world) && AllHarmless(world, calls) && Finds(d) && d.find(data).Some?
    ensures var st := Serve(world, After(world, calls), Call(d, false, true, data)).st;
      Unverified(world, d.find(data).value) <==> forall next :: Harmless(world, next) ==> Agreeing(world, st, next)
  {
    var update, rs := Call(d, false, true, data), d.find(data).value;
    var before := After(world, calls);
    var st := Serve(world, before, update).st;
    AfterIsSound(world, calls);
    if Unverified(world, rs) {
      ServeAgrees(world, before, update);
      forall next | Harmless(world, next) ensures Agreeing(world, st, next) { ServeAgrees(world, st, next); }
    } else {
      var i :| 0 <= i < |rs| && Key(rs[i]).Some? && world(rs[i]) != UNVERIFIED;
      assert AreCandidates(rs) && Candidate(rs[i]);
      assert st == StoreAll(before, rs);
      StoredUnverified(before, rs, i);
      ServedUnverified(world, st, rs[i]);
      assert Harmless(world, Call(Finder(rs[i]), true, false, []));
    }
  }

  // No candidate that can be cached is ever verified.
  ghost predicate NeverVerifies(world: World) {
    forall r: Result :: Candidate(r) && Key(r).Some? ==> world(r) == UNVERIFIED
  }

  /** On all sequences of calls, unverified forced updates included, the cache agrees with direct verification
      if and only if no candidate that can be cached is ever verified. */
  lemma AnyCallsAgreeIff(world: World)
    ensures Factors(world) && NeverVerifies(world) <==> forall calls :: AllFind(calls) ==> Agrees(world, calls)
  {
    if NeverVerifies(world) {
      assert KeyDecides(world);
      FactorsIff(world);
      forall calls | AllFind(calls) ensures Agrees(world, calls) {
        forall i | 0 <= i < |calls| ensures Harmless(world, calls[i]) { FoundUnverified(world, calls[i]); }
        RunsAgree(world, calls);
      }
    } else {
      var r: Result :| Candidate(r) && Key(r).Some? && world(r) != UNVERIFIED;
      var update, next := Call(Finder(r), false, true, []), Call(Finder(r), true, false, []);
      var calls := [update, next];
      AfterOne(world, update);
      StoredUnverified(Empty(), [r], 0);
      ServedUnverified(world, After(world, [update]), r);
      assert calls[..1] == [update] && !AgreesAt(world, calls, 1);
      assert AllFind(calls) && !Agrees(world, calls);
    }
  }

  lemma FoundUnverified(world: World, c: Call)
    requires NeverVerifies(world) && Finds(c.detector)
    ensures Harmless(world, c)
  {
    hide Key;
  }

  // ---------------------------------------------------------------- metrics

  // Every hit saved a verification or was wasted, and no result was asked about twice by itself.
  ghost predicate Accounted(st: State) {
    && st.hits == st.saved + st.wasted
    && (forall i, j :: 0 <= i < j < |st.asked| ==> st.asked[i] != st.asked[j])
    && (forall k :: k in st.asked ==> k in st.entries)
  }

  lemma {:induction false} StoreAllAccounted(st: State, rs: seq<Result>)
    requires Accounted(st)
    ensures Accounted(StoreAll(st, rs))
  {
    if rs != [] {
      StoreAllAccounted(st, rs[..|rs| - 1]);
      hide Key;
    }
  }

  lemma OneResultAccounted(world: World, st: State, r: Result)
    requires Accounted(st)
    ensures Accounted(OneResult(world, st, r).0)
  {
    KeyStays(world, r);
    hide Key;
  }

  lemma {:induction false} EachResultAccounted(world: World, st: State, rs: seq<Result>)
    requires Accounted(st)
    ensures Accounted(EachResult(world, st, rs).0)
  {
    if rs != [] {
      EachResultAccounted(world, st, rs[..|rs| - 1]);
      OneResultAccounted(world, EachResult(world, st, rs[..|rs| - 1]).0, rs[|rs| - 1]);
      hide Accounted, OneResult;
    }
  }

  lemma AllOrNothingAccounted(world: World, st: State, rs: seq<Result>)
    requires Accounted(st)
    ensures Accounted(AllOrNothing(world, st, rs).st)
  {
    hide Key, StoreAll, CachedPrefix, FromEntries, AllVerified;
    var n := CachedPrefix(st, rs);
    if n < |rs| {
      var counted := Counted(st, rs, n);
      assert Accounted(counted);
      StoreAllAccounted(counted, AllVerified(world, rs));
      hide Accounted;
    }
  }

  lemma ServeAccounted(world: World, st: State, c: Call)
    requires Accounted(st)
    ensures Accounted(Serve(world, st, c).st)
  {
    hide Accounted, StoreAll, EachResult, AllOrNothing, AllVerified;
    var found := c.detector.find(c.data);
    if found.Some? {
      StoreAllAccounted(st, if c.verify then AllVerified(world, found.value) else found.value);
      EachResultAccounted(world, st, found.value);
      AllOrNothingAccounted(world, st, found.value);
    }
  }

  /** After any calls: result hits are saved plus wasted hits, and a result with a given key was verified
      by itself at most once. */
  lemma {:induction false} RunIsAccounted(world: World, calls: seq<Call>)
    ensures Accounted(After(world, calls))
  {
    if calls != [] {
      hide Accounted, Serve;
      RunIsAccounted(world, calls[..|calls| - 1]);
      ServeAccounted(world, After(world, calls[..|calls| - 1]), calls[|calls| - 1]);
    }
  }

  lemma {:induction false} StoreAllClears(st: State, rs: seq<Result>)
    requires NoSecrets(st)
    ensures NoSecrets(StoreAll(st, rs))
  {
    if rs != [] {
      StoreAllClears(st, rs[..|rs| - 1]);
      hide Key;
    }
  }

  lemma {:induction false} EachResultClears(world: World, st: State, rs: seq<Result>)
    requires NoSecrets(st)
    ensures NoSecrets(EachResult(world, st, rs).0)
  {
    if rs != [] {
      EachResultClears(world, st, rs[..|rs| - 1]);
      hide Key;
    }
  }

  lemma AllOrNothingClears(world: World, st: State, rs: seq<Result>)
    requires NoSecrets(st)
    ensures NoSecrets(AllOrNothing(world, st, rs).st)
  {
    hide Key, StoreAll, CachedPrefix, FromEntries, AllVerified;
    var n := CachedPrefix(st, rs);
    if n < |rs| {
      var counted := Counted(st, rs, n);
      assert NoSecrets(counted);
      StoreAllClears(counted, AllVerified(world, rs));
      hide NoSecrets;
    }
  }

  lemma ServeClears(world: World, st: State, c: Call)
    requires NoSecrets(st)
    ensures NoSecrets(Serve(world, st, c).st)
  {
    hide NoSecrets, StoreAll, EachResult, AllOrNothing, AllVerified;
    var found := c.detector.find(c.data);
    if found.Some? {
      StoreAllClears(st, if c.verify then AllVerified(world, found.value) else found.value);
      EachResultClears(world, st, found.value);
      AllOrNothingClears(world, st, found.value);
    }
  }

  /** Whatever the calls, no entry of the cache holds the secret it was stored for. */
  lemma {:induction false} RunKeepsNoSecrets(world: World, calls: seq<Call>)
    ensures NoSecrets(After(world, calls))
  {
    if calls != [] {
      hide NoSecrets, Serve;
      RunKeepsNoSecrets(world, calls[..|calls| - 1]);
      ServeClears(world, After(world, calls[..|calls| - 1]), calls[|calls| - 1]);
    }
  }
}
