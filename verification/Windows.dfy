/**
 The request scanner's windows, and the rune offsets of what is found in them: scanText's loop,
 runeBoundary and runeIndex.
 */
module Windows {
  import opened Bytes
  import opened Utf8

  const WINDOW_SIZE := 2048
  const WINDOW_PEEK := 1024

  // data[from..to], with the runes before it.
  datatype Window = Window(from: nat, to: nat, runeBase: nat)

  // The next rune start, or the end.
  method RuneBoundary(data: Bytes, i: nat) returns (r: nat)
    ensures r <= |data| && AtRune(data, r)
    ensures i <= |data| ==> i <= r && forall k :: i <= k < r ==> Continues(data[k])
    ensures i > |data| ==> r == |data|
  {
    if i >= |data| { return |data|; }
    r := i;
    while r < |data| && !RuneStart(data[r])
      invariant i <= r <= |data|
      invariant forall k :: i <= k < r ==> Continues(data[k])
    {
      r := r + 1;
    }
  }

  predicate Holds(w: Window, a: nat, b: nat) { w.from <= a && b <= w.to }

  ghost predicate WindowFits(data: Bytes, w: Window) {
    w.from <= w.to <= |data| && AtRune(data, w.from) && AtRune(data, w.to) && w.runeBase == RuneCount(data[..w.from])
  }

  ghost predicate InSome(windows: seq<Window>, a: nat, b: nat) { exists w :: w in windows && Holds(w, a, b) }

  // data[a..b] is no longer than 1024 bytes and starts at a rune.
  predicate Short(data: Bytes, a: nat, b: nat) { a < b <= |data| && b - a <= 1024 && AtRune(data, a) }

  // Every range that starts before `upTo`, at a rune, and is no longer than 1024 bytes is in a window.
  ghost predicate Covered(data: Bytes, windows: seq<Window>, upTo: nat) {
    forall a: nat, b: nat :: a < upTo && Short(data, a, b) ==> InSome(windows, a, b)
  }

  lemma CoveredNext(data: Bytes, windows: seq<Window>, from: nat, w: Window, next: nat)
    requires Covered(data, windows, from) && w.from == from
    requires w.to == |data| || from + WINDOW_SIZE + WINDOW_PEEK <= w.to
    requires forall k: nat :: from + WINDOW_SIZE <= k < next && k < |data| ==> Continues(data[k])
    requires next <= |data|
    ensures Covered(data, windows + [w], next)
  {
    forall a: nat, b: nat | a < next && Short(data, a, b) ensures InSome(windows + [w], a, b) {
      if a < from {
        var v :| v in windows && Holds(v, a, b);
        assert v in windows + [w];
      } else {
        assert a < from + WINDOW_SIZE;
        assert w in windows + [w] && Holds(w, a, b);
      }
    }
  }

  /** The windows the request is cut into. The loop ends, every window begins and ends at a rune, and
      every range of at most 1024 bytes that starts at a rune lies whole in one of them. */
  method ScanWindows(data: Bytes) returns (windows: seq<Window>)
    ensures forall w :: w in windows ==> WindowFits(data, w)
    ensures Covered(data, windows, |data|)
    ensures |data| <= 3072 ==> windows == [Window(0, |data|, 0)]
  {
    if |data| <= WINDOW_SIZE + WINDOW_PEEK {
      windows := [Window(0, |data|, 0)];
      assert data[..0] == [];
      CoversRest(data, [], 0, windows[0]);
      assert [] + [windows[0]] == windows;
      return;
    }
    windows := [];
    var off := 0;
    while off < |data|
      invariant off <= |data| && AtRune(data, off)
      invariant forall w :: w in windows ==> WindowFits(data, w)
      invariant Covered(data, windows, off)
      decreases |data| - off
    {
      var end := RuneBoundary(data, off + WINDOW_SIZE + WINDOW_PEEK);
      var w := Window(off, end, RuneCount(data[..off]));
      if end == |data| {
        CoversRest(data, windows, off, w);
        windows := windows + [w];
        return;
      }
      var next := RuneBoundary(data, off + WINDOW_SIZE);
      CoveredNext(data, windows, off, w, next);
      windows := windows + [w];
      off := next;
    }
  }

  // The window that reaches the end holds whatever starts in it.
  lemma CoversRest(data: Bytes, windows: seq<Window>, from: nat, w: Window)
    requires Covered(data, windows, from) && w.from == from && w.to == |data|
    ensures Covered(data, windows + [w], |data|)
  {
    forall a: nat, b: nat | a < |data| && Short(data, a, b) ensures InSome(windows + [w], a, b) {
      if a < from {
        var v :| v in windows && Holds(v, a, b);
        assert v in windows + [w];
      } else {
        assert w in windows + [w] && Holds(w, a, b);
      }
    }
  }

  // ---------------------------------------------------------------- runeIndex

  // Where raw is looked up: at `at` if it is there, at its first occurrence otherwise.
  function LookupAt(data: Bytes, raw: Bytes, at: int): int {
    if MatchAt(data, raw, at) then at else Index(data, raw)
  }

  class RuneIndex {
    const data: Bytes
    var byteAt: nat
    var runeAt: nat

    constructor (data: Bytes)
      ensures this.data == data && Counted()
    {
      this.data := data;
      byteAt, runeAt := 0, 0;
    }

    // The runes counted so far are those of the bytes passed.
    ghost predicate Counted()
      reads this
    {
      byteAt <= |data| && AtRune(data, byteAt) && runeAt == RuneCount(data[..byteAt])
    }

    /** The rune offsets of a value that starts at a rune, counted on from the last lookup or from the
        start again, are those of a count over all the data before it. */
    method Offsets(raw: Bytes, at: int) returns (start: nat, end: nat, ok: bool)
      requires byteAt <= |data|
      modifies this
      ensures byteAt <= |data|
      ensures ok <==> raw != [] && LookupAt(data, raw, at) >= 0
      ensures !ok ==> byteAt == old(byteAt) && runeAt == old(runeAt)
      ensures ok && old(Counted()) && RuneStart(raw[0]) ==>
        var i := LookupAt(data, raw, at);
        MatchAt(data, raw, i) && Counted() && start == RuneCount(data[..i]) && end == start + RuneCount(raw)
    {
      if |raw| == 0 { return 0, 0, false; }
      var i := at;
      if i < 0 || i + |raw| > |data| || data[i..i + |raw|] != raw {
        i := Index(data, raw);
      }
      assert i == LookupAt(data, raw, at);
      if i < 0 { return 0, 0, false; }
      IndexFinds(data, raw, 0);
      if i < byteAt { byteAt, runeAt := 0, 0; }
      CountsOn(data, byteAt, i);
      assert data[i] == data[i..i + |raw|][0] == raw[0];
      runeAt := runeAt + RuneCount(data[byteAt..i]);
      byteAt := i;
      start, end, ok := runeAt, runeAt + RuneCount(raw), true;
    }
  }

  lemma InWindow(data: Bytes, from: nat, to: nat, raw: Bytes, i: nat)
    requires from <= to <= |data| && MatchAt(data[from..to], raw, i)
    ensures MatchAt(data, raw, from + i)
    ensures data[from..to][..i] == data[from..from + i]
  {
    var at := from + i;
    var a, b := data[from..to][i..i + |raw|], data[at..at + |raw|];
    assert forall k :: 0 <= k < |raw| ==> a[k] == b[k];
  }

  // Counting up to an occurrence of a value that starts at a rune, and past it.
  lemma CountsAround(data: Bytes, from: nat, at: nat, raw: Bytes)
    requires AtRune(data, from) && from <= at && MatchAt(data, raw, at) && raw != [] && RuneStart(raw[0])
    ensures RuneCount(data[..from]) + RuneCount(data[from..at]) == RuneCount(data[..at])
    ensures RuneCount(data[..at]) + RuneCount(raw) == RuneCount(data[..at + |raw|])
  {
    hide RuneCount;
    assert data[at] == data[at..at + |raw|][0];
    CountsOn(data, from, at);
    CountsOn(data, at, at + |raw|);
  }

  /** A window's base plus the offsets of a value found in it are the value's offsets in the request. */
  lemma WindowOffsetsAreGlobal(data: Bytes, w: Window, raw: Bytes, i: nat)
    requires WindowFits(data, w) && raw != [] && RuneStart(raw[0])
    requires MatchAt(data[w.from..w.to], raw, i)
    ensures MatchAt(data, raw, w.from + i)
    ensures w.runeBase + RuneCount(data[w.from..w.to][..i]) == RuneCount(data[..w.from + i])
    ensures w.runeBase + RuneCount(data[w.from..w.to][..i]) + RuneCount(raw) == RuneCount(data[..w.from + i + |raw|])
  {
    hide RuneCount, RuneStart, AtRune, MatchAt;
    InWindow(data, w.from, w.to, raw, i);
    CountsAround(data, w.from, w.from + i, raw);
  }
}
