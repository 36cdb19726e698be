/**
 Cutting a stream into overlapping chunks (readInChunks) and the line numbers the default handler
 gives them.

 A stream ends or fails after its bytes; a reader that panics is not part of this model. The reader
 is a bufio.Reader, whose Peek gives at most its buffer.
 */
module Chunker {
  import opened Bytes

  // ---------------------------------------------------------------- options

  const DEFAULT_CHUNK_SIZE := 10240
  const DEFAULT_PEEK_SIZE := 3072

  datatype Option = WithChunkSize(size: int) | WithPeekSize(size: int) | WithFileSize(size: int)

  datatype Config = Config(chunkSize: int, peekSize: int, fileSize: int)

  function OptimalChunkSize(fileSize: int): int {
    if fileSize < 4096 then 4096
    else if fileSize < 10240 then 8192
    else if fileSize < 102400 then 16384
    else if fileSize < 1048576 then 32768
    else 65536
  }

  // The chunk size for each range of file sizes; it is never the default one.
  ghost predicate FitsFile(fileSize: int, size: int) {
    && (fileSize < 4096 ==> size == 4096)
    && (4096 <= fileSize < 10240 ==> size == 8192)
    && (10240 <= fileSize < 102400 ==> size == 16384)
    && (102400 <= fileSize < 1048576 ==> size == 32768)
    && (1048576 <= fileSize ==> size == 65536)
  }

  // The last option of each kind, over the default.
  function LastSize(opts: seq<Option>, default: int): int {
    if opts == [] then default
    else match opts[|opts| - 1] case WithChunkSize(n) => n case _ => LastSize(opts[..|opts| - 1], default)
  }

  function LastFileSize(opts: seq<Option>): int {
    if opts == [] then 0
    else match opts[|opts| - 1] case WithFileSize(n) => n case _ => LastFileSize(opts[..|opts| - 1])
  }

  function LastPeekSize(opts: seq<Option>): int {
    if opts == [] then 3072
    else match opts[|opts| - 1] case WithPeekSize(n) => n case _ => LastPeekSize(opts[..|opts| - 1])
  }

  /** The last option of each kind counts. A chunk size that is asked for takes precedence over the file
      size, except when it is the default one: that is indistinguishable from not asking. */
  method ApplyOptions(opts: seq<Option>) returns (c: Config)
    ensures c.fileSize == LastFileSize(opts) && c.peekSize == LastPeekSize(opts)
    ensures var size := LastSize(opts, 10240);
      if c.fileSize == 0 || size != 10240 then c.chunkSize == size else FitsFile(c.fileSize, c.chunkSize)
  {
    c := Config(DEFAULT_CHUNK_SIZE, DEFAULT_PEEK_SIZE, 0);
    for i := 0 to |opts|
      invariant c.chunkSize == LastSize(opts[..i], DEFAULT_CHUNK_SIZE) && c.fileSize == LastFileSize(opts[..i])
      invariant c.peekSize == LastPeekSize(opts[..i])
    {
      assert opts[..i + 1][..i] == opts[..i];
      match opts[i]
      case WithChunkSize(n) => c := c.(chunkSize := n);
      case WithPeekSize(n) => c := c.(peekSize := n);
      case WithFileSize(n) => c := c.(fileSize := n);
    }
    assert opts[..|opts|] == opts;
    if c.fileSize != 0 && c.chunkSize == DEFAULT_CHUNK_SIZE {
      c := c.(chunkSize := OptimalChunkSize(c.fileSize));
    }
  }

  // ---------------------------------------------------------------- readInChunks

  datatype Stream = Stream(data: Bytes, fails: bool)

  datatype ChunkResult = Chunk(data: Bytes, contentSize: nat) | ReadError

  function Min(a: int, b: int): int { if a < b then a else b }
  function Max(a: int, b: int): int { if a > b then a else b }

  // How many bytes past its content a chunk can show: bufio's buffer bounds the peek.
  function Overlap(c: Config): int { Min(c.peekSize, Max(c.chunkSize, 16)) }

  // The chunks from `pos` on.
  function ChunksFrom(c: Config, s: Stream, pos: nat): seq<ChunkResult>
    requires c.chunkSize > 0 && c.peekSize >= 0 && pos <= |s.data|
    decreases |s.data| - pos
  {
    var left := |s.data| - pos;
    if left >= c.chunkSize then
      [Chunk(s.data[pos..Min(pos + c.chunkSize + Overlap(c), |s.data|)], c.chunkSize)] + ChunksFrom(c, s, pos + c.chunkSize)
    else if s.fails then [ReadError]
    else if left > 0 then [Chunk(s.data[pos..], left)]
    else []
  }

  // A chunk size of 0 reads nothing, and with a negative size the slicing of the buffer panics, which
  // is recovered into an error chunk.
  function Chunks(c: Config, s: Stream): seq<ChunkResult> {
    if c.chunkSize < 0 || c.peekSize < 0 then [ReadError] else if c.chunkSize == 0 then [] else ChunksFrom(c, s, 0)
  }

  // What one turn reads: a chunk, an error or nothing, and whether it is the last.
  function Turn(c: Config, s: Stream, pos: nat): seq<ChunkResult>
    requires c.chunkSize > 0 && c.peekSize >= 0 && pos <= |s.data|
  {
    var left := |s.data| - pos;
    if left >= c.chunkSize then [Chunk(s.data[pos..Min(pos + c.chunkSize + Overlap(c), |s.data|)], c.chunkSize)]
    else if s.fails then [ReadError]
    else if left > 0 then [Chunk(s.data[pos..], left)]
    else []
  }

  lemma ChunksTurn(c: Config, s: Stream, pos: nat)
    requires c.chunkSize > 0 && c.peekSize >= 0 && pos <= |s.data|
    ensures ChunksFrom(c, s, pos) == Turn(c, s, pos) + if |s.data| - pos >= c.chunkSize then ChunksFrom(c, s, pos + c.chunkSize) else []
  {
    hide Overlap;
  }

  method ReadInChunks(c: Config, s: Stream) returns (results: seq<ChunkResult>)
    ensures results == Chunks(c, s)
  {
    hide ChunksFrom, Turn, Overlap;
    results := [];
    if c.chunkSize < 0 || c.peekSize < 0 { return [ReadError]; }
    if c.chunkSize == 0 { return; }
    var pos: nat := 0;
    var last := false;
    while !last
      invariant pos <= |s.data|
      invariant results + (if last then [] else ChunksFrom(c, s, pos)) == ChunksFrom(c, s, 0)
      decreases |s.data| - pos, !last
    {
      ChunksTurn(c, s, pos);
      var sent, n := ReadChunk(c, s, pos);
      results := results + sent;
      last := n < c.chunkSize;
      pos := pos + n;
    }
  }

  // One turn of the loop: io.ReadFull, the error it ends with, and the peek.
  method ReadChunk(c: Config, s: Stream, pos: nat) returns (sent: seq<ChunkResult>, n: nat)
    requires c.chunkSize > 0 && c.peekSize >= 0 && pos <= |s.data|
    ensures sent == Turn(c, s, pos) && n == Min(c.chunkSize, |s.data| - pos)
  {
    n := Min(c.chunkSize, |s.data| - pos);
    var bytes := PeekPast(c, s, pos, n);
    hide Overlap;
    if n < c.chunkSize && s.fails {
      sent := [ReadError];
    } else if n > 0 {
      sent := [Chunk(bytes, n)];
    } else {
      sent := [];
    }
  }

  // The n bytes read at pos and what the buffer shows of those after them.
  method PeekPast(c: Config, s: Stream, pos: nat, n: nat) returns (bytes: Bytes)
    requires c.chunkSize >= 0 && c.peekSize >= 0 && n <= c.chunkSize && pos + n <= |s.data|
    ensures n == c.chunkSize > 0 ==> bytes == s.data[pos..Min(pos + n + Overlap(c), |s.data|)]
    ensures pos + n == |s.data| ==> bytes == s.data[pos..]
  {
    bytes := s.data[pos..pos + n];
    if n > 0 {
      var peek := Min(Min(c.chunkSize + c.peekSize - n, Max(c.chunkSize, 16)), |s.data| - pos - n);
      bytes := bytes + s.data[pos + n..pos + n + peek];
      assert bytes == s.data[pos..pos + n + peek];
    }
  }

  // ---------------------------------------------------------------- contents

  predicate AllChunks(results: seq<ChunkResult>) {
    forall k :: 0 <= k < |results| ==> results[k].Chunk? && results[k].contentSize <= |results[k].data|
  }

  // The chunks without their overlaps, one after the other.
  function Contents(results: seq<ChunkResult>): Bytes
    requires AllChunks(results)
  {
    if results == [] then [] else results[0].data[..results[0].contentSize] + Contents(results[1..])
  }

  // A whole chunk and those after it.
  lemma WholeChunk(c: Config, s: Stream, pos: nat) returns (first: ChunkResult)
    requires c.chunkSize > 0 && c.peekSize >= 0 && pos + c.chunkSize <= |s.data|
    ensures first == Chunk(s.data[pos..Min(pos + c.chunkSize + Overlap(c), |s.data|)], c.chunkSize)
    ensures ChunksFrom(c, s, pos) == [first] + ChunksFrom(c, s, pos + c.chunkSize)
    ensures first.contentSize <= |first.data| && first.data[..first.contentSize] == s.data[pos..pos + c.chunkSize]
  {
    first := Chunk(s.data[pos..Min(pos + c.chunkSize + Overlap(c), |s.data|)], c.chunkSize);
  }

  lemma ContentsPush(first: ChunkResult, rest: seq<ChunkResult>)
    requires first.Chunk? && first.contentSize <= |first.data| && AllChunks(rest)
    ensures AllChunks([first] + rest) && Contents([first] + rest) == first.data[..first.contentSize] + Contents(rest)
  {
    var all := [first] + rest;
    assert all[0] == first && all[1..] == rest;
    assert forall k :: 0 < k < |all| ==> all[k] == rest[k - 1];
  }

  // What a failing stream's chunks are, from `pos` on.
  predicate FailsAfter(c: Config, s: Stream, pos: nat, results: seq<ChunkResult>) {
    && pos <= |s.data| && results != [] && results[|results| - 1] == ReadError && AllChunks(results[..|results| - 1])
    && Contents(results[..|results| - 1]) <= s.data[pos..]
    && |s.data| - pos - |Contents(results[..|results| - 1])| < c.chunkSize
  }

  lemma FailsPush(c: Config, s: Stream, pos: nat, first: ChunkResult, rest: seq<ChunkResult>)
    requires c.chunkSize > 0 && pos + c.chunkSize <= |s.data| && FailsAfter(c, s, pos + c.chunkSize, rest)
    requires first.Chunk? && first.contentSize <= |first.data|
    requires first.data[..first.contentSize] == s.data[pos..pos + c.chunkSize]
    ensures FailsAfter(c, s, pos, [first] + rest)
  {
    var next := pos + c.chunkSize;
    var all, chunks := [first] + rest, rest[..|rest| - 1];
    assert all[..|all| - 1] == [first] + chunks && all[|all| - 1] == rest[|rest| - 1];
    ContentsPush(first, chunks);
    hide Contents, AllChunks;
    assert s.data[pos..] == s.data[pos..next] + s.data[next..];
    PrefixGrows(s.data[pos..next], Contents(chunks), s.data[next..]);
  }

  lemma {:induction false} ContentsFrom(c: Config, s: Stream, pos: nat)
    requires c.chunkSize > 0 && c.peekSize >= 0 && pos <= |s.data|
    ensures var results := ChunksFrom(c, s, pos);
      if s.fails then FailsAfter(c, s, pos, results) else AllChunks(results) && Contents(results) == s.data[pos..]
    decreases |s.data| - pos
  {
    if |s.data| - pos >= c.chunkSize {
      hide ChunksFrom, Contents, AllChunks, FailsAfter, Overlap;
      var next := pos + c.chunkSize;
      var first := WholeChunk(c, s, pos);
      var rest := ChunksFrom(c, s, next);
      ContentsFrom(c, s, next);
      if s.fails {
        FailsPush(c, s, pos, first, rest);
      } else {
        ContentsPush(first, rest);
        assert s.data[pos..] == s.data[pos..next] + s.data[next..];
      }
    } else {
      LastContents(c, s, pos);
    }
  }

  lemma LastContents(c: Config, s: Stream, pos: nat)
    requires c.chunkSize > 0 && c.peekSize >= 0 && pos <= |s.data| < pos + c.chunkSize
    ensures var results := ChunksFrom(c, s, pos);
      if s.fails then FailsAfter(c, s, pos, results) else AllChunks(results) && Contents(results) == s.data[pos..]
  {
    var results := ChunksFrom(c, s, pos);
    if s.fails {
      assert results[..0] == [];
    } else if |s.data| > pos {
      assert results[1..] == [];
    }
  }

  lemma PrefixGrows(a: Bytes, b: Bytes, d: Bytes)
    requires b <= d
    ensures a + b <= a + d
  {
  }

  /** The contents of the chunks make up the stream. Where it fails they are all its bytes up to the
      last whole chunk: what was read of the next one is lost, and the error comes last. */
  lemma ContentsMakeUpStream(c: Config, s: Stream)
    requires c.chunkSize > 0 && c.peekSize >= 0
    ensures var results := Chunks(c, s);
      if !s.fails then AllChunks(results) && Contents(results) == s.data
      else
        results != [] && results[|results| - 1] == ReadError && AllChunks(results[..|results| - 1]) &&
        Contents(results[..|results| - 1]) <= s.data && |s.data| - |Contents(results[..|results| - 1])| < c.chunkSize
  {
    ContentsFrom(c, s, 0);
    hide ChunksFrom, Contents, AllChunks;
    assert s.data[0..] == s.data;
  }

  // ---------------------------------------------------------------- what a chunk shows

  // Some chunk, placed after the contents of those before it, holds the bytes from a to b.
  predicate Shown(results: seq<ChunkResult>, pos: nat, a: nat, b: nat) {
    results != [] && results[0].Chunk? &&
    ((pos <= a && b <= pos + |results[0].data|) || Shown(results[1..], pos + results[0].contentSize, a, b))
  }

  // Where the chunk with byte a in its content starts.
  function ChunkStart(c: Config, pos: nat, a: nat): nat
    requires c.chunkSize > 0 && pos <= a
    decreases a - pos
  {
    if a < pos + c.chunkSize then pos else ChunkStart(c, pos + c.chunkSize, a)
  }

  lemma {:induction false} ChunkStartIs(c: Config, pos: nat, a: nat)
    requires c.chunkSize > 0 && pos <= a
    ensures pos <= ChunkStart(c, pos, a) <= a < ChunkStart(c, pos, a) + c.chunkSize
    decreases a - pos
  {
    if a >= pos + c.chunkSize { ChunkStartIs(c, pos + c.chunkSize, a); }
  }

  lemma {:induction false} NotShownEarlier(results: seq<ChunkResult>, pos: nat, a: nat, b: nat)
    requires a < pos
    ensures !Shown(results, pos, a, b)
    decreases |results|
  {
    if results != [] && results[0].Chunk? {
      NotShownEarlier(results[1..], pos + results[0].contentSize, a, b);
    }
  }

  lemma {:induction false} ShownFrom(c: Config, s: Stream, pos: nat, a: nat, b: nat)
    requires c.chunkSize > 0 && c.peekSize >= 0 && !s.fails && pos <= a < b <= |s.data|
    ensures Shown(ChunksFrom(c, s, pos), pos, a, b) <==> b <= ChunkStart(c, pos, a) + c.chunkSize + Overlap(c)
    decreases |s.data| - pos
  {
    var results := ChunksFrom(c, s, pos);
    if |s.data| - pos >= c.chunkSize {
      var next := pos + c.chunkSize;
      assert results[1..] == ChunksFrom(c, s, next);
      if a < next {
        NotShownEarlier(ChunksFrom(c, s, next), next, a, b);
      } else {
        ShownFrom(c, s, next, a, b);
        ChunkStartIs(c, next, a);
      }
    } else {
      assert results[1..] == [];
    }
  }

  // How far past its content a chunk shows the data: as far as the peek, and no further than the reader's
  // buffer, of a chunk's size but at least 16 bytes.
  ghost predicate ShowsPast(c: Config, over: int) { over <= c.peekSize && (over <= c.chunkSize || over <= 16) }

  /** The bytes from a to b lie whole in some chunk if and only if the chunk that a is in shows the data as
      far as b. */
  lemma ShownIff(c: Config, s: Stream, a: nat, b: nat)
    requires c.chunkSize > 0 && c.peekSize >= 0 && !s.fails && a < b <= |s.data|
    ensures Shown(Chunks(c, s), 0, a, b) <==> ShowsPast(c, b - (ChunkStart(c, 0, a) + c.chunkSize))
  {
    ShownFrom(c, s, 0, a, b);
  }

  /** So no range that reaches at most that far past its first byte is split, and longer ones are: one that
      starts at the last byte of a chunk. */
  lemma ShortRangesShown(c: Config, s: Stream, a: nat, b: nat)
    requires c.chunkSize > 0 && c.peekSize >= 0 && !s.fails && a < b <= |s.data|
    ensures ShowsPast(c, b - a - 1) ==> Shown(Chunks(c, s), 0, a, b)
    ensures a == c.chunkSize - 1 && !ShowsPast(c, b - a - 1) ==> !Shown(Chunks(c, s), 0, a, b)
  {
    ShownIff(c, s, a, b);
    ChunkStartIs(c, 0, a);
  }

  // ---------------------------------------------------------------- line numbers

  datatype Sent = Data(bytes: Bytes, line: nat) | Warning

  function Tagged(results: seq<ChunkResult>, line: nat): (sent: seq<Sent>)
    ensures |sent| == |results|
  {
    if results == [] then []
    else
      match results[0]
      case ReadError => [Warning] + Tagged(results[1..], line)
      case Chunk(data, n) =>
        [Data(data, line)] + Tagged(results[1..], line + Newlines(if n <= |data| then data[..n] else data))
  }

  // handleNonArchiveContent, for a file that is not skipped.
  method HandleNonArchiveContent(results: seq<ChunkResult>) returns (sent: seq<Sent>)
    requires forall k :: 0 <= k < |results| && results[k].Chunk? ==> results[k].contentSize <= |results[k].data|
    ensures sent == Tagged(results, 1)
  {
    sent := [];
    var currentLine: nat := 1;
    assert results[0..] == results;
    for i := 0 to |results|
      invariant sent + Tagged(results[i..], currentLine) == Tagged(results, 1)
    {
      assert results[i..][0] == results[i] && results[i..][1..] == results[i + 1..];
      match results[i]
      case ReadError => sent := sent + [Warning];
      case Chunk(data, n) =>
        sent := sent + [Data(data, currentLine)];
        currentLine := currentLine + Newlines(data[..n]);
    }
  }

  // Chunk k starts after the contents of those before it.
  function StartOf(results: seq<ChunkResult>, k: nat): nat
    requires k <= |results|
  {
    if k == 0 then 0
    else StartOf(results, k - 1) + match results[k - 1] case Chunk(_, n) => n case ReadError => 0
  }

  // Each chunk is the stream from its start, with the line its start is on.
  ghost predicate Placed(s: Stream, sent: seq<Sent>, pos: nat) {
    pos <= |s.data| &&
    (sent == [] || match sent[0]
      case Warning => |sent| == 1
      case Data(bytes, line) => pos + |bytes| <= |s.data| && bytes == s.data[pos..pos + |bytes|] && line == 1 + Newlines(s.data[..pos]))
  }

  lemma NewlinesUpTo(data: Bytes, a: nat, b: nat)
    requires a <= b <= |data|
    ensures Newlines(data[..b]) == Newlines(data[..a]) + Newlines(data[a..b])
  {
    assert data[..b] == data[..a] + data[a..b];
    NewlinesConcat(data[..a], data[a..b]);
  }

  lemma TaggedPush(first: ChunkResult, rest: seq<ChunkResult>, line: nat)
    requires first.Chunk? && first.contentSize <= |first.data|
    ensures Tagged([first] + rest, line) == [Data(first.data, line)] + Tagged(rest, line + Newlines(first.data[..first.contentSize]))
  {
    hide Newlines;
    var all := [first] + rest;
    assert all[0] == first && all[1..] == rest;
  }

  lemma NextLine(c: Config, s: Stream, pos: nat)
    requires c.chunkSize > 0 && c.peekSize >= 0 && pos + c.chunkSize <= |s.data|
    ensures var results, next := ChunksFrom(c, s, pos), pos + c.chunkSize;
      Tagged(results, 1 + Newlines(s.data[..pos])) ==
        [Data(s.data[pos..Min(next + Overlap(c), |s.data|)], 1 + Newlines(s.data[..pos]))] +
        Tagged(ChunksFrom(c, s, next), 1 + Newlines(s.data[..next]))
  {
    hide Newlines, Overlap, ChunksFrom, Tagged;
    var next := pos + c.chunkSize;
    var first := WholeChunk(c, s, pos);
    NewlinesUpTo(s.data, pos, next);
    TaggedPush(first, ChunksFrom(c, s, next), 1 + Newlines(s.data[..pos]));
  }

  lemma {:induction false} TaggedFrom(c: Config, s: Stream, pos: nat, k: nat)
    requires c.chunkSize > 0 && c.peekSize >= 0 && pos <= |s.data|
    requires k < |ChunksFrom(c, s, pos)|
    ensures var sent, at := Tagged(ChunksFrom(c, s, pos), 1 + Newlines(s.data[..pos])), pos + StartOf(ChunksFrom(c, s, pos), k);
      Placed(s, sent[k..], at)
    decreases |s.data| - pos
  {
    hide Newlines, Tagged, ChunksFrom, Placed, StartOf;
    var results := ChunksFrom(c, s, pos);
    if k == 0 {
      FirstPlaced(c, s, pos);
    } else {
      FewerChunks(c, s, pos, k);
      NextLine(c, s, pos);
      var first := WholeChunk(c, s, pos);
      var next := pos + c.chunkSize;
      var rest := ChunksFrom(c, s, next);
      assert results[1..] == rest && results[0] == first;
      StartOfRest(results, k);
      var sent, tail := Tagged(results, 1 + Newlines(s.data[..pos])), Tagged(rest, 1 + Newlines(s.data[..next]));
      assert sent[k..] == tail[k - 1..];
      TaggedFrom(c, s, next, k - 1);
    }
  }

  // Only a whole chunk has others after it.
  lemma FewerChunks(c: Config, s: Stream, pos: nat, k: nat)
    requires c.chunkSize > 0 && c.peekSize >= 0 && pos <= |s.data| && 0 < k < |ChunksFrom(c, s, pos)|
    ensures pos + c.chunkSize <= |s.data|
  {
  }

  lemma FirstPlaced(c: Config, s: Stream, pos: nat)
    requires c.chunkSize > 0 && c.peekSize >= 0 && pos <= |s.data| && ChunksFrom(c, s, pos) != []
    ensures var sent := Tagged(ChunksFrom(c, s, pos), 1 + Newlines(s.data[..pos]));
      Placed(s, sent[0..], pos + StartOf(ChunksFrom(c, s, pos), 0))
  {
    hide Newlines, Tagged;
    var results := ChunksFrom(c, s, pos);
    var sent := Tagged(results, 1 + Newlines(s.data[..pos]));
    assert sent[0..] == sent && StartOf(results, 0) == 0;
    if |s.data| - pos < c.chunkSize {
      LastTagged(results, 1 + Newlines(s.data[..pos]));
    } else {
      NextLine(c, s, pos);
    }
  }

  lemma LastTagged(results: seq<ChunkResult>, line: nat)
    requires |results| == 1
    ensures Tagged(results, line) == [if results[0].Chunk? then Data(results[0].data, line) else Warning]
  {
    assert results[1..] == [];
  }

  lemma {:induction false} StartOfRest(results: seq<ChunkResult>, k: nat)
    requires 0 < k <= |results| && results[0].Chunk?
    ensures StartOf(results, k) == results[0].contentSize + StartOf(results[1..], k - 1)
  {
    if k > 1 { StartOfRest(results, k - 1); }
  }

  lemma InSlice(data: Bytes, from: nat, bytes: Bytes, p: nat)
    requires from + |bytes| <= |data| && bytes == data[from..from + |bytes|] && from <= p < from + |bytes|
    ensures bytes[p - from] == data[p] && bytes[..p - from] == data[from..p]
  {
  }

  /** The line reported for a position, the chunk's line plus the newlines before it in the chunk, is 1
      plus the newlines before it in the stream, whichever of the overlapping chunks shows it. */
  lemma LineOfPosition(c: Config, s: Stream, k: nat, p: nat)
    requires c.chunkSize > 0 && c.peekSize >= 0 && k < |Chunks(c, s)|
    requires var sent, from := Tagged(Chunks(c, s), 1)[k..], StartOf(Chunks(c, s), k);
      sent != [] && sent[0].Data? && from <= p < from + |sent[0].bytes|
    ensures var sent, from := Tagged(Chunks(c, s), 1)[k..], StartOf(Chunks(c, s), k);
      p < |s.data| && sent[0].bytes[p - from] == s.data[p] &&
      sent[0].line + Newlines(sent[0].bytes[..p - from]) == 1 + Newlines(s.data[..p])
  {
    assert s.data[..0] == [];
    TaggedFrom(c, s, 0, k);
    var sent, from := Tagged(Chunks(c, s), 1)[k..], StartOf(Chunks(c, s), k);
    var bytes := sent[0].bytes;
    hide Newlines, ChunksFrom, Tagged, StartOf;
    InSlice(s.data, from, bytes, p);
    NewlinesUpTo(s.data, from, p);
  }
}
