/**
 A seekable view of a one-shot stream (BufferedReadSeeker), for a reader that cannot seek and a stream
 that stays under the threshold, so that all of it is kept in memory.
 */
module BufferedReadSeeker {
  import opened Bytes

  const DEFAULT_BUFFER_SIZE := 65536

  function Min(a: nat, b: nat): nat { if a < b then a else b }
  function Max(a: int, b: int): int { if a > b then a else b }

  // The underlying reader. How much one Read gives is its choice, `grant` for each position and length, but
  // it gives something while there is something; it reports the end with the last bytes, if it is
  // `early`, or after them.
  class Stream {
    const data: Bytes
    const grant: (nat, nat) -> nat
    const early: bool
    var pos: nat

    constructor (data: Bytes, grant: (nat, nat) -> nat, early: bool)
      ensures this.data == data && this.grant == grant && this.early == early && pos == 0
    {
      this.data, this.grant, this.early := data, grant, early;
      pos := 0;
    }

    // How much a read of `len` bytes at `at` gives, and whether it reports the end.
    function Given(at: nat, len: nat): nat
      requires at <= |data|
    {
      Min(Min(len, |data| - at), if grant(at, len) == 0 then 1 else grant(at, len))
    }

    predicate Ends(at: nat, len: nat)
      requires at <= |data|
    {
      at + Given(at, len) == |data| && (early || (Given(at, len) == 0 && len > 0))
    }

    method Read(len: nat) returns (out: Bytes, eof: bool)
      requires pos <= |data|
      modifies this
      ensures pos == old(pos) + Given(old(pos), len) <= |data| && out == data[old(pos)..pos]
      ensures eof <==> Ends(old(pos), len)
    {
      var n := Given(pos, len);
      eof := Ends(pos, len);
      out := data[pos..pos + n];
      pos := pos + n;
    }
  }

  datatype Whence = FromStart | FromCurrent | FromEnd

  class Seeker {
    const reader: Stream
    const threshold: nat
    var buf: Bytes
    var bytesRead: int
    var index: int
    var totalSize: int
    var sizeKnown: bool

    constructor (reader: Stream, threshold: nat)
      requires reader.pos == 0 && |reader.data| < threshold
      ensures Valid() && this.reader == reader && index == 0
    {
      this.reader, this.threshold := reader, threshold;
      buf, bytesRead, index, totalSize, sizeKnown := [], 0, 0, 0, false;
    }

    // Everything read is in the buffer, and the position is within it.
    ghost predicate Valid()
      reads this, reader
    {
      && |reader.data| < threshold
      && reader.pos == |buf| == bytesRead <= |reader.data|
      && buf == reader.data[..bytesRead]
      && 0 <= index <= bytesRead
      && (sizeKnown ==> totalSize == |reader.data|)
    }

    // A seek has gone past the end: the position, and with it the count of bytes read, is behind the stream.
    ghost predicate Past()
      reads this, reader
    {
      reader.pos == |reader.data| && buf == reader.data && sizeKnown && |reader.data| < bytesRead == index
    }

    // In memory: the buffer stays under the threshold, so nothing is flushed to disk.
    method WriteData(data: Bytes)
      modifies this
      ensures buf == old(buf) + data && bytesRead == old(bytesRead) + |data|
      ensures index == old(index) && sizeKnown == old(sizeKnown) && totalSize == old(totalSize)
    {
      buf := buf + data;
      bytesRead := bytesRead + |data|;
    }

    /** Reads from the position on: the stream's bytes there, at least one while there are any. Behind the
        stream it reads nothing, and takes the position for the size. */
    method Read(len: nat) returns (out: Bytes, eof: bool)
      requires Valid() || Past()
      modifies this, reader
      ensures bytesRead == Max(old(bytesRead), index)
      ensures old(Valid()) ==> Valid()
      ensures old(Valid()) ==> index == old(index) + |out| && out == reader.data[old(index)..index] && |out| <= len
      ensures old(Valid()) && len > 0 && old(index) < |reader.data| ==> out != []
      ensures old(Valid()) && eof ==> index == |reader.data| && sizeKnown
      ensures old(Valid()) && len > 0 && old(index) == |reader.data| ==> eof
      ensures old(Valid()) ==> (eof <==> var left := len - (old(bytesRead) - old(index));
        left > 0 && reader.Ends(old(bytesRead), left))
      ensures old(sizeKnown) ==> sizeKnown
      ensures old(Past()) ==> out == [] && (eof <==> len > 0) && index == old(index) && sizeKnown
      ensures old(Past()) ==> totalSize == if len > 0 then index else old(totalSize)
    {
      out, eof := [], false;
      var left := len;
      if index < |buf| {
        var n := Min(left, |buf| - index);
        out := buf[index..index + n];
        index := index + n;
        if n == left { return; }
        left := left - n;
      }
      if left == 0 { return; }
      var more, end := reader.Read(left);
      out := out + more;
      index := index + |more|;
      WriteData(more);
      if end {
        totalSize := bytesRead;
        sizeKnown := true;
      }
      eof := end;
    }

    // io.CopyN from this reader: n bytes, or those up to the end.
    method CopyFromSelf(n: nat) returns (copied: nat)
      requires Valid()
      modifies this, reader
      ensures Valid() && bytesRead == Max(old(bytesRead), index)
      ensures index == old(index) + copied && copied == Min(n, |reader.data| - old(index))
      ensures copied < n ==> sizeKnown
      ensures old(sizeKnown) ==> sizeKnown
    {
      copied := 0;
      while copied < n
        invariant Valid() && bytesRead == Max(old(bytesRead), index) && (old(sizeKnown) ==> sizeKnown)
        invariant copied <= n && index == old(index) + copied
        decreases n - copied
      {
        var out, eof := Read(n - copied);
        copied := copied + |out|;
        if eof { return; }
      }
    }

    // Reads on, from the position, until `target` bytes have been read or the stream ends.
    method ReadUntil(target: nat)
      requires Valid()
      modifies this, reader
      ensures Valid() && bytesRead == Max(old(bytesRead), Min(target, |reader.data|))
      ensures bytesRead >= target || sizeKnown
      ensures old(sizeKnown) ==> sizeKnown
    {
      while bytesRead < target
        invariant Valid() && old(bytesRead) <= bytesRead <= Max(old(bytesRead), target)
        invariant old(sizeKnown) ==> sizeKnown
        decreases |reader.data| - index
      {
        var remaining := target - bytesRead;
        var copied := CopyFromSelf(Min(remaining, DEFAULT_BUFFER_SIZE));
        if copied == 0 { break; }
      }
    }

    // Reads the rest of the stream without moving the position.
    method ReadToEnd()
      requires Valid()
      modifies this, reader
      ensures Valid() && index == old(index) && sizeKnown && bytesRead == |reader.data|
    {
      var eof := false;
      while !eof
        invariant Valid() && index == old(index)
        invariant eof ==> reader.pos == |reader.data|
        decreases |reader.data| - reader.pos, !eof
      {
        var out;
        out, eof := reader.Read(DEFAULT_BUFFER_SIZE);
        WriteData(out);
      }
      totalSize := bytesRead;
      sizeKnown := true;
    }

    // The position a Seek asks for.
    ghost function Target(offset: int, whence: Whence): int
      reads this, reader
    {
      match whence case FromStart => offset case FromCurrent => index + offset case FromEnd => |reader.data| + offset
    }

    /** Moves the position. The view stays a view of the stream if and only if the position is within it:
        a seek past the end is accepted and breaks the state. */
    method Seek(offset: int, whence: Whence) returns (at: int, ok: bool)
      requires Valid()
      modifies this, reader
      ensures ok <==> old(Target(offset, whence)) >= 0
      ensures !ok ==> Valid() && index == old(index) && at == 0
      ensures ok ==> at == index == old(Target(offset, whence))
      ensures ok ==> if at <= |reader.data| then Valid() else Past()
      ensures ok && whence.FromStart? && at <= |reader.data| ==> bytesRead == Max(old(bytesRead), at)
      ensures old(sizeKnown) ==> sizeKnown
    {
      var newIndex := index;
      match whence {
        case FromStart => newIndex := offset;
        case FromCurrent => newIndex := newIndex + offset;
        case FromEnd =>
          if !sizeKnown { ReadToEnd(); }
          newIndex := totalSize + offset;
      }
      if newIndex < 0 { return 0, false; }
      if newIndex > bytesRead { ReadUntil(newIndex); }
      index := newIndex;
      if index > bytesRead { bytesRead := index; }
      return newIndex, true;
    }

    /** Reads at an offset. The position is restored unless the read reports the end, and then stays behind
        the last byte. That depends on where the read ends, on what has been read before, and for the
        last bytes of the stream on the reader: it never happens before the end, and always behind it. */
    method ReadAt(len: nat, offset: int) returns (out: Bytes, eof: bool, ok: bool)
      requires Valid() && offset <= |reader.data|
      modifies this, reader
      ensures Valid() && (ok <==> offset >= 0)
      ensures !ok ==> index == old(index) && out == [] && !eof
      ensures ok ==> offset + |out| <= |reader.data| && out == reader.data[offset..offset + |out|] && |out| <= len
      ensures ok && len > 0 && offset < |reader.data| ==> out != []
      ensures ok ==> index == if eof then |reader.data| else old(index)
      ensures eof ==> offset + |out| == |reader.data|
      ensures ok ==> (eof <==> var from := Max(old(bytesRead), offset);
        offset + len > from && reader.Ends(from, offset + len - from))
      ensures ok && offset + len < |reader.data| ==> index == old(index)
      ensures ok && offset + len <= old(bytesRead) ==> index == old(index)
      ensures ok && offset + len > |reader.data| && (offset == |reader.data| || old(bytesRead) == |reader.data|) ==>
        eof && index == |reader.data|
    {
      var currentIndex := index;
      var _, sought := Seek(offset, FromStart);
      if !sought { return [], false, false; }
      out, eof := Read(len);
      if eof { return out, true, true; }
      var _, back := Seek(currentIndex, FromStart);
      return out, eof, true;
    }

    /** The length of the stream, with the position where it was. */
    method Size() returns (size: int)
      requires Valid() || sizeKnown
      modifies this, reader
      ensures index == old(index) && (old(sizeKnown) ==> size == old(totalSize))
      ensures old(Valid()) ==> Valid() && size == |reader.data|
    {
      if sizeKnown { return totalSize; }
      var currentPos, _ := Seek(0, FromCurrent);
      var endPos, _ := Seek(0, FromEnd);
      var _, _ := Seek(currentPos, FromStart);
      totalSize := endPos;
      sizeKnown := true;
      return totalSize;
    }

    /** What a seek past the end breaks: after the next read Size answers the position, and is right if and
        only if the seek stayed within the stream. */
    method SizeAfterSeek(offset: nat, len: nat) returns (size: int)
      requires Valid() && len > 0
      modifies this, reader
      ensures size == Max(|reader.data|, offset)
      ensures size == |reader.data| <==> offset <= |reader.data|
    {
      var _, _ := Seek(offset, FromStart);
      var _, _ := Read(len);
      size := Size();
    }

    method Perform(op: Op) returns (r: Result)
      requires Valid() && WithinStream(reader.data, index, op)
      modifies this, reader
      ensures Valid() && Allowed(reader.data, old(index), op, r, index)
    {
      match op
      case Read(len) =>
        var out, eof := Read(len);
        r := Got(out, eof);
      case Seek(offset, whence) =>
        var at, ok := Seek(offset, whence);
        r := if ok then At(at) else Refused;
      case ReadAt(len, offset) =>
        var out, eof, ok := ReadAt(len, offset);
        r := if ok then Got(out, eof) else Refused;
      case Size =>
        var size := Size();
        r := SizeIs(size);
    }

    /** Any sequence of operations, up to the first seek past the end, is a run of the simple view: the
        stream's bytes and a position. */
    method PerformAll(ops: seq<Op>) returns (results: seq<Result>, ghost positions: seq<nat>)
      requires Valid()
      modifies this, reader
      ensures Valid() && |results| <= |ops| && |positions| == |results| + 1
      ensures positions[0] == old(index) && positions[|results|] == index
      ensures forall i :: 0 <= i < |results| ==> Allowed(reader.data, positions[i], ops[i], results[i], positions[i + 1])
      ensures |results| == |ops| || !WithinStream(reader.data, index, ops[|results|])
    {
      results, positions := [], [index];
      var i := 0;
      while i < |ops|
        invariant Valid() && 0 <= i <= |ops| && |results| == i && |positions| == i + 1
        invariant positions[0] == old(index) && positions[i] == index
        invariant forall j :: 0 <= j < i ==> Allowed(reader.data, positions[j], ops[j], results[j], positions[j + 1])
      {
        if !WithinStream(reader.data, index, ops[i]) { return; }
        var r := Perform(ops[i]);
        results, positions := results + [r], positions + [index];
        i := i + 1;
      }
    }
  }

  /** The same call, on the same stream with nothing read: a reader that reports the end with the last bytes
      leaves the position moved, and one that reports it after them does not. */
  method LastByteReadAt(early: bool) returns (index: int)
    ensures index == if early then 1 else 0
  {
    var reader := new Stream([7], (at, len) => len, early);
    var seeker := new Seeker(reader, 2);
    var _, _, _ := seeker.ReadAt(1, 0);
    index := seeker.index;
  }

  // ---------------------------------------------------------------- the simple view

  datatype Op = Read(len: nat) | Seek(offset: int, whence: Whence) | ReadAt(len: nat, offset: int) | Size

  datatype Result = Got(out: Bytes, eof: bool) | At(position: int) | SizeIs(size: int) | Refused

  function Destination(data: Bytes, pos: int, offset: int, whence: Whence): int {
    match whence case FromStart => offset case FromCurrent => pos + offset case FromEnd => |data| + offset
  }

  predicate WithinStream(data: Bytes, pos: int, op: Op) {
    match op
    case Seek(offset, whence) => Destination(data, pos, offset, whence) <= |data|
    case ReadAt(_, offset) => offset <= |data|
    case _ => true
  }

  // A read of up to len bytes at a position.
  predicate ReadsAt(data: Bytes, at: int, len: nat, out: Bytes, eof: bool) {
    && 0 <= at && at + |out| <= |data| && out == data[at..at + |out|] && |out| <= len
    && (len > 0 && at < |data| ==> out != [])
    && (eof ==> at + |out| == |data|) && (len > 0 && at == |data| ==> eof)
  }

  // What the simple view answers at a position, and the position after.
  predicate Allowed(data: Bytes, pos: int, op: Op, r: Result, pos': int) {
    match op
    case Read(len) => r.Got? && ReadsAt(data, pos, len, r.out, r.eof) && pos' == pos + |r.out|
    case Seek(offset, whence) =>
      var to := Destination(data, pos, offset, whence);
      if to < 0 then r.Refused? && pos' == pos else r == At(to) && pos' == to
    case ReadAt(len, offset) =>
      if offset < 0 then r.Refused? && pos' == pos
      else r.Got? && ReadsAt(data, offset, len, r.out, r.eof) && pos' == if r.eof then offset + |r.out| else pos
    case Size => r == SizeIs(|data|) && pos' == pos
  }
}
