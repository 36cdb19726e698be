/**
 FromReader as a loop over a byte stream that updates the parser's variables, and the lines of a
 stream.
 */
module GitReader {
  import opened Options
  import opened GitParse

  // ---------------------------------------------------------------- lines

  // The length of the stream's first line, newline included: ReadBytes('\n').
  function FirstLine(s: string): (n: nat)
    ensures s != "" ==> 0 < n <= |s|
  {
    if s == "" then 0 else if s[0] == '\n' then 1 else 1 + FirstLine(s[1..])
  }

  function SplitLines(s: string): seq<string>
    decreases |s|
  {
    if s == "" then [] else [s[..FirstLine(s)]] + SplitLines(s[FirstLine(s)..])
  }

  function Joined(lines: seq<string>): string {
    if lines == [] then "" else lines[0] + Joined(lines[1..])
  }

  lemma {:induction false} FirstLineEnds(s: string)
    requires s != ""
    ensures forall i :: 0 <= i < FirstLine(s) - 1 ==> s[i] != '\n'
    ensures s[FirstLine(s) - 1] == '\n' || FirstLine(s) == |s|
  {
    if s[0] != '\n' && |s| > 1 {
      FirstLineEnds(s[1..]);
      forall i | 0 <= i < FirstLine(s) - 1 ensures s[i] != '\n' {
        if i > 0 { assert s[i] == s[1..][i - 1]; }
      }
    }
  }

  /** The lines make up the stream; each but the last ends with its only newline. */
  lemma {:induction false} LinesOfStream(s: string)
    ensures Joined(SplitLines(s)) == s && AreLines(SplitLines(s)) && "" !in SplitLines(s)
    decreases |s|
  {
    if s != "" {
      var n := FirstLine(s);
      FirstLineEnds(s);
      LinesOfStream(s[n..]);
      assert s == s[..n] + s[n..];
      var lines := SplitLines(s);
      assert lines[1..] == SplitLines(s[n..]);
      forall k | 0 <= k < |lines| - 1 ensures Ended(lines[k]) {
        if k == 0 {
          assert n < |s|;
        } else {
          assert lines[k] == SplitLines(s[n..])[k - 1];
        }
      }
    }
  }

  // ---------------------------------------------------------------- the loop

  class Parser {
    const cfg: Config
    var latestState: Phase
    var commits: seq<Commit>
    var currentDiff: Diff
    var diffs: seq<Diff>      // sent on diffChan
    var stop: Stop

    constructor (cfg: Config)
      ensures View() == Start() && this.cfg == cfg
    {
      this.cfg := cfg;
      latestState, commits, currentDiff, diffs, stop := Initial, [], NewDiff(0), [], Going;
    }

    ghost function View(): State
      reads this
    {
      State(latestState, commits, currentDiff, diffs, stop)
    }

    // Sends currentDiff if it holds anything.
    method Send(mark: bool)
      modifies this
      ensures mark ==> View() == SendAndMark(old(View()))
      ensures !mark ==> View() == old(View()).(out := old(diffs) + if Nonempty(old(currentDiff)) then [old(currentDiff)] else [])
    {
      if currentDiff.content != "" || currentDiff.binary {
        diffs := diffs + [currentDiff];
        if mark {
          if commits == [] {
            stop := Crashed;
          } else {
            var last := |commits| - 1;
            commits := commits[last := commits[last].(hasDiffs := true)];
          }
        }
      }
    }

    method OnCommitLine(line: string)
      requires stop.Going?
      modifies this
      ensures View() == OnCommit(old(View()), line)
    {
      Send(true);
      if stop.Crashed? { return; }
      if commits != [] && !commits[|commits| - 1].hasDiffs {
        diffs := diffs + [Bare(|commits|)];
      }
      var hash := if |line| >= 47 then line[7..47] else "";
      commits := commits + [Commit(hash, "", "", "", "", false)];
      currentDiff := NewDiff(|commits|);
      latestState := CommitLine;
    }

    method OnDiffLine()
      requires stop.Going?
      modifies this
      ensures View() == OnDiff(old(View()))
    {
      Send(true);
      if stop.Crashed? { return; }
      if commits == [] { commits := [Commit("", "", "", "", "", false)]; }
      currentDiff := NewDiff(|commits|);
      latestState := DiffLine;
    }

    method OnHunkLine(line: string)
      modifies this
      ensures View() == OnHunkHeader(old(View()), line)
    {
      Send(false);
      currentDiff := NewDiff(|commits|).(path := currentDiff.path, lineStart := HeaderStart(line));
      latestState := HunkLineNumberLine;
    }

    // The lines that describe the current commit.
    method OnHeadLine(kind: Kind, line: string)
      requires kind.KAuthor? || kind.KCommitter? || kind.KMessage? || kind.KNotesStart? || kind.KNotes?
      requires kind.KAuthor? || kind.KCommitter? ==> |line| > 8
      requires kind.KMessage? || kind.KNotes? ==> |line| > 4
      modifies this
      ensures View() == Describe(old(View()), kind, line)
    {
      if commits == [] { stop := Crashed; return; }
      var last := |commits| - 1;
      var c := commits[last];
      match kind {
        case KAuthor => c := c.(author := TrimSpace(line[8..])); latestState := AuthorLine;
        case KCommitter => c := c.(committer := TrimSpace(line[8..])); latestState := CommitterLine;
        case KMessage => c := c.(message := c.message + line[4..]); latestState := MessageLine;
        case KNotesStart => c := c.(message := c.message + "\n" + line); latestState := NotesStartLine;
        case KNotes => c := c.(message := c.message + line[4..]); latestState := NotesLine;
      }
      commits := commits[last := c];
    }

    // These three answer whether the loop continues past the size check.
    method OnDateLine(line: string) returns (skip: bool)
      modifies this
      ensures View() == OnAuthorDate(cfg, old(View()), line)
      ensures stop == old(stop) ==> (skip <==> latestState.ParseFailure?)
    {
      latestState, skip := AuthorDateLine, false;
      if |line| < 12 { stop := Crashed; return; }
      var date := TrimSpace(line[12..]);
      if commits == [] { stop := Crashed; return; }
      if !cfg.dateParses(date) {
        latestState := ParseFailure;
        return true;
      }
      var last := |commits| - 1;
      commits := commits[last := commits[last].(date := date)];
    }

    method OnBinaryLine(line: string) returns (skip: bool)
      modifies this
      ensures View() == OnBinary(cfg, old(View()), line)
      ensures stop == old(stop) ==> (skip <==> latestState.ParseFailure?)
    {
      latestState, skip := BinaryFileLine, false;
      match PathFromBinaryLine(cfg, line) {
        case PathPanics => stop := Crashed;
        case BadPath => latestState, skip := ParseFailure, true;
        case PathIs(path) =>
          if path != "" { currentDiff := currentDiff.(path := path, binary := true); }
      }
    }

    method OnToFileLine(line: string) returns (skip: bool)
      modifies this
      ensures View() == OnToFile(cfg, old(View()), line)
      ensures stop == old(stop) ==> (skip <==> latestState.ParseFailure?)
    {
      latestState, skip := ToFileLine, false;
      match PathFromToFileLine(cfg, line) {
        case PathPanics => stop := Crashed;
        case BadPath => latestState, skip := ParseFailure, true;
        case PathIs(path) => currentDiff := currentDiff.(path := path);
      }
    }
  
    // The switch. Answers whether the loop continues past the size check.
    method HandleLine(line: string) returns (skip: bool)
      requires stop.Going?
      modifies this
      ensures View() == Handle(cfg, old(View()), line)
      ensures stop.Going? ==> (skip <==> SkipsCheck(old(View()), Classify(cfg.staged, old(latestState), line), View()))
    {
      skip := false;
      var kind := Classify(cfg.staged, latestState, line);
      KindLengths(cfg.staged, latestState, line);
      hide Classify, Describe, OnCommit, OnDiff, OnHunkHeader, OnAuthorDate, OnBinary, OnToFile;
      match kind {
        case KCommit => OnCommitLine(line);
        case KMerge => latestState := MergeLine;
        case KAuthorDate => skip := OnDateLine(line);
        case KCommitterDate => latestState := CommitterDateLine;
        case KMessageStart => latestState := MessageStartLine;
        case KMessageEnd => latestState := MessageEndLine;
        case KNotesEnd => latestState := NotesEndLine;
        case KDiff => OnDiffLine();
        case KMode => latestState := ModeLine;
        case KIndex => latestState := IndexLine;
        case KBinary => skip := OnBinaryLine(line);
        case KFromFile => latestState := FromFileLine;
        case KToFile => skip := OnToFileLine(line);
        case KHunkHeader => OnHunkLine(line);
        case KContext =>
          currentDiff := currentDiff.(content := currentDiff.content + "\n");
          latestState := HunkContentLine;
        case KPlus =>
          currentDiff := currentDiff.(content := currentDiff.content + line[1..]);
          latestState := HunkContentLine;
        case KUnwritten => latestState := HunkContentLine;
        case KSeparator =>
        case KInvalid =>
          skip := latestState.ParseFailure?;
          latestState := ParseFailure;
        case _ => OnHeadLine(kind, line);
      }
    }

    // cleanupParse.
    method CleanUp()
      requires !stop.Crashed?
      modifies this
      ensures View() == Cleanup(old(View()))
    {
      if currentDiff.content != "" || currentDiff.binary {
        diffs := diffs + [currentDiff.(owner := |commits|)];
        if commits != [] {
          var last := |commits| - 1;
          commits := commits[last := commits[last].(hasDiffs := true)];
        }
      }
      if commits == [] { return; }
      var current := commits[|commits| - 1];
      if !current.hasDiffs && current.hash != "" {
        diffs := diffs + [Bare(|commits|)];
      }
    }

    // One turn of the loop.
    method OneLine(line: string)
      requires stop.Going?
      modifies this
      ensures View() == Step(cfg, old(View()), line)
    {
      var skip := HandleLine(line);
      hide Handle, SkipsCheck, Classify;
      if stop.Going? && !skip && |currentDiff.content| > cfg.maxDiffSize {
        stop := TooLarge;
      }
    }

    /** Reads the stream to its end, to the first panic, or to a diff larger than maxDiffSize. */
    method FromReader(stream: string)
      requires View() == Start()
      modifies this
      ensures View() == Parse(cfg, SplitLines(stream))
    {
      hide Step;
      var unread := stream;
      ghost var lines: seq<string> := [];
      ghost var all := SplitLines(stream);
      while unread != "" && stop.Going?
        invariant all == lines + SplitLines(unread)
        invariant View() == Run(cfg, Start(), lines)
        decreases |unread|
      {
        var n := FirstLine(unread);
        var line := unread[..n];
        assert SplitLines(unread) == [line] + SplitLines(unread[n..]);
        OneLine(line);
        assert (lines + [line])[..|lines|] == lines;
        lines, unread := lines + [line], unread[n..];
      }
      NothingMore(cfg, lines, SplitLines(unread));
      if !stop.Crashed? { CleanUp(); }
    }
  }

  lemma {:induction false} NothingMore(cfg: Config, lines: seq<string>, more: seq<string>)
    requires !Run(cfg, Start(), lines).stop.Going? || more == []
    ensures Run(cfg, Start(), lines + more) == Run(cfg, Start(), lines)
  {
    if more == [] {
      assert lines + more == lines;
    } else {
      var last := |more| - 1;
      NothingMore(cfg, lines, more[..last]);
      assert (lines + more)[..|lines + more| - 1] == lines + more[..last];
    }
  }
}
