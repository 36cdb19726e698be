/**
 The round trip through the byte stream: the printed log of commits whose texts hold no newline is cut
 into the lines it was printed as, so FromReader gives the commits back.
 */
module GitStream {
  import opened Options
  import opened GitParse
  import opened GitLog
  import opened GitReader

  predicate OneLine(s: string) { '\n' !in s }

  predicate AllOneLine(ts: seq<string>) { forall t :: t in ts ==> OneLine(t) }

  predicate LinePlain(l: HunkLine) { l.NoNewline? || l.Empty? || OneLine(l.text) }

  predicate HunkPlain(h: Hunk) {
    OneLine(h.before) && OneLine(h.counts) && forall l :: l in h.lines ==> LinePlain(l)
  }

  predicate NamePlain(n: Name) {
    match n case Named(path) => OneLine(path) case Quoted(text, _) => OneLine(text) case Absent => true
  }

  predicate BodyPlain(body: Body) {
    match body
    case NoBody => true
    case Text(from, target, hunks) => OneLine(from) && NamePlain(target) && forall h :: h in hunks ==> HunkPlain(h)
    case Binary(from, target) => OneLine(from) && NamePlain(target)
  }

  predicate FilePlain(f: FilePatch) {
    && OneLine(f.names) && (forall h :: h in f.headers ==> OneLine(h.text))
    && (f.index.Some? ==> OneLine(f.index.value)) && BodyPlain(f.body)
  }

  predicate NotesPlain(notes: Option<Notes>) {
    notes.Some? ==> OneLine(notes.value.head) && AllOneLine(notes.value.lines)
  }

  // No text of the commit holds a newline.
  predicate EntryPlain(e: Entry) {
    && OneLine(e.hash) && OneLine(e.refs) && OneLine(e.author) && OneLine(e.authorDate) && OneLine(e.committer) && OneLine(e.commitDate)
    && (e.merge.Some? ==> OneLine(e.merge.value)) && AllOneLine(e.message) && NotesPlain(e.notes)
    && forall f :: f in e.files ==> FilePlain(f)
  }

  ghost predicate AllEnded(lines: seq<string>) { forall l :: l in lines ==> Ended(l) }

  lemma EndedLine(s: string)
    requires OneLine(s)
    ensures Ended(s + "\n")
  {
    var line := s + "\n";
    forall i | 0 <= i < |line| - 1 ensures line[i] != '\n' { assert line[i] == s[i]; }
  }

  lemma EndedWith(p: string, t: string)
    requires OneLine(p) && OneLine(t)
    ensures Ended(p + t + "\n")
  {
    EndedLine(p + t);
  }

  lemma {:induction false} DecimalPlain(n: nat)
    ensures OneLine(Decimal(n))
  {
    if n >= 10 { DecimalPlain(n / 10); }
  }

  lemma HunkLineEnded(l: HunkLine)
    requires LinePlain(l)
    ensures Ended(HunkLineText(l))
  {
    match l
    case Context(text) => EndedWith(" ", text);
    case Added(text) => EndedWith("+", text);
    case Removed(text) => EndedWith("-", text);
    case NoNewline =>
      EndedLine("\\ No newline at end of file");
      assert "\\ No newline at end of file" + "\n" == "\\ No newline at end of file\n";
    case Empty =>
  }

  lemma {:induction false} BodyEnded(lines: seq<HunkLine>)
    requires forall l :: l in lines ==> LinePlain(l)
    ensures AllEnded(BodyText(lines))
  {
    if lines != [] {
      BodyEnded(lines[..|lines| - 1]);
      HunkLineEnded(lines[|lines| - 1]);
    }
  }

  lemma HunkEnded(h: Hunk)
    requires HunkPlain(h)
    ensures AllEnded(HunkText(h))
  {
    DecimalPlain(h.start);
    var text := "@@ -" + h.before + " +" + Decimal(h.start) + h.counts;
    EndedLine(text);
    assert HeaderText(h) == text + "\n";
    BodyEnded(h.lines);
    hide Ended, HeaderText;
  }

  lemma {:induction false} HunksEnded(hs: seq<Hunk>)
    requires forall h :: h in hs ==> HunkPlain(h)
    ensures AllEnded(HunksText(hs))
  {
    if hs != [] {
      HunksEnded(hs[..|hs| - 1]);
      HunkEnded(hs[|hs| - 1]);
      hide Ended, HunkText;
    }
  }

  lemma ModeEnded(h: Header)
    requires OneLine(h.text)
    ensures Ended(ModeText(h))
  {
    match h
    case OldMode(text) => EndedWith("old mode ", text);
    case NewMode(text) => EndedWith("new mode ", text);
    case NewFile(text) => EndedWith("new file mode ", text);
    case DeletedFile(text) => EndedWith("deleted file mode ", text);
    case Similarity(text) => EndedWith("similarity index ", text);
    case RenameFrom(text) => EndedWith("rename from ", text);
    case RenameTo(text) => EndedWith("rename to ", text);
  }

  lemma {:induction false} ModesEnded(hs: seq<Header>)
    requires forall h :: h in hs ==> OneLine(h.text)
    ensures AllEnded(ModesText(hs))
  {
    if hs != [] {
      ModesEnded(hs[..|hs| - 1]);
      ModeEnded(hs[|hs| - 1]);
      hide Ended, ModeText;
    }
  }

  lemma NameEnded(n: Name)
    requires NamePlain(n)
    ensures OneLine(NameText(n))
  {
  }

  lemma BinaryEnded(from: string, target: Name)
    requires OneLine(from) && NamePlain(target)
    ensures Ended(BinaryText(from, target))
  {
    NameEnded(target);
    hide NameText, NamePlain;
    var text := "Binary files " + from + " and " + NameText(target) + " differ";
    EndedLine(text);
    assert BinaryText(from, target) == text + "\n";
  }

  lemma BodyIsEnded(body: Body)
    requires BodyPlain(body)
    ensures AllEnded(RestText(body))
  {
    match body
    case NoBody =>
    case Text(from, target, hunks) =>
      NameEnded(target);
      EndedWith("--- ", from);
      EndedWith("+++ ", NameText(target));
      HunksEnded(hunks);
      hide Ended, HunksText, NameText;
    case Binary(from, target) =>
      BinaryEnded(from, target);
      hide Ended, BinaryText;
  }

  lemma FileEnded(f: FilePatch)
    requires FilePlain(f)
    ensures AllEnded(FileText(f))
  {
    EndedWith("diff --git ", f.names);
    ModesEnded(f.headers);
    if f.index.Some? { EndedWith("index ", f.index.value); }
    BodyIsEnded(f.body);
    hide Ended, ModesText, RestText;
  }

  lemma {:induction false} FilesEnded(fs: seq<FilePatch>)
    requires forall f :: f in fs ==> FilePlain(f)
    ensures AllEnded(FilesText(fs))
  {
    if fs != [] {
      FilesEnded(fs[..|fs| - 1]);
      FileEnded(fs[|fs| - 1]);
      hide Ended, FileText;
    }
  }

  lemma {:induction false} MessageEnded(ms: seq<string>)
    requires AllOneLine(ms)
    ensures AllEnded(MessageText(ms))
  {
    if ms != [] {
      MessageEnded(ms[..|ms| - 1]);
      EndedWith("    ", ms[|ms| - 1]);
      hide Ended;
    }
  }

  lemma NotesEnded(notes: Option<Notes>)
    requires NotesPlain(notes)
    ensures AllEnded(NotesText(notes))
  {
    if notes.Some? {
      EndedWith("Notes", notes.value.head);
      MessageEnded(notes.value.lines);
      assert Ended("\n");
      hide Ended, MessageText;
    }
  }

  lemma HeadEnded(e: Entry)
    requires EntryPlain(e)
    ensures AllEnded(HeadText(e))
  {
    EndedWith("commit " + e.hash, e.refs);
    if e.merge.Some? { EndedWith("Merge: ", e.merge.value); }
    EndedWith("Author: ", e.author);
    EndedWith("AuthorDate: ", e.authorDate);
    EndedWith("Commit: ", e.committer);
    EndedWith("CommitDate: ", e.commitDate);
    assert Ended("\n");
    hide Ended;
  }

  lemma EntryEnded(e: Entry)
    requires EntryPlain(e)
    ensures AllEnded(EntryText(e))
  {
    HeadEnded(e);
    MessageEnded(e.message);
    NotesEnded(e.notes);
    FilesEnded(e.files);
    assert Ended("\n");
    hide Ended, HeadText, MessageText, NotesText, FilesText;
  }

  lemma {:induction false} LogEnded(es: seq<Entry>)
    requires forall e :: e in es ==> EntryPlain(e)
    ensures AllEnded(LogText(es))
  {
    if es != [] {
      EntryEnded(es[|es| - 1]);
      if |es| > 1 { LogEnded(es[..|es| - 1]); }
      assert Ended("\n");
      hide Ended, EntryText;
    }
  }

  lemma {:induction false} FirstLineOf(line: string, rest: string)
    requires Ended(line)
    ensures FirstLine(line + rest) == |line|
  {
    var s := line + rest;
    if |line| > 1 {
      var tail := line[1..];
      assert line[0] != '\n' && s[1..] == tail + rest;
      forall i | 0 <= i < |tail| - 1 ensures tail[i] != '\n' { assert tail[i] == line[i + 1]; }
      FirstLineOf(tail, rest);
    }
  }

  /** Lines that each end with their only newline are what their text is cut into. */
  lemma {:induction false} SplitJoined(lines: seq<string>)
    requires AllEnded(lines)
    ensures SplitLines(Joined(lines)) == lines
  {
    if lines != [] {
      var line, rest := lines[0], Joined(lines[1..]);
      SplitJoined(lines[1..]);
      FirstLineOf(line, rest);
      assert line != "" && (line + rest)[..|line|] == line && (line + rest)[|line|..] == rest;
    }
  }

  /** FromReader on the printed text of any fitting commits sends exactly the diffs of those it sees, in order,
      and reads these commits back: all of them, if and only if none but the last ends with its notes. */
  method ReadBack(cfg: Config, es: seq<Entry>) returns (commits: seq<Commit>, diffs: seq<Diff>)
    requires LogFits(cfg, es) && forall e :: e in es ==> EntryPlain(e)
    ensures diffs == LogDiffs(Seen(es)) && SameCommits(commits, Records(Seen(es)))
    ensures diffs == LogDiffs(es) && SameCommits(commits, Records(es)) <==>
      forall i :: 0 <= i < |es| - 1 ==> !(es[i].message != [] && es[i].notes.Some? && es[i].files == [])
  {
    LogEnded(es);
    SplitJoined(LogText(es));
    LogRead(cfg, es);
    LogRoundTrip(cfg, es);
    hide LogFits, EntryPlain, LogText, SplitLines, Joined, Parse, LogDiffs, Records, SameCommits, Seen;
    var parser := new Parser(cfg);
    parser.FromReader(Joined(LogText(es)));
    return parser.commits, parser.diffs;
  }

  /** The same for staged changes: exactly the diffs of the printed files, all of a commit without a hash. */
  method ReadStaged(cfg: Config, fs: seq<FilePatch>) returns (commits: seq<Commit>, diffs: seq<Diff>)
    requires cfg.staged && cfg.maxDiffSize >= 0 && forall f :: f in fs ==> FileFits(cfg, f) && FilePlain(f)
    ensures diffs == FilesDiffs(1, fs)
    ensures if fs == [] then commits == [] else SameCommits(commits, [Commit("", "", "", "", "", false)])
  {
    FilesEnded(fs);
    SplitJoined(FilesText(fs));
    StagedRoundTrip(cfg, fs);
    hide FileFits, FilePlain, FilesText, SplitLines, Joined, Parse, FilesDiffs, SameCommits;
    var parser := new Parser(cfg);
    parser.FromReader(Joined(FilesText(fs)));
    return parser.commits, parser.diffs;
  }
}
