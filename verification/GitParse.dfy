/**
 The git log parser (FromReader, the is*Line predicates and cleanupParse).

 Text is a string whose characters stand for bytes. A commit pointer is modelled by the number of
 commits created up to it: 0 is nil, n is the n-th commit, and the latest one is currentCommit.
 Whether a date parses and what strconv.Unquote answers are parameters. A slice bound that panics
 ends the run (RecoverWithExit); a cancelled context ends the input early.
 */
module GitParse {
  import opened Options

  datatype Phase =
    | Initial | CommitLine | MergeLine | AuthorLine | AuthorDateLine | CommitterLine | CommitterDateLine
    | MessageStartLine | MessageLine | MessageEndLine | NotesStartLine | NotesLine | NotesEndLine
    | DiffLine | ModeLine | IndexLine | FromFileLine | ToFileLine | BinaryFileLine
    | HunkLineNumberLine | HunkContentLine | ParseFailure

  // Which case of the switch a line takes.
  datatype Kind =
    | KCommit | KMerge | KAuthor | KAuthorDate | KCommitter | KCommitterDate
    | KMessageStart | KMessage | KMessageEnd | KNotesStart | KNotes | KNotesEnd
    | KDiff | KMode | KIndex | KBinary | KFromFile | KToFile
    | KHunkHeader | KContext | KPlus | KUnwritten | KSeparator | KInvalid

  datatype Commit = Commit(hash: string, author: string, committer: string, date: string, message: string, hasDiffs: bool)

  // `owner` is the commit pointer.
  datatype Diff = Diff(owner: nat, path: string, lineStart: int, binary: bool, content: string)

  datatype Stop = Going | TooLarge | Crashed

  datatype State = State(phase: Phase, commits: seq<Commit>, diff: Diff, out: seq<Diff>, stop: Stop)

  datatype Config = Config(
    staged: bool, maxDiffSize: int,
    dateParses: string -> bool,
    unquote: string -> Option<string>)

  // ---------------------------------------------------------------- text

  predicate Starts(line: string, p: string) { |line| >= |p| && line[..|p|] == p }

  // Nothing but line ends: strings.TrimRight(line, "\r\n") is empty.
  predicate Blank(line: string) { forall c :: c in line ==> c == '\n' || c == '\r' }

  predicate IsSpace(c: char) { c in " \t\n\r" || c as int == 11 || c as int == 12 }

  function TrimLeft(s: string): string { if s != [] && IsSpace(s[0]) then TrimLeft(s[1..]) else s }

  function TrimRight(s: string): string {
    if s != [] && IsSpace(s[|s| - 1]) then TrimRight(s[..|s| - 1]) else s
  }

  function TrimSpace(s: string): string { TrimRight(TrimLeft(s)) }

  // What follows the first occurrence of sep: bytes.Cut.
  function CutAfter(s: string, sep: string): Option<string> {
    if Starts(s, sep) then Some(s[|sep|..])
    else if s == [] then None
    else CutAfter(s[1..], sep)
  }

  function Contains(s: string, sep: string): bool { CutAfter(s, sep).Some? }

  // s up to the first sep: the first field of bytes.Split.
  function FirstField(s: string, sep: char): string {
    if s == [] || s[0] == sep then "" else [s[0]] + FirstField(s[1..], sep)
  }

  // s after the first sep, if there is one.
  function Rest(s: string, sep: char): Option<string> {
    if s == [] then None else if s[0] == sep then Some(s[1..]) else Rest(s[1..], sep)
  }

  predicate IsDigit(c: char) { '0' <= c <= '9' }

  predicate AllDigits(s: string) { forall i :: 0 <= i < |s| ==> IsDigit(s[i]) }

  function DigitsValue(s: string): nat
    requires AllDigits(s)
  {
    if s == [] then 0 else 10 * DigitsValue(s[..|s| - 1]) + (s[|s| - 1] as int - '0' as int)
  }

  const MAX_INT: int := 0x7fff_ffff_ffff_ffff

  // strconv.Atoi.
  function Atoi(s: string): Option<int> {
    var digits := if s != [] && (s[0] == '+' || s[0] == '-') then s[1..] else s;
    if digits == [] || !AllDigits(digits) then None
    else
      var n: int := if s[0] == '-' then -(DigitsValue(digits) as int) else DigitsValue(digits);
      if -MAX_INT - 1 <= n <= MAX_INT then Some(n) else None
  }

  // The start of the post-image range in a hunk header: the third word up to its comma.
  function HeaderStart(line: string): int {
    match Rest(line, ' ')
    case None => 0
    case Some(two) =>
      match Rest(two, ' ')
      case None => 0
      case Some(three) =>
        match Atoi(FirstField(FirstField(three, ' '), ','))
        case None => 0
        case Some(n) => n
  }

  // ---------------------------------------------------------------- the line predicates

  predicate IsCommitLine(staged: bool, at: Phase, line: string) {
    && !staged
    && (at.Initial? || at.MessageStartLine? || at.MessageEndLine? || at.ModeLine? || at.IndexLine? ||
        at.BinaryFileLine? || at.ToFileLine? || at.HunkContentLine? || at.ParseFailure?)
    && |line| > 7 && Starts(line, "commit ")
  }

  predicate IsMergeLine(staged: bool, at: Phase, line: string) {
    !staged && at.CommitLine? && |line| > 6 && Starts(line, "Merge:")
  }

  predicate IsAuthorLine(staged: bool, at: Phase, line: string) {
    !staged && (at.CommitLine? || at.MergeLine?) && |line| > 8 && Starts(line, "Author:")
  }

  predicate IsAuthorDateLine(staged: bool, at: Phase, line: string) {
    !staged && at.AuthorLine? && Starts(line, "AuthorDate:")
  }

  predicate IsCommitterLine(staged: bool, at: Phase, line: string) {
    !staged && at.AuthorDateLine? && |line| > 8 && Starts(line, "Commit:")
  }

  predicate IsCommitterDateLine(staged: bool, at: Phase, line: string) {
    !staged && at.CommitterLine? && Starts(line, "CommitDate:")
  }

  predicate IsMessageStartLine(staged: bool, at: Phase, line: string) {
    !staged && at.CommitterDateLine? && Blank(line)
  }

  predicate IsMessageLine(staged: bool, at: Phase, line: string) {
    !staged && (at.MessageStartLine? || at.MessageLine?) && |line| > 4 && Starts(line, "    ")
  }

  predicate IsMessageEndLine(staged: bool, at: Phase, line: string) {
    !staged && at.MessageLine? && Blank(line)
  }

  predicate IsNotesStartLine(staged: bool, at: Phase, line: string) {
    !staged && at.MessageEndLine? && |line| > 5 && Starts(line, "Notes")
  }

  predicate IsNotesLine(staged: bool, at: Phase, line: string) {
    !staged && (at.NotesStartLine? || at.NotesLine?) && |line| > 4 && Starts(line, "    ")
  }

  predicate IsNotesEndLine(staged: bool, at: Phase, line: string) {
    !staged && at.NotesLine? && Blank(line)
  }

  predicate IsDiffLine(staged: bool, at: Phase, line: string) {
    && (at.MessageStartLine? || at.MessageEndLine? || at.NotesEndLine? || at.BinaryFileLine? || at.ModeLine? ||
        at.IndexLine? || at.HunkContentLine? || at.ParseFailure? || (staged && at.Initial?))
    && |line| > 11 && Starts(line, "diff --git ")
  }

  predicate IsModeLine(at: Phase, line: string) {
    && (at.DiffLine? || at.ModeLine?)
    && ((|line| > 17 && Starts(line, "deleted file mode")) || (|line| > 16 && Starts(line, "similarity index")) ||
        (|line| > 13 && Starts(line, "new file mode")) || (|line| > 11 && Starts(line, "rename from")) ||
        (|line| > 9 && Starts(line, "rename to")) || (|line| > 8 && Starts(line, "old mode")) ||
        (|line| > 8 && Starts(line, "new mode")))
  }

  predicate IsIndexLine(at: Phase, line: string) {
    (at.DiffLine? || at.ModeLine?) && |line| > 6 && Starts(line, "index ")
  }

  predicate IsBinaryLine(at: Phase, line: string) { at.IndexLine? && |line| > 7 && Starts(line, "Binary") }

  predicate IsFromFileLine(at: Phase, line: string) {
    (at.IndexLine? || at.ModeLine?) && |line| >= 6 && Starts(line, "--- ")
  }

  predicate IsToFileLine(at: Phase, line: string) { at.FromFileLine? && |line| >= 6 && Starts(line, "+++ ") }

  predicate IsHunkLineNumberLine(at: Phase, line: string) {
    (at.ToFileLine? || at.HunkContentLine?) && |line| >= 8 && Starts(line, "@@")
  }

  predicate InHunk(at: Phase) { at.HunkLineNumberLine? || at.HunkContentLine? }

  predicate IsHunkContextLine(at: Phase, line: string) { InHunk(at) && Starts(line, " ") }
  predicate IsHunkPlusLine(at: Phase, line: string) { InHunk(at) && Starts(line, "+") }
  predicate IsHunkMinusLine(at: Phase, line: string) { InHunk(at) && Starts(line, "-") }
  predicate IsHunkNewlineWarningLine(at: Phase, line: string) {
    at.HunkContentLine? && Starts(line, "\\ No newline at end of file")
  }
  predicate IsHunkEmptyLine(at: Phase, line: string) { InHunk(at) && line == "\n" }

  predicate IsCommitSeparatorLine(at: Phase, line: string) {
    (at.ModeLine? || at.IndexLine? || at.BinaryFileLine? || at.ToFileLine?) && line == "\n"
  }

  // The cases in the order of the switch.
  function Classify(staged: bool, at: Phase, line: string): Kind {
    if IsCommitLine(staged, at, line) then KCommit
    else if IsMergeLine(staged, at, line) then KMerge
    else if IsAuthorLine(staged, at, line) then KAuthor
    else if IsAuthorDateLine(staged, at, line) then KAuthorDate
    else if IsCommitterLine(staged, at, line) then KCommitter
    else if IsCommitterDateLine(staged, at, line) then KCommitterDate
    else if IsMessageStartLine(staged, at, line) then KMessageStart
    else if IsMessageLine(staged, at, line) then KMessage
    else if IsMessageEndLine(staged, at, line) then KMessageEnd
    else if IsNotesStartLine(staged, at, line) then KNotesStart
    else if IsNotesLine(staged, at, line) then KNotes
    else if IsNotesEndLine(staged, at, line) then KNotesEnd
    else if IsDiffLine(staged, at, line) then KDiff
    else if IsModeLine(at, line) then KMode
    else if IsIndexLine(at, line) then KIndex
    else if IsBinaryLine(at, line) then KBinary
    else if IsFromFileLine(at, line) then KFromFile
    else if IsToFileLine(at, line) then KToFile
    else if IsHunkLineNumberLine(at, line) then KHunkHeader
    else if IsHunkContextLine(at, line) then KContext
    else if IsHunkPlusLine(at, line) then KPlus
    else if IsHunkMinusLine(at, line) || IsHunkNewlineWarningLine(at, line) || IsHunkEmptyLine(at, line) then KUnwritten
    else if IsCommitSeparatorLine(at, line) then KSeparator
    else KInvalid
  }

  // ---------------------------------------------------------------- paths

  datatype PathResult = PathIs(path: string) | BadPath | PathPanics

  function Unquoted(cfg: Config, quoted: string): PathResult {
    match cfg.unquote("\"" + quoted + "\"") case Some(p) => PathIs(p) case None => BadPath
  }

  function PathFromBinaryLine(cfg: Config, line: string): PathResult {
    if Contains(line, "and /dev/null") then PathIs("")
    else
      match CutAfter(line, " and b/")
      case Some(after) => if |after| < 8 then PathPanics else PathIs(after[..|after| - 8])
      case None =>
        match CutAfter(line, " and \"b/")
        case Some(after) => if |after| < 9 then PathPanics else Unquoted(cfg, after[..|after| - 9])
        case None => BadPath
  }

  function PathFromToFileLine(cfg: Config, line: string): PathResult {
    var trimmed := TrimSpace(line);
    if trimmed == "+++ /dev/null" then PathIs("")
    else
      match CutAfter(trimmed, "+++ b/")
      case Some(after) => PathIs(after)
      case None =>
        match CutAfter(trimmed, "+++ \"b/")
        case Some(after) => if |after| < 1 then PathPanics else Unquoted(cfg, after[..|after| - 1])
        case None => BadPath
  }

  // ---------------------------------------------------------------- one line

  function NewDiff(owner: nat): Diff { Diff(owner, "", 0, false, "") }

  predicate Nonempty(d: Diff) { d.content != "" || d.binary }

  function Crash(st: State): State { st.(stop := Crashed) }

  // The diff that stands for a commit with no diffs of its own.
  function Bare(owner: nat): Diff { NewDiff(owner) }

  function Last(st: State): Commit
    requires st.commits != []
  {
    st.commits[|st.commits| - 1]
  }

  function SetLast(st: State, c: Commit): State
    requires st.commits != []
  {
    st.(commits := st.commits[|st.commits| - 1 := c])
  }

  // Send currentDiff if it holds anything, and note it on the commit.
  function SendAndMark(st: State): State {
    if !Nonempty(st.diff) then st
    else if st.commits == [] then Crash(st.(out := st.out + [st.diff]))
    else SetLast(st, Last(st).(hasDiffs := true)).(out := st.out + [st.diff])
  }

  function SendBare(st: State): State {
    if st.commits != [] && !Last(st).hasDiffs then st.(out := st.out + [Bare(|st.commits|)]) else st
  }

  function OnCommit(st: State, line: string): State {
    var sent := SendAndMark(st);
    if sent.stop.Crashed? then sent
    else
      var s := SendBare(sent);
      s.(phase := CommitLine,
         commits := s.commits + [Commit(if |line| >= 47 then line[7..47] else "", "", "", "", "", false)],
         diff := NewDiff(|s.commits| + 1))
  }

  function OnDiff(st: State): State {
    var sent := SendAndMark(st);
    if sent.stop.Crashed? then sent
    else
      var commits := if sent.commits == [] then [Commit("", "", "", "", "", false)] else sent.commits;
      sent.(phase := DiffLine, commits := commits, diff := NewDiff(|commits|))
  }

  function OnHunkHeader(st: State, line: string): State {
    st.(phase := HunkLineNumberLine,
        out := if Nonempty(st.diff) then st.out + [st.diff] else st.out,
        diff := Diff(|st.commits|, st.diff.path, HeaderStart(line), false, ""))
  }

  function Write(st: State, text: string): State {
    st.(phase := HunkContentLine, diff := st.diff.(content := st.diff.content + text))
  }

  function Describe(st: State, kind: Kind, line: string): State
    requires kind.KAuthor? || kind.KCommitter? ==> |line| > 8
    requires kind.KMessage? || kind.KNotes? ==> |line| > 4
  {
    if st.commits == [] then Crash(st)
    else
      var c := Last(st);
      match kind
      case KAuthor => SetLast(st, c.(author := TrimSpace(line[8..]))).(phase := AuthorLine)
      case KCommitter => SetLast(st, c.(committer := TrimSpace(line[8..]))).(phase := CommitterLine)
      case KMessage => SetLast(st, c.(message := c.message + line[4..])).(phase := MessageLine)
      case KNotesStart => SetLast(st, c.(message := c.message + "\n" + line)).(phase := NotesStartLine)
      case KNotes => SetLast(st, c.(message := c.message + line[4..])).(phase := NotesLine)
      case _ => st
  }

  function OnAuthorDate(cfg: Config, st: State, line: string): State {
    if |line| < 12 then Crash(st.(phase := AuthorDateLine))
    else
      var date := TrimSpace(line[12..]);
      if st.commits == [] then Crash(st.(phase := AuthorDateLine))
      else if !cfg.dateParses(date) then st.(phase := ParseFailure)
      else SetLast(st, Last(st).(date := date)).(phase := AuthorDateLine)
  }

  function OnBinary(cfg: Config, st: State, line: string): State {
    match PathFromBinaryLine(cfg, line)
    case PathPanics => Crash(st.(phase := BinaryFileLine))
    case BadPath => st.(phase := ParseFailure)
    case PathIs(path) =>
      st.(phase := BinaryFileLine, diff := if path == "" then st.diff else st.diff.(path := path, binary := true))
  }

  function OnToFile(cfg: Config, st: State, line: string): State {
    match PathFromToFileLine(cfg, line)
    case PathPanics => Crash(st.(phase := ToFileLine))
    case BadPath => st.(phase := ParseFailure)
    case PathIs(path) => st.(phase := ToFileLine, diff := st.diff.(path := path))
  }

  function Handle(cfg: Config, st: State, line: string): State {
    var kind := Classify(cfg.staged, st.phase, line);
    match kind
    case KCommit => OnCommit(st, line)
    case KMerge => st.(phase := MergeLine)
    case KAuthorDate => OnAuthorDate(cfg, st, line)
    case KCommitterDate => st.(phase := CommitterDateLine)
    case KMessageStart => st.(phase := MessageStartLine)
    case KMessageEnd => st.(phase := MessageEndLine)
    case KNotesEnd => st.(phase := NotesEndLine)
    case KDiff => OnDiff(st)
    case KMode => st.(phase := ModeLine)
    case KIndex => st.(phase := IndexLine)
    case KBinary => OnBinary(cfg, st, line)
    case KFromFile => st.(phase := FromFileLine)
    case KToFile => OnToFile(cfg, st, line)
    case KHunkHeader => OnHunkHeader(st, line)
    case KContext => Write(st, "\n")
    case KPlus => Write(st, line[1..])
    case KUnwritten => st.(phase := HunkContentLine)
    case KSeparator => st
    case KInvalid => st.(phase := ParseFailure)
    case _ => Describe(st, kind, line)
  }

  // The lines whose case ends in `continue`, past the size check.
  predicate SkipsCheck(st: State, kind: Kind, after: State) {
    after.phase.ParseFailure? &&
    (kind.KAuthorDate? || kind.KBinary? || kind.KToFile? || (kind.KInvalid? && st.phase.ParseFailure?))
  }

  // One turn of the loop; nothing happens once it has ended.
  function Step(cfg: Config, st: State, line: string): State {
    if !st.stop.Going? then st
    else
      var s := Handle(cfg, st, line);
      if s.stop.Going? && !SkipsCheck(st, Classify(cfg.staged, st.phase, line), s) && |s.diff.content| > cfg.maxDiffSize
      then s.(stop := TooLarge)
      else s
  }

  function Start(): State { State(Initial, [], NewDiff(0), [], Going) }

  // The loop over the lines, last line first.
  function Run(cfg: Config, st: State, lines: seq<string>): State {
    if lines == [] then st else Step(cfg, Run(cfg, st, lines[..|lines| - 1]), lines[|lines| - 1])
  }

  // cleanupParse.
  function Cleanup(st: State): State {
    if st.stop.Crashed? then st
    else
      var sent :=
        if !Nonempty(st.diff) then st
        else
          var s := st.(out := st.out + [st.diff.(owner := |st.commits|)]);
          if s.commits == [] then s else SetLast(s, Last(s).(hasDiffs := true));
      if sent.commits != [] && Last(sent).hash != "" then SendBare(sent) else sent
  }

  function Parse(cfg: Config, lines: seq<string>): State { Cleanup(Run(cfg, Start(), lines)) }

  // ---------------------------------------------------------------- what a run keeps

  predicate Described(at: Phase) { !at.Initial? && !at.ParseFailure? }

  ghost predicate HasDiff(out: seq<Diff>, c: nat) { exists d :: d in out && d.owner == c }

  ghost predicate Owned(out: seq<Diff>, commits: nat) { forall d :: d in out ==> 1 <= d.owner <= commits }

  ghost predicate Covered(out: seq<Diff>, commits: nat) { forall c :: 1 <= c < commits ==> HasDiff(out, c) }

  // currentCommit is nil only before the first commit or diff line; a diff that has content belongs
  // to it, everything sent belongs to a commit, and every earlier commit went out.
  ghost predicate Inv(st: State) {
    && (Described(st.phase) ==> st.commits != [])
    && (Nonempty(st.diff) ==> st.commits != [])
    && st.diff.owner == |st.commits|
    && Owned(st.out, |st.commits|)
    && Covered(st.out, |st.commits|)
    && (st.commits != [] && Last(st).hasDiffs ==> HasDiff(st.out, |st.commits|))
  }

  // The panics of a slice bound, all on malformed lines.
  predicate SlicePanics(cfg: Config, kind: Kind, line: string) {
    || (kind.KAuthorDate? && |line| < 12)
    || (kind.KBinary? && PathFromBinaryLine(cfg, line).PathPanics?)
    || (kind.KToFile? && PathFromToFileLine(cfg, line).PathPanics?)
  }

  lemma KindNeeds(staged: bool, at: Phase, line: string)
    ensures var kind := Classify(staged, at, line);
      && (!kind.KCommit? && !kind.KDiff? && !kind.KInvalid? ==> Described(at))
      && (kind.KContext? || kind.KPlus? || kind.KUnwritten? ==> InHunk(at))
  {
    hide Starts, Blank;
  }

  lemma SentOnce(out: seq<Diff>, commits: nat, d: Diff)
    requires Owned(out, commits) && Covered(out, commits) && d.owner == commits > 0
    ensures Owned(out + [d], commits) && Covered(out + [d], commits + 1)
    ensures forall c :: HasDiff(out, c) ==> HasDiff(out + [d], c)
  {
    forall c: nat | HasDiff(out, c) || c == commits ensures HasDiff(out + [d], c) {
      if HasDiff(out, c) {
        var e :| e in out && e.owner == c;
        assert e in out + [d];
      } else {
        assert d in out + [d];
      }
    }
  }

  lemma SendKeeps(st: State)
    requires Inv(st)
    ensures var s := SendAndMark(st);
      Inv(s) && s.stop == st.stop && s.phase == st.phase && |s.commits| == |st.commits|
  {
    if Nonempty(st.diff) { SentOnce(st.out, |st.commits|, st.diff); }
    hide HasDiff;
  }

  lemma BareKeeps(st: State)
    requires Inv(st) && st.commits != []
    ensures var s := SendBare(st);
      Owned(s.out, |s.commits|) && Covered(s.out, |s.commits| + 1) && s.commits == st.commits
  {
    if !Last(st).hasDiffs { SentOnce(st.out, |st.commits|, Bare(|st.commits|)); }
    hide HasDiff;
  }

  lemma CommitKeeps(st: State, line: string)
    requires Inv(st) && st.stop.Going?
    ensures Inv(OnCommit(st, line)) && OnCommit(st, line).stop.Going?
  {
    SendKeeps(st);
    var s := SendAndMark(st);
    if s.commits != [] { BareKeeps(s); }
    hide HasDiff, SendAndMark;
  }

  lemma DiffKeeps(st: State)
    requires Inv(st) && st.stop.Going?
    ensures Inv(OnDiff(st)) && OnDiff(st).stop.Going?
  {
    SendKeeps(st);
    hide HasDiff, SendAndMark;
  }

  lemma HeaderKeeps(st: State, line: string)
    requires Inv(st) && st.commits != []
    ensures Inv(OnHunkHeader(st, line))
  {
    if Nonempty(st.diff) { SentOnce(st.out, |st.commits|, st.diff); }
    hide HasDiff;
  }

  lemma KindLengths(staged: bool, at: Phase, line: string)
    ensures var kind := Classify(staged, at, line);
      && (kind.KAuthor? || kind.KCommitter? ==> |line| > 8)
      && (kind.KMessage? || kind.KNotes? ==> |line| > 4)
      && (kind.KPlus? ==> line != "")
  {
    NotInEmpty(line);
    hide Starts, Blank;
  }

  lemma NotInEmpty(line: string)
    ensures Starts(line, "+") ==> line != ""
  {
  }

  // No nil pointer is dereferenced: the parser panics on a malformed line or not at all.
  lemma HandleKeeps(cfg: Config, st: State, line: string)
    requires Inv(st) && st.stop.Going?
    ensures Inv(Handle(cfg, st, line)) || Handle(cfg, st, line).stop.Crashed?
    ensures Handle(cfg, st, line).stop.Crashed? <==> SlicePanics(cfg, Classify(cfg.staged, st.phase, line), line)
    ensures !Handle(cfg, st, line).stop.TooLarge?
  {
    var kind := Classify(cfg.staged, st.phase, line);
    KindNeeds(cfg.staged, st.phase, line);
    KindLengths(cfg.staged, st.phase, line);
    hide Classify, TrimSpace, HeaderStart, PathFromBinaryLine, PathFromToFileLine;
    match kind
    case KCommit => CommitKeeps(st, line); hide OnCommit, Inv;
    case KDiff => DiffKeeps(st); hide OnDiff, Inv;
    case KHunkHeader => HeaderKeeps(st, line); hide Inv;
    case _ => hide HasDiff, Owned, Covered;
  }

  // ---------------------------------------------------------------- whole runs

  lemma StepKeeps(cfg: Config, st: State, line: string)
    requires Inv(st) && !st.stop.Crashed?
    ensures !Step(cfg, st, line).stop.Crashed? ==> Inv(Step(cfg, st, line))
  {
    if st.stop.Going? { HandleKeeps(cfg, st, line); }
    hide Handle, SkipsCheck, HasDiff;
  }

  lemma {:induction false} RunKeeps(cfg: Config, lines: seq<string>)
    ensures !Run(cfg, Start(), lines).stop.Crashed? ==> Inv(Run(cfg, Start(), lines))
  {
    if lines != [] {
      RunKeeps(cfg, lines[..|lines| - 1]);
      if !Run(cfg, Start(), lines[..|lines| - 1]).stop.Crashed? {
        StepKeeps(cfg, Run(cfg, Start(), lines[..|lines| - 1]), lines[|lines| - 1]);
      }
      hide Step, Inv;
    }
  }

  lemma CleanupKeeps(st: State)
    requires Inv(st) && !st.stop.Crashed?
    ensures var s := Cleanup(st);
      && |s.commits| == |st.commits| && Owned(s.out, |s.commits|) && Covered(s.out, |s.commits|)
      && (s.commits != [] && Last(s).hash != "" ==> HasDiff(s.out, |s.commits|))
  {
    if Nonempty(st.diff) { SentOnce(st.out, |st.commits|, st.diff); }
    var s := if Nonempty(st.diff) then SetLast(st, Last(st).(hasDiffs := true)).(out := st.out + [st.diff]) else st;
    if s.commits != [] && !Last(s).hasDiffs { SentOnce(s.out, |s.commits|, Bare(|s.commits|)); }
    hide HasDiff;
  }

  /** Everything sent belongs to a commit that was read, and every commit goes out: with its diffs, or
      on its own. The one exception is a last commit without a hash. */
  lemma EveryCommitGoesOut(cfg: Config, lines: seq<string>)
    requires !Parse(cfg, lines).stop.Crashed?
    ensures var s := Parse(cfg, lines);
      && Owned(s.out, |s.commits|)
      && forall c :: 1 <= c <= |s.commits| && (c < |s.commits| || Last(s).hash != "") ==> HasDiff(s.out, c)
  {
    RunKeeps(cfg, lines);
    CleanupKeeps(Run(cfg, Start(), lines));
  }

  function KindAt(cfg: Config, lines: seq<string>, k: nat): Kind
    requires k < |lines|
  {
    Classify(cfg.staged, Run(cfg, Start(), lines[..k]).phase, lines[k])
  }

  // The run reads line k.
  predicate Reads(cfg: Config, lines: seq<string>, k: nat)
    requires k < |lines|
  {
    Run(cfg, Start(), lines[..k]).stop.Going?
  }

  // Line k is read and is too short for a slice taken from it.
  predicate PanicsAt(cfg: Config, lines: seq<string>, k: nat) {
    k < |lines| && Reads(cfg, lines, k) && SlicePanics(cfg, KindAt(cfg, lines, k), lines[k])
  }

  lemma PanicsEarlier(cfg: Config, lines: seq<string>, k: nat)
    requires k + 1 < |lines|
    ensures PanicsAt(cfg, lines, k) <==> PanicsAt(cfg, lines[..|lines| - 1], k)
  {
    assert lines[..|lines| - 1][..k] == lines[..k];
  }

  lemma PanicsLast(cfg: Config, st: State, line: string)
    requires Inv(st) && !st.stop.Crashed?
    ensures Step(cfg, st, line).stop.Crashed? <==> st.stop.Going? && SlicePanics(cfg, Classify(cfg.staged, st.phase, line), line)
  {
    if st.stop.Going? { HandleKeeps(cfg, st, line); }
    hide Handle, SkipsCheck, HasDiff, SlicePanics, Classify, Inv;
  }

  ghost predicate SomePanic(cfg: Config, lines: seq<string>) { exists k: nat :: PanicsAt(cfg, lines, k) }

  lemma SomePanicPush(cfg: Config, lines: seq<string>)
    requires lines != []
    ensures SomePanic(cfg, lines) <==> SomePanic(cfg, lines[..|lines| - 1]) || PanicsAt(cfg, lines, |lines| - 1)
  {
    hide PanicsAt;
    var before := lines[..|lines| - 1];
    forall k: nat | k < |before| ensures PanicsAt(cfg, lines, k) <==> PanicsAt(cfg, before, k) {
      PanicsEarlier(cfg, lines, k);
    }
    OnlyWithin(cfg, lines);
    OnlyWithin(cfg, before);
  }

  lemma OnlyWithin(cfg: Config, lines: seq<string>)
    ensures forall k: nat :: PanicsAt(cfg, lines, k) ==> k < |lines|
  {
  }

  /** The parser panics only where a line it reads is too short for a slice taken from it; no order of
      lines makes it use a nil commit. */
  lemma PanicsIffMalformed(cfg: Config, lines: seq<string>)
    ensures Parse(cfg, lines).stop.Crashed? <==> exists k: nat :: PanicsAt(cfg, lines, k)
  {
    RunPanics(cfg, lines);
    hide PanicsAt, Run;
  }

  lemma {:induction false} RunPanics(cfg: Config, lines: seq<string>)
    ensures Run(cfg, Start(), lines).stop.Crashed? <==> SomePanic(cfg, lines)
  {
    hide Step, Inv, SlicePanics, Classify;
    if lines != [] {
      var last := |lines| - 1;
      RunPanics(cfg, lines[..last]);
      RunKeeps(cfg, lines[..last]);
      var st := Run(cfg, Start(), lines[..last]);
      if st.stop.Crashed? {
        CrashedStays(cfg, st, lines[last]);
      } else {
        PanicsLast(cfg, st, lines[last]);
        assert PanicsAt(cfg, lines, last) <==> Step(cfg, st, lines[last]).stop.Crashed?;
      }
      hide PanicsAt, SomePanic;
      SomePanicPush(cfg, lines);
    }
  }

  lemma CrashedStays(cfg: Config, st: State, line: string)
    requires st.stop.Crashed?
    ensures Step(cfg, st, line).stop.Crashed?
  {
  }

  // ---------------------------------------------------------------- the size limit

  // The diff is within the limit while the run goes on, and over it once that has stopped it.
  predicate WithinLimit(cfg: Config, st: State) {
    && (st.stop.Going? ==> |st.diff.content| <= cfg.maxDiffSize)
    && (st.stop.TooLarge? ==> |st.diff.content| > cfg.maxDiffSize)
  }

  // A line whose case skips the check writes nothing.
  lemma SkipsNoContent(cfg: Config, st: State, line: string)
    requires st.stop.Going?
    ensures var s := Handle(cfg, st, line);
      !s.stop.TooLarge? && (SkipsCheck(st, Classify(cfg.staged, st.phase, line), s) ==> s.diff.content == st.diff.content)
  {
    hide Classify, PathFromBinaryLine, PathFromToFileLine, TrimSpace, HeaderStart;
  }

  lemma StepWithinLimit(cfg: Config, st: State, line: string)
    requires WithinLimit(cfg, st)
    ensures WithinLimit(cfg, Step(cfg, st, line))
  {
    if st.stop.Going? { SkipsNoContent(cfg, st, line); }
    hide Handle, Classify, SkipsCheck;
  }

  /** The reader stops with the first line that makes the current diff longer than the limit, and with no
      other: before that the diff is within it, and when it stops it is not. */
  lemma {:induction false} StopsPastLimit(cfg: Config, lines: seq<string>)
    requires cfg.maxDiffSize >= 0
    ensures var s := Run(cfg, Start(), lines);
      (s.stop.Going? ==> |s.diff.content| <= cfg.maxDiffSize) && (s.stop.TooLarge? ==> |s.diff.content| > cfg.maxDiffSize)
  {
    if lines != [] {
      StopsPastLimit(cfg, lines[..|lines| - 1]);
      StepWithinLimit(cfg, Run(cfg, Start(), lines[..|lines| - 1]), lines[|lines| - 1]);
      hide Step;
    }
  }

  // ---------------------------------------------------------------- nothing written is lost

  function Contents(out: seq<Diff>): string {
    if out == [] then "" else Contents(out[..|out| - 1]) + out[|out| - 1].content
  }

  // What a line adds to the current diff.
  function Payload(kind: Kind, line: string): string {
    match kind case KContext => "\n" case KPlus => if line == "" then "" else line[1..] case _ => ""
  }

  // All that the lines read added to some diff, in order.
  function Written(cfg: Config, lines: seq<string>): string {
    if lines == [] then ""
    else
      var last := |lines| - 1;
      Written(cfg, lines[..last]) + if Reads(cfg, lines, last) then Payload(KindAt(cfg, lines, last), lines[last]) else ""
  }

  // What has been sent and what is about to be.
  function Flow(st: State): string { Contents(st.out) + st.diff.content }

  lemma ContentsPush(out: seq<Diff>, d: Diff)
    ensures Contents(out + [d]) == Contents(out) + d.content
  {
    assert (out + [d])[..|out|] == out;
  }

  lemma SendFlow(st: State)
    ensures Contents(SendAndMark(st).out) == Flow(st)
    ensures st.commits != [] ==> Contents(SendBare(SendAndMark(st)).out) == Flow(st)
  {
    ContentsPush(st.out, st.diff);
    var s := SendAndMark(st);
    ContentsPush(s.out, Bare(|s.commits|));
  }

  lemma PlusNeedsText(staged: bool, at: Phase, line: string)
    requires Classify(staged, at, line).KPlus?
    ensures line != ""
  {
  }

  lemma ResetFlow(st: State, line: string)
    requires Inv(st) && st.stop.Going?
    ensures Flow(OnCommit(st, line)) == Flow(st) && Flow(OnDiff(st)) == Flow(st)
    ensures Flow(OnHunkHeader(st, line)) == Flow(st)
  {
    SendFlow(st);
    SendKeeps(st);
    ContentsPush(st.out, st.diff);
    assert st.commits == [] ==> SendAndMark(st) == st;
    hide Contents, Inv, SendAndMark, HeaderStart;
  }

  // Every other line leaves what was sent and extends the current diff by its payload.
  lemma HandleExtends(cfg: Config, st: State, line: string)
    requires !Handle(cfg, st, line).stop.Crashed? && st.stop.Going?
    ensures var s, kind := Handle(cfg, st, line), Classify(cfg.staged, st.phase, line);
      kind.KCommit? || kind.KDiff? || kind.KHunkHeader? ||
      (s.out == st.out && s.diff.content == st.diff.content + Payload(kind, line) && s.diff.owner == st.diff.owner &&
       |s.commits| == |st.commits| && s.diff.lineStart == st.diff.lineStart &&
       (kind.KToFile? || kind.KBinary? || (s.diff.path == st.diff.path && s.diff.binary == st.diff.binary)))
  {
    var kind := Classify(cfg.staged, st.phase, line);
    if kind.KPlus? { PlusNeedsText(cfg.staged, st.phase, line); }
    hide Classify, PathFromBinaryLine, PathFromToFileLine, OnCommit, OnDiff, OnHunkHeader, TrimSpace;
  }

  // A line that starts no commit, file or hunk.
  predicate Continues(kind: Kind) { !kind.KCommit? && !kind.KDiff? && !kind.KHunkHeader? }

  lemma HandleFlow(cfg: Config, st: State, line: string)
    requires Inv(st) && st.stop.Going? && !Handle(cfg, st, line).stop.Crashed?
    ensures Flow(Handle(cfg, st, line)) == Flow(st) + Payload(Classify(cfg.staged, st.phase, line), line)
  {
    if Continues(Classify(cfg.staged, st.phase, line)) {
      ContinuedFlow(cfg, st, line);
      hide *;
    } else {
      HandleResets(cfg, st, line);
      hide *;
      ResetFlow(st, line);
      assert Flow(st) + "" == Flow(st);
    }
  }

  lemma HandleResets(cfg: Config, st: State, line: string)
    requires !Continues(Classify(cfg.staged, st.phase, line))
    ensures var s := Handle(cfg, st, line); s == OnCommit(st, line) || s == OnDiff(st) || s == OnHunkHeader(st, line)
    ensures Payload(Classify(cfg.staged, st.phase, line), line) == ""
  {
    hide Classify, OnCommit, OnDiff, OnHunkHeader;
  }

  lemma ContinuedFlow(cfg: Config, st: State, line: string)
    requires Inv(st) && st.stop.Going? && !Handle(cfg, st, line).stop.Crashed?
    requires Continues(Classify(cfg.staged, st.phase, line))
    ensures Flow(Handle(cfg, st, line)) == Flow(st) + Payload(Classify(cfg.staged, st.phase, line), line)
  {
    HandleExtends(cfg, st, line);
    hide Classify, Contents, Handle, Payload, Inv;
  }

  lemma {:induction false} RunFlow(cfg: Config, lines: seq<string>)
    requires !Run(cfg, Start(), lines).stop.Crashed?
    ensures Flow(Run(cfg, Start(), lines)) == Written(cfg, lines)
  {
    if lines != [] {
      var last := |lines| - 1;
      RunFlow(cfg, lines[..last]);
      RunKeeps(cfg, lines[..last]);
      var st := Run(cfg, Start(), lines[..last]);
      if st.stop.Going? { HandleFlow(cfg, st, lines[last]); }
      hide Handle, SkipsCheck, Classify, Payload, Inv;
    }
  }

  lemma CleanupFlow(st: State)
    requires Inv(st)
    ensures !Cleanup(st).stop.Crashed? ==> !st.stop.Crashed? && Contents(Cleanup(st).out) == Flow(st)
  {
    ContentsPush(st.out, st.diff);
    ContentsPush(st.out + [st.diff], Bare(|st.commits|));
    ContentsPush(st.out, Bare(|st.commits|));
    hide Contents;
  }

  lemma CleanupCrash(st: State)
    ensures Cleanup(st).stop == st.stop
  {
  }

  /** Over a whole run the contents sent, in order, are all that was written: nothing is lost or
      repeated at a hunk, file or commit boundary, at the end, or where maxDiffSize ends the run. */
  lemma NothingIsLost(cfg: Config, lines: seq<string>)
    requires !Parse(cfg, lines).stop.Crashed?
    ensures Contents(Parse(cfg, lines).out) == Written(cfg, lines)
  {
    hide Run, Written, Contents, Cleanup, Inv;
    CleanupCrash(Run(cfg, Start(), lines));
    RunFlow(cfg, lines);
    RunKeeps(cfg, lines);
    CleanupFlow(Run(cfg, Start(), lines));
  }

  // ---------------------------------------------------------------- line numbers

  // ReadBytes('\n'): no line is empty, and only the last one can lack its newline.
  predicate Ended(line: string) {
    line != "" && line[|line| - 1] == '\n' && forall i :: 0 <= i < |line| - 1 ==> line[i] != '\n'
  }

  predicate AreLines(lines: seq<string>) {
    forall k :: 0 <= k < |lines| - 1 ==> Ended(lines[k])
  }

  function LineContent(line: string): string {
    if Starts(line, " ") then "\n" else if Starts(line, "+") then line[1..] else ""
  }

  function HunkContent(body: seq<string>): string {
    if body == [] then "" else HunkContent(body[..|body| - 1]) + LineContent(body[|body| - 1])
  }

  function Newlines(s: string): nat {
    if s == "" then 0 else Newlines(s[..|s| - 1]) + if s[|s| - 1] == '\n' then 1 else 0
  }

  // A line of the file as it is after the commit. A bare newline is an empty context line, which git
  // prints without its space when diff.suppressBlankEmpty is set.
  predicate InPostImage(line: string) { Starts(line, " ") || Starts(line, "+") || line == "\n" }

  function PostLines(body: seq<string>): nat {
    if body == [] then 0 else PostLines(body[..|body| - 1]) + if InPostImage(body[|body| - 1]) then 1 else 0
  }

  function BareLines(body: seq<string>): nat {
    if body == [] then 0 else BareLines(body[..|body| - 1]) + if body[|body| - 1] == "\n" then 1 else 0
  }

  lemma {:induction false} NewlinesConcat(a: string, b: string)
    ensures Newlines(a + b) == Newlines(a) + Newlines(b)
  {
    if b == "" {
      assert a + b == a;
    } else {
      assert (a + b)[..|a + b| - 1] == a + b[..|b| - 1];
      NewlinesConcat(a, b[..|b| - 1]);
    }
  }

  lemma {:induction false} NoNewlines(s: string)
    requires '\n' !in s
    ensures Newlines(s) == 0
  {
    if s != "" { NoNewlines(s[..|s| - 1]); }
  }

  lemma LineNewlines(line: string)
    requires Ended(line)
    ensures Newlines(LineContent(line)) + (if line == "\n" then 1 else 0) == if InPostImage(line) then 1 else 0
  {
    if Starts(line, "+") {
      var text := line[1..];
      NoNewlines(text[..|text| - 1]);
    } else if Starts(line, " ") {
      assert "\n"[..0] == "";
    }
  }

  // The newlines of the content count the post-image lines, but for the bare ones.
  lemma {:induction false} ContentCountsLines(body: seq<string>)
    requires forall k :: 0 <= k < |body| ==> Ended(body[k])
    ensures Newlines(HunkContent(body)) + BareLines(body) == PostLines(body)
  {
    if body != [] {
      var last := |body| - 1;
      ContentCountsLines(body[..last]);
      LineNewlines(body[last]);
      NewlinesConcat(HunkContent(body[..last]), LineContent(body[last]));
    }
  }

  predicate InBody(kind: Kind) { kind.KContext? || kind.KPlus? || kind.KUnwritten? }

  // Line h is a hunk header and the lines after it up to k are its body.
  ghost predicate HunkAt(cfg: Config, lines: seq<string>, h: nat, k: nat) {
    && h < k <= |lines|
    && KindAt(cfg, lines, h).KHunkHeader?
    && forall j: nat :: h < j < k ==> InBody(KindAt(cfg, lines, j))
  }

  // d is the diff of the hunk at h with the body lines before k.
  predicate DiffOf(d: Diff, lines: seq<string>, h: nat, k: nat) {
    h < k <= |lines| && d.lineStart == HeaderStart(lines[h]) && d.content == HunkContent(lines[h + 1..k])
  }

  lemma BodyLine(staged: bool, at: Phase, line: string)
    requires InBody(Classify(staged, at, line))
    ensures InHunk(at) && Payload(Classify(staged, at, line), line) == LineContent(line)
  {
  }

  lemma HunkPhase(cfg: Config, st: State, line: string)
    requires st.stop.Going? && InHunk(Handle(cfg, st, line).phase) && Handle(cfg, st, line).stop.Going?
    ensures var kind := Classify(cfg.staged, st.phase, line); kind.KHunkHeader? || InBody(kind)
  {
    KindNeeds(cfg.staged, st.phase, line);
    SeparatorPhase(cfg.staged, st.phase, line);
    hide Classify, PathFromBinaryLine, PathFromToFileLine, SendBare, SendAndMark, TrimSpace;
  }

  lemma SeparatorPhase(staged: bool, at: Phase, line: string)
    ensures Classify(staged, at, line).KSeparator? ==> !InHunk(at)
    ensures Classify(staged, at, line).KToFile? || Classify(staged, at, line).KBinary? ==> !InHunk(at) && !at.ParseFailure?
  {
    hide Starts, Blank;
  }

  lemma StepGoing(cfg: Config, st: State, line: string)
    ensures Step(cfg, st, line).stop.Going? ==> st.stop.Going? && Handle(cfg, st, line).stop.Going?
    ensures Step(cfg, st, line).stop.Going? ==> Step(cfg, st, line) == Handle(cfg, st, line)
    ensures st.stop.Going? && !Step(cfg, st, line).stop.Crashed? ==>
      Handle(cfg, st, line).stop != Crashed && Step(cfg, st, line).(stop := Going) == Handle(cfg, st, line).(stop := Going)
    ensures !st.stop.Going? ==> Step(cfg, st, line) == st
  {
    hide Handle, SkipsCheck, Classify;
  }

  lemma HunkLonger(cfg: Config, lines: seq<string>, h: nat)
    requires lines != [] && HunkAt(cfg, lines[..|lines| - 1], h, |lines| - 1) && InBody(KindAt(cfg, lines, |lines| - 1))
    ensures HunkAt(cfg, lines, h, |lines|)
  {
    var before := lines[..|lines| - 1];
    forall j: nat | j < |before| ensures KindAt(cfg, lines, j) == KindAt(cfg, before, j) {
      assert before[..j] == lines[..j];
    }
  }

  // One line further in a hunk phase: a header starts the diff afresh, a body line extends it.
  lemma HunkStep(cfg: Config, st: State, line: string)
    requires Step(cfg, st, line).stop.Going? && InHunk(Step(cfg, st, line).phase)
    ensures st.stop.Going?
    ensures var d, kind := Step(cfg, st, line).diff, Classify(cfg.staged, st.phase, line);
      || (kind.KHunkHeader? && d.lineStart == HeaderStart(line) && d.content == "")
      || (InBody(kind) && InHunk(st.phase) && d.lineStart == st.diff.lineStart && d.content == st.diff.content + LineContent(line))
  {
    StepGoing(cfg, st, line);
    HunkPhase(cfg, st, line);
    HandleExtends(cfg, st, line);
    if InBody(Classify(cfg.staged, st.phase, line)) { BodyLine(cfg.staged, st.phase, line); }
    hide Classify, HeaderStart, Step, LineContent, Payload, InHunk;
  }

  lemma DiffOfLonger(d: Diff, d': Diff, lines: seq<string>, h: nat)
    requires lines != [] && DiffOf(d, lines[..|lines| - 1], h, |lines| - 1)
    requires d'.lineStart == d.lineStart && d'.content == d.content + LineContent(lines[|lines| - 1])
    ensures DiffOf(d', lines, h, |lines|)
  {
    hide LineContent, HeaderStart;
    var last := |lines| - 1;
    var body := lines[h + 1..|lines|];
    assert body[..|body| - 1] == lines[..last][h + 1..last];
    assert body[|body| - 1] == lines[last] && lines[..last][h] == lines[h];
  }

  // In the hunk phases the current diff is that of the hunk being read.
  lemma {:induction false} OpenHunk(cfg: Config, lines: seq<string>) returns (h: nat)
    requires Run(cfg, Start(), lines).stop.Going? && InHunk(Run(cfg, Start(), lines).phase)
    ensures HunkAt(cfg, lines, h, |lines|) && DiffOf(Run(cfg, Start(), lines).diff, lines, h, |lines|)
  {
    var last := |lines| - 1;
    var st := Run(cfg, Start(), lines[..last]);
    HunkStep(cfg, st, lines[last]);
    hide Classify, HeaderStart, Step, LineContent;
    if KindAt(cfg, lines, last).KHunkHeader? {
      h := last;
      assert lines[h + 1..|lines|] == [];
    } else {
      h := OpenHunk(cfg, lines[..last]);
      HunkLonger(cfg, lines, h);
      DiffOfLonger(st.diff, Run(cfg, Start(), lines).diff, lines, h);
      hide HunkAt, DiffOf;
    }
  }

  // d, or what d has grown into, has been sent or is the current diff.
  ghost predicate Alive(st: State, d: Diff) {
    Extends(st.diff, d) || exists e :: e in st.out && Extends(e, d)
  }

  predicate Extends(e: Diff, d: Diff) {
    e.owner == d.owner && e.path == d.path && e.lineStart == d.lineStart && d.content <= e.content
  }

  // Content is only ever held in a hunk, or after a line that made no sense.
  predicate HoldsInHunk(st: State) {
    st.stop.Going? && st.diff.content != "" ==> InHunk(st.phase) || st.phase.ParseFailure?
  }

  lemma StaysInHunk(cfg: Config, st: State, line: string)
    requires HoldsInHunk(st) && Inv(st) && !st.stop.Crashed?
    ensures HoldsInHunk(Step(cfg, st, line))
  {
    StepGoing(cfg, st, line);
    if st.stop.Going? && Handle(cfg, st, line).stop.Going? {
      HandleExtends(cfg, st, line);
      if InHunk(st.phase) || st.phase.ParseFailure? { HunkKinds(cfg.staged, st.phase, line); }
      KindNeeds(cfg.staged, st.phase, line);
      hide Classify, PathFromBinaryLine, PathFromToFileLine, SendBare, SendAndMark, TrimSpace, HeaderStart, Step, Inv;
    }
  }

  lemma HunkKinds(staged: bool, at: Phase, line: string)
    requires InHunk(at) || at.ParseFailure?
    ensures var kind := Classify(staged, at, line);
      kind.KCommit? || kind.KDiff? || kind.KHunkHeader? || InBody(kind) || kind.KInvalid?
  {
    hide Starts, Blank;
  }

  lemma AliveHandle(cfg: Config, st: State, line: string, d: Diff)
    requires Inv(st) && HoldsInHunk(st) && st.stop.Going? && !Handle(cfg, st, line).stop.Crashed?
    requires Alive(st, d) && d.content != ""
    ensures Alive(Handle(cfg, st, line), d)
  {
    hide Classify, Inv, Alive;
    var kind := Classify(cfg.staged, st.phase, line);
    if kind.KCommit? || kind.KDiff? || kind.KHunkHeader? {
      SendsNonempty(st, line);
      hide OnCommit, OnDiff, OnHunkHeader;
      AliveSent(st, Handle(cfg, st, line), d);
    } else {
      HandleExtends(cfg, st, line);
      SeparatorPhase(cfg.staged, st.phase, line);
      hide Handle;
      AliveExtended(st, Handle(cfg, st, line), d);
    }
  }

  lemma AliveSent(st: State, s: State, d: Diff)
    requires Alive(st, d) && d.content != ""
    requires forall e :: e in st.out || (e == st.diff && Nonempty(e)) ==> e in s.out
    ensures Alive(s, d)
  {
  }

  // A diff with content is left as it is, or longer.
  lemma AliveExtended(st: State, s: State, d: Diff)
    requires Alive(st, d) && d.content != "" && s.out == st.out && st.diff.content <= s.diff.content
    requires st.diff.content != "" ==> s.diff.owner == st.diff.owner && s.diff.path == st.diff.path
    requires st.diff.content != "" ==> s.diff.lineStart == st.diff.lineStart
    ensures Alive(s, d)
  {
    if Extends(st.diff, d) { assert Extends(s.diff, d); }
  }

  lemma SendsNonempty(st: State, line: string)
    requires Inv(st) && st.stop.Going?
    ensures forall e :: e in st.out || (e == st.diff && Nonempty(e)) ==>
      e in OnCommit(st, line).out && e in OnDiff(st).out && e in OnHunkHeader(st, line).out
  {
    hide HeaderStart;
  }

  lemma AliveCleanup(st: State, d: Diff)
    requires Inv(st) && !st.stop.Crashed? && Alive(st, d) && d.content != ""
    ensures exists e :: e in Cleanup(st).out && Extends(e, d)
  {
    assert forall e :: e in st.out || (e == st.diff && Nonempty(e)) ==> e in Cleanup(st).out;
  }

  lemma AliveStep(cfg: Config, st: State, line: string, d: Diff)
    requires Inv(st) && HoldsInHunk(st) && !st.stop.Crashed? && !Step(cfg, st, line).stop.Crashed?
    requires Alive(st, d) && d.content != ""
    ensures Alive(Step(cfg, st, line), d)
  {
    StepGoing(cfg, st, line);
    if st.stop.Going? { AliveHandle(cfg, st, line, d); }
    hide Step, Handle, Inv, HoldsInHunk;
  }

  lemma {:induction false} StaysAlive(cfg: Config, lines: seq<string>, k: nat, d: Diff)
    requires k <= |lines| && !Run(cfg, Start(), lines).stop.Crashed?
    requires Alive(Run(cfg, Start(), lines[..k]), d) && d.content != ""
    ensures Alive(Run(cfg, Start(), lines), d)
  {
    hide Step, Inv, Alive, HoldsInHunk;
    if k < |lines| {
      var last := |lines| - 1;
      assert lines[..last][..k] == lines[..k];
      CrashStays(cfg, lines, last);
      StaysAlive(cfg, lines[..last], k, d);
      var st := Run(cfg, Start(), lines[..last]);
      RunKeeps(cfg, lines[..last]);
      RunHoldsInHunk(cfg, lines[..last]);
      AliveStep(cfg, st, lines[last], d);
    } else {
      assert lines[..k] == lines;
    }
  }

  lemma {:induction false} RunHoldsInHunk(cfg: Config, lines: seq<string>)
    requires !Run(cfg, Start(), lines).stop.Crashed?
    ensures HoldsInHunk(Run(cfg, Start(), lines))
  {
    if lines != [] {
      var last := |lines| - 1;
      RunHoldsInHunk(cfg, lines[..last]);
      RunKeeps(cfg, lines[..last]);
      StaysInHunk(cfg, Run(cfg, Start(), lines[..last]), lines[last]);
      hide Step, Inv;
    }
  }

  // The hunk that line k belongs to, and its diff up to there.
  lemma HunkBefore(cfg: Config, lines: seq<string>, k: nat) returns (h: nat)
    requires k < |lines| && Reads(cfg, lines, k) && InHunk(Run(cfg, Start(), lines[..k]).phase)
    ensures HunkAt(cfg, lines, h, k) && DiffOf(Run(cfg, Start(), lines[..k]).diff, lines, h, k)
  {
    var before := lines[..k];
    h := OpenHunk(cfg, before);
    hide Run, Classify, HunkContent, HeaderStart;
    forall j: nat | j < k ensures KindAt(cfg, lines, j) == KindAt(cfg, before, j) {
      assert before[..j] == lines[..j];
    }
    hide KindAt;
    assert before[h + 1..k] == lines[h + 1..k];
  }

  lemma AfterPlus(cfg: Config, lines: seq<string>, k: nat)
    requires k < |lines| && Reads(cfg, lines, k) && KindAt(cfg, lines, k).KPlus?
    requires !Run(cfg, Start(), lines[..k + 1]).stop.Crashed?
    ensures var d, now := Run(cfg, Start(), lines[..k]).diff, Run(cfg, Start(), lines[..k + 1]).diff;
      lines[k] != "" && now.lineStart == d.lineStart && now.content == d.content + lines[k][1..]
  {
    var st := Run(cfg, Start(), lines[..k]);
    assert lines[..k + 1][..k] == lines[..k];
    StepGoing(cfg, st, lines[k]);
    PlusNeedsText(cfg.staged, st.phase, lines[k]);
    hide Classify, Handle, Step;
    assert Run(cfg, Start(), lines[..k + 1]) == Step(cfg, st, lines[k]);
    HandleExtends(cfg, st, lines[k]);
  }

  lemma DiffGoesOut(cfg: Config, lines: seq<string>, k: nat) returns (d: Diff)
    requires k <= |lines| && !Parse(cfg, lines).stop.Crashed? && Run(cfg, Start(), lines[..k]).diff.content != ""
    ensures d in Parse(cfg, lines).out && Extends(d, Run(cfg, Start(), lines[..k]).diff)
  {
    var now := Run(cfg, Start(), lines[..k]).diff;
    StaysAlive(cfg, lines, k, now);
    RunKeeps(cfg, lines);
    AliveCleanup(Run(cfg, Start(), lines), now);
    d :| d in Parse(cfg, lines).out && Extends(d, now);
  }

  /** Every added line read reaches the output, in a diff of its hunk: after the content of the hunk's
      lines before it, in a diff whose LineStart is the start the hunk header gives. */
  lemma AddedLineGoesOut(cfg: Config, lines: seq<string>, k: nat) returns (h: nat, d: Diff)
    requires !Parse(cfg, lines).stop.Crashed?
    requires k < |lines| && Reads(cfg, lines, k) && KindAt(cfg, lines, k).KPlus? && |lines[k]| > 1
    ensures HunkAt(cfg, lines, h, k) && d in Parse(cfg, lines).out && d.lineStart == HeaderStart(lines[h])
    ensures HunkContent(lines[h + 1..k]) + lines[k][1..] <= d.content
  {
    BodyLine(cfg.staged, Run(cfg, Start(), lines[..k]).phase, lines[k]);
    h := HunkBefore(cfg, lines, k);
    CrashStays(cfg, lines, k + 1);
    AfterPlus(cfg, lines, k);
    hide Run, Cleanup, HunkAt, HunkContent, HeaderStart;
    d := DiffGoesOut(cfg, lines, k + 1);
  }

  lemma {:induction false} CrashStays(cfg: Config, lines: seq<string>, k: nat)
    requires k <= |lines| && !Run(cfg, Start(), lines).stop.Crashed?
    ensures !Run(cfg, Start(), lines[..k]).stop.Crashed?
  {
    if k < |lines| {
      assert lines[..|lines| - 1][..k] == lines[..k];
      CrashStays(cfg, lines[..|lines| - 1], k);
    } else {
      assert lines[..k] == lines;
    }
  }

  lemma {:induction false} NoBareLines(body: seq<string>)
    ensures BareLines(body) == 0 <==> "\n" !in body
  {
    if body != [] {
      NoBareLines(body[..|body| - 1]);
      assert body == body[..|body| - 1] + [body[|body| - 1]];
    }
  }

  /** The number reported for an added line (LineStart plus the newlines before it in the diff) is its
      number in the file after the commit if and only if no bare empty line stands before it in its
      hunk; each such line makes the number one too small. */
  lemma AddedLineNumber(cfg: Config, lines: seq<string>, k: nat) returns (h: nat, d: Diff, o: nat)
    requires AreLines(lines) && !Parse(cfg, lines).stop.Crashed?
    requires k < |lines| && Reads(cfg, lines, k) && KindAt(cfg, lines, k).KPlus? && |lines[k]| > 1
    ensures HunkAt(cfg, lines, h, k) && d in Parse(cfg, lines).out
    ensures o <= |d.content| && lines[k][1..] <= d.content[o..]
    ensures var number, reported := HeaderStart(lines[h]) + PostLines(lines[h + 1..k]), d.lineStart + Newlines(d.content[..o]);
      reported == number - BareLines(lines[h + 1..k]) && (reported == number <==> "\n" !in lines[h + 1..k])
  {
    h, d := AddedLineGoesOut(cfg, lines, k);
    var body := lines[h + 1..k];
    hide HunkAt, Parse, HeaderStart, KindAt, Reads, Newlines, PostLines, BareLines, HunkContent;
    ContentCountsLines(body);
    NoBareLines(body);
    o := |HunkContent(body)|;
    Prefixes(HunkContent(body), lines[k][1..], d.content);
  }

  lemma Prefixes(a: string, b: string, s: string)
    requires a + b <= s
    ensures |a| <= |s| && s[..|a|] == a && b <= s[|a|..]
  {
    assert (a + b)[..|a|] == a && (a + b)[|a|..] == b;
    assert s[..|a + b|] == a + b;
  }
}
