/**
 The output of `git log -p --pretty=fuller --notes` and what the parser makes of it: the round trip
 from commits, files and hunks through the printed lines and back; and the same for `git diff --cached`,
 which prints files only.
 */
module GitLog {
  import opened Options
  import opened GitParse

  // NoNewline is git's mark after a last line that has no newline; Empty is an empty context line as it is printed
  // with diff.suppressBlankEmpty set.
  datatype HunkLine = Context(text: string) | Added(text: string) | Removed(text: string) | NoNewline | Empty

  // `counts` is what follows the start of the post-image range in the header.
  datatype Hunk = Hunk(before: string, start: nat, counts: string, lines: seq<HunkLine>)

  // A file after the commit: b/path, a quoted form of that, or /dev/null for one that is deleted.
  datatype Name = Named(path: string) | Quoted(text: string, path: string) | Absent

  datatype Header =
    | OldMode(text: string) | NewMode(text: string) | NewFile(text: string) | DeletedFile(text: string)
    | Similarity(text: string) | RenameFrom(text: string) | RenameTo(text: string)

  datatype Body = NoBody | Text(from: string, target: Name, hunks: seq<Hunk>) | Binary(from: string, target: Name)

  datatype FilePatch = FilePatch(names: string, headers: seq<Header>, index: Option<string>, body: Body)

  // `head` is what follows the word in the first line.
  datatype Notes = Notes(head: string, lines: seq<string>)

  // `refs` is what follows the hash, such as the names of branches.
  datatype Entry = Entry(hash: string, refs: string, merge: Option<string>, author: string, authorDate: string, committer: string,
                         commitDate: string, message: seq<string>, notes: Option<Notes>, files: seq<FilePatch>)

  // ---------------------------------------------------------------- printing

  function Digit(d: nat): char
    requires d < 10
  {
    ('0' as int + d) as char
  }

  function Decimal(n: nat): string {
    if n < 10 then [Digit(n)] else Decimal(n / 10) + [Digit(n % 10)]
  }

  function HunkLineText(l: HunkLine): string {
    match l
    case Context(text) => " " + text + "\n"
    case Added(text) => "+" + text + "\n"
    case Removed(text) => "-" + text + "\n"
    case NoNewline => "\\ No newline at end of file\n"
    case Empty => "\n"
  }

  function BodyText(lines: seq<HunkLine>): seq<string> {
    if lines == [] then [] else BodyText(lines[..|lines| - 1]) + [HunkLineText(lines[|lines| - 1])]
  }

  function HeaderText(h: Hunk): string { "@@ -" + h.before + " +" + Decimal(h.start) + h.counts + "\n" }

  function HunkText(h: Hunk): seq<string> { [HeaderText(h)] + BodyText(h.lines) }

  function HunksText(hs: seq<Hunk>): seq<string> {
    if hs == [] then [] else HunksText(hs[..|hs| - 1]) + HunkText(hs[|hs| - 1])
  }

  function NameText(n: Name): string {
    match n
    case Named(path) => "b/" + path
    case Quoted(text, _) => "\"b/" + text + "\""
    case Absent => "/dev/null"
  }

  function ModeText(h: Header): string {
    match h
    case OldMode(text) => "old mode " + text + "\n"
    case NewMode(text) => "new mode " + text + "\n"
    case NewFile(text) => "new file mode " + text + "\n"
    case DeletedFile(text) => "deleted file mode " + text + "\n"
    case Similarity(text) => "similarity index " + text + "\n"
    case RenameFrom(text) => "rename from " + text + "\n"
    case RenameTo(text) => "rename to " + text + "\n"
  }

  function ModesText(hs: seq<Header>): seq<string> {
    if hs == [] then [] else ModesText(hs[..|hs| - 1]) + [ModeText(hs[|hs| - 1])]
  }

  function IndexText(index: Option<string>): seq<string> {
    match index case Some(text) => ["index " + text + "\n"] case None => []
  }

  function TopText(f: FilePatch): seq<string> {
    ["diff --git " + f.names + "\n"] + ModesText(f.headers) + IndexText(f.index)
  }

  function TargetText(from: string, target: Name): seq<string> {
    ["--- " + from + "\n", "+++ " + NameText(target) + "\n"]
  }

  function BinaryText(from: string, target: Name): string { "Binary files " + from + " and " + NameText(target) + " differ\n" }

  function RestText(body: Body): seq<string> {
    match body
    case NoBody => []
    case Text(from, target, hunks) => TargetText(from, target) + HunksText(hunks)
    case Binary(from, target) => [BinaryText(from, target)]
  }

  function FileText(f: FilePatch): seq<string> { TopText(f) + RestText(f.body) }

  function FilesText(fs: seq<FilePatch>): seq<string> {
    if fs == [] then [] else FilesText(fs[..|fs| - 1]) + FileText(fs[|fs| - 1])
  }

  function MessageText(ms: seq<string>): seq<string> {
    if ms == [] then [] else MessageText(ms[..|ms| - 1]) + ["    " + ms[|ms| - 1] + "\n"]
  }

  function NotesText(notes: Option<Notes>): seq<string> {
    match notes
    case None => []
    case Some(n) => ["\n", "Notes" + n.head + "\n"] + MessageText(n.lines)
  }

  function CommitText(e: Entry): seq<string> {
    ["commit " + e.hash + e.refs + "\n"] + match e.merge case Some(parents) => ["Merge: " + parents + "\n"] case None => []
  }

  function HeadText(e: Entry): seq<string> {
    CommitText(e) +
    ["Author: " + e.author + "\n", "AuthorDate: " + e.authorDate + "\n",
     "Commit: " + e.committer + "\n", "CommitDate: " + e.commitDate + "\n"]
  }

  function OpeningText(e: Entry): seq<string> {
    HeadText(e) + (if e.message == [] then [] else ["\n"] + MessageText(e.message)) + NotesText(e.notes)
  }

  function EntryText(e: Entry): seq<string> {
    OpeningText(e) + if e.files == [] then [] else ["\n"] + FilesText(e.files)
  }

  // Entries are printed with an empty line between them.
  function LogText(es: seq<Entry>): seq<string> {
    if es == [] then []
    else if |es| == 1 then EntryText(es[0])
    else LogText(es[..|es| - 1]) + ["\n"] + EntryText(es[|es| - 1])
  }

  // ---------------------------------------------------------------- what should come out

  function LineAdds(l: HunkLine): string {
    match l case Context(_) => "\n" case Added(text) => text + "\n" case _ => ""
  }

  function BodyAdds(lines: seq<HunkLine>): string {
    if lines == [] then "" else BodyAdds(lines[..|lines| - 1]) + LineAdds(lines[|lines| - 1])
  }

  function HunkDiffs(owner: nat, path: string, h: Hunk): seq<Diff> {
    if BodyAdds(h.lines) == "" then [] else [Diff(owner, path, h.start, false, BodyAdds(h.lines))]
  }

  function HunksDiffs(owner: nat, path: string, hs: seq<Hunk>): seq<Diff> {
    if hs == [] then [] else HunksDiffs(owner, path, hs[..|hs| - 1]) + HunkDiffs(owner, path, hs[|hs| - 1])
  }

  // A file that is deleted has no path.
  function PathOf(n: Name): string {
    match n case Named(path) => path case Quoted(_, path) => path case Absent => ""
  }

  // A binary file that is deleted gives nothing.
  function FileDiffs(owner: nat, f: FilePatch): seq<Diff> {
    match f.body
    case NoBody => []
    case Text(_, target, hunks) => HunksDiffs(owner, PathOf(target), hunks)
    case Binary(_, target) => if target.Absent? then [] else [Diff(owner, PathOf(target), 0, true, "")]
  }

  function FilesDiffs(owner: nat, fs: seq<FilePatch>): seq<Diff> {
    if fs == [] then [] else FilesDiffs(owner, fs[..|fs| - 1]) + FileDiffs(owner, fs[|fs| - 1])
  }

  // The file's last diff is not empty, so that it is sent at the end of the file.
  predicate EndsWithContent(f: FilePatch) {
    match f.body
    case NoBody => false
    case Text(_, _, hunks) => hunks != [] && BodyAdds(hunks[|hunks| - 1].lines) != ""
    case Binary(_, target) => !target.Absent?
  }

  // Some file's last diff is sent with the commit marked.
  predicate SomeContent(fs: seq<FilePatch>) { exists f :: f in fs && EndsWithContent(f) }

  // A commit goes out on its own as well unless some file of it ends with content.
  function EntryDiffs(owner: nat, e: Entry): seq<Diff> {
    FilesDiffs(owner, e.files) + if SomeContent(e.files) then [] else [Bare(owner)]
  }

  function MessageLines(ms: seq<string>): string {
    if ms == [] then "" else MessageLines(ms[..|ms| - 1]) + (ms[|ms| - 1] + "\n")
  }

  function Heading(e: Entry): Commit {
    Commit(e.hash, TrimSpace(e.author + "\n"), TrimSpace(e.committer + "\n"), TrimSpace(e.authorDate + "\n"), "", false)
  }

  // The notes are read into the message, if there is one.
  function NotesLines(e: Entry): string {
    if e.message == [] || e.notes.None? then ""
    else "\n" + ("Notes" + e.notes.value.head + "\n") + MessageLines(e.notes.value.lines)
  }

  function Record(e: Entry): Commit { Heading(e).(message := MessageLines(e.message) + NotesLines(e)) }

  function Records(es: seq<Entry>): seq<Commit> {
    if es == [] then [] else Records(es[..|es| - 1]) + [Record(es[|es| - 1])]
  }

  function LogDiffs(es: seq<Entry>): seq<Diff> {
    if es == [] then [] else LogDiffs(es[..|es| - 1]) + EntryDiffs(|es|, es[|es| - 1])
  }

  // ---------------------------------------------------------------- what is read of a log

  // The printed commit ends with its notes, and after notes the parser reads no commit line.
  predicate EndsWithNotes(e: Entry) { e.message != [] && e.notes.Some? && e.files == [] }

  // The last commit has been read, and the next one will not be.
  predicate Swallows(es: seq<Entry>) {
    es != [] && EndsWithNotes(es[|es| - 1]) && !Swallows(es[..|es| - 1])
  }

  // A commit that is not read leaves its files to the one before it.
  function Seen(es: seq<Entry>): (seen: seq<Entry>)
    ensures |seen| <= |es| && (es != [] ==> seen != [])
    ensures Swallows(es) ==> seen[|seen| - 1] == es[|es| - 1]
  {
    if es == [] then []
    else
      var before, e := es[..|es| - 1], es[|es| - 1];
      var seen := Seen(before);
      if Swallows(before) then seen[..|seen| - 1] + [seen[|seen| - 1].(files := e.files)] else seen + [e]
  }

  // ---------------------------------------------------------------- well-formed logs

  ghost predicate HunkFits(cfg: Config, h: Hunk) {
    && h.lines != [] && !h.lines[0].NoNewline?
    && ' ' !in h.before
    && h.start <= MAX_INT
    && h.counts != "" && (h.counts[0] == ',' || h.counts[0] == ' ')
    && |BodyAdds(h.lines)| <= cfg.maxDiffSize
  }

  // sep is read at i.
  predicate At(s: string, sep: string, i: int) { 0 <= i && i + |sep| <= |s| && s[i..i + |sep|] == sep }

  // The "+++" line names the file: a path as it is does not end in white space, and a quoted one does not hold
  // the beginning of such a line.
  ghost predicate TargetFits(cfg: Config, target: Name) {
    match target
    case Named(path) => path == "" || !(9 <= path[|path| - 1] as int <= 13 || path[|path| - 1] == ' ')
    case Quoted(text, path) => cfg.unquote("\"" + text + "\"") == Some(path) && forall i :: !At(text, "+++ b/", i)
    case Absent => true
  }

  // The line for a binary file names it: its " and b/" is the first, and it does not hold "and /dev/null".
  ghost predicate BinaryFits(cfg: Config, from: string, target: Name) {
    var line := "Binary files " + from + " and " + NameText(target) + " differ\n";
    match target
    case Named(path) =>
      path != "" && (forall i :: !At(line, "and /dev/null", i)) && forall i :: i < 13 + |from| ==> !At(line, " and b/", i)
    case Quoted(text, path) =>
      && path != "" && cfg.unquote("\"" + text + "\"") == Some(path)
      && (forall i :: !At(line, "and /dev/null", i)) && (forall i :: !At(line, " and b/", i))
      && forall i :: i < 13 + |from| ==> !At(line, " and \"b/", i)
    case Absent => true
  }

  // git prints something under every diff line, and an index line before a binary file.
  ghost predicate FileFits(cfg: Config, f: FilePatch) {
    && (f.headers != [] || f.index.Some?)
    && match f.body
       case NoBody => true
       case Text(from, target, hunks) =>
         from != "" && TargetFits(cfg, target) && hunks != [] && forall h :: h in hunks ==> HunkFits(cfg, h)
       case Binary(from, target) => f.index.Some? && BinaryFits(cfg, from, target)
  }

  ghost predicate EntryFits(cfg: Config, e: Entry) {
    && |e.hash| == 40
    && cfg.dateParses(TrimSpace(e.authorDate + "\n"))
    && (e.notes.Some? ==> e.notes.value.lines != [])
    && forall f :: f in e.files ==> FileFits(cfg, f)
  }

  ghost predicate LogFits(cfg: Config, es: seq<Entry>) {
    !cfg.staged && cfg.maxDiffSize >= 0 && forall e :: e in es ==> EntryFits(cfg, e)
  }

  // ---------------------------------------------------------------- numbers in headers

  lemma {:induction false} DecimalDigits(n: nat)
    ensures Decimal(n) != "" && AllDigits(Decimal(n)) && DigitsValue(Decimal(n)) == n
  {
    if n < 10 {
      assert Decimal(n) == [Digit(n)] && Decimal(n)[..0] == "";
      assert DigitsValue([Digit(n)]) == 10 * DigitsValue([Digit(n)][..0]) + (Digit(n) as int - '0' as int);
    } else {
      DecimalDigits(n / 10);
      var s := Decimal(n);
      assert s[..|s| - 1] == Decimal(n / 10) && s[|s| - 1] == Digit(n % 10);
    }
  }

  lemma AtoiDecimal(n: nat)
    requires n <= MAX_INT
    ensures Atoi("+" + Decimal(n)) == Some(n)
  {
    DecimalDigits(n);
    assert ("+" + Decimal(n))[1..] == Decimal(n);
  }

  lemma {:induction false} RestAfter(a: string, sep: char, b: string)
    requires sep !in a
    ensures Rest(a + [sep] + b, sep) == Some(b)
  {
    if a != "" {
      RestAfter(a[1..], sep, b);
      assert (a + [sep] + b)[1..] == a[1..] + [sep] + b;
    } else {
      assert (a + [sep] + b)[1..] == b;
    }
  }

  lemma {:induction false} FieldOf(a: string, b: string, sep: char)
    requires sep !in a
    ensures FirstField(a + b, sep) == a + FirstField(b, sep)
  {
    if a != "" {
      FieldOf(a[1..], b, sep);
      assert (a + b)[1..] == a[1..] + b;
    } else {
      assert a + b == b;
    }
  }

  /** The header's third word gives the start of the post-image range back. */
  lemma HeaderGivesStart(h: Hunk)
    requires ' ' !in h.before && h.start <= MAX_INT
    requires h.counts != "" && (h.counts[0] == ',' || h.counts[0] == ' ')
    ensures HeaderStart(HeaderText(h)) == h.start
  {
    var dec, tail := Decimal(h.start), h.counts + "\n";
    DecimalDigits(h.start);
    var three := "+" + dec + tail;
    var two := "-" + h.before + " " + three;
    assert HeaderText(h) == "@@" + " " + two;
    RestAfter("@@", ' ', two);
    RestAfter("-" + h.before, ' ', three);
    assert ' ' !in "+" + dec && ',' !in "+" + dec;
    FieldOf("+" + dec, tail, ' ');
    FieldOf("+" + dec, FirstField(tail, ' '), ',');
    assert FirstField(FirstField(tail, ' '), ',') == "";
    assert FirstField(FirstField(three, ' '), ',') == "+" + dec;
    AtoiDecimal(h.start);
  }

  // ---------------------------------------------------------------- paths

  lemma {:induction false} TrimmedRight(a: string, b: string)
    requires a != "" && !IsSpace(a[|a| - 1])
    ensures TrimRight(a + b) == a + TrimRight(b)
  {
    if b == "" {
      assert a + b == a;
    } else if IsSpace(b[|b| - 1]) {
      assert (a + b)[..|a + b| - 1] == a + b[..|b| - 1];
      TrimmedRight(a, b[..|b| - 1]);
    }
  }

  lemma {:induction false} TrimRightShortens(s: string)
    ensures |TrimRight(s)| <= |s| && (s != "" && IsSpace(s[|s| - 1]) ==> |TrimRight(s)| < |s|)
  {
    if s != "" && IsSpace(s[|s| - 1]) { TrimRightShortens(s[..|s| - 1]); }
  }

  // Without the newline, and what else of white space is at its end.
  lemma {:induction false} ToLineTrimmed(text: string)
    ensures TrimSpace("+++ " + text + "\n") == if text == "" then "+++" else TrimRight("+++ " + text)
  {
    var line := "+++ " + text + "\n";
    assert TrimLeft(line) == line;
    assert line[..|line| - 1] == "+++ " + text;
    if text == "" {
      assert "+++ "[..3] == "+++" && TrimRight("+++ ") == TrimRight("+++") == "+++";
      assert "+++ " + text == "+++ ";
    }
  }

  lemma Shifted(s: string, sep: string, i: nat)
    requires s != "" && At(s[1..], sep, i)
    ensures At(s, sep, i + 1)
  {
    assert s[i + 1..i + 1 + |sep|] == s[1..][i..i + |sep|];
  }

  lemma {:induction false} CutFirst(a: string, sep: string, b: string)
    requires sep != "" && forall i :: i < |a| ==> !At(a + sep + b, sep, i)
    ensures CutAfter(a + sep + b, sep) == Some(b)
  {
    var s := a + sep + b;
    if a == "" {
      assert s == sep + b && s[..|sep|] == sep && s[|sep|..] == b;
    } else {
      assert !At(s, sep, 0);
      var rest := a[1..] + sep + b;
      assert s[1..] == rest;
      forall i | i < |a[1..]| ensures !At(rest, sep, i) {
        if At(rest, sep, i) { Shifted(s, sep, i); }
      }
      CutFirst(a[1..], sep, b);
    }
  }

  lemma {:induction false} CutNone(s: string, sep: string)
    requires sep != "" && forall i :: !At(s, sep, i)
    ensures CutAfter(s, sep) == None
  {
    assert !At(s, sep, 0);
    if s != "" {
      forall i ensures !At(s[1..], sep, i) {
        if At(s[1..], sep, i) { Shifted(s, sep, i); }
      }
      CutNone(s[1..], sep);
    }
  }

  lemma {:induction false} CutSome(s: string, sep: string, i: nat)
    requires At(s, sep, i)
    ensures CutAfter(s, sep).Some?
  {
    if !Starts(s, sep) {
      assert i > 0;
      Unshifted(s, sep, i);
      hide At;
      CutSome(s[1..], sep, i - 1);
    }
  }

  lemma Unshifted(s: string, sep: string, i: nat)
    requires At(s, sep, i) && i > 0 && s != ""
    ensures At(s[1..], sep, i - 1)
  {
    var t := s[1..];
    assert t[i - 1..i - 1 + |sep|] == s[i..i + |sep|];
  }

  lemma Assoc(a: string, b: string, c: string)
    ensures a + (b + c) == (a + b) + c
  {
  }

  lemma NamedTrimmed(path: string)
    ensures TrimSpace("+++ b/" + path + "\n") == "+++ b/" + TrimRight(path)
  {
    var p := "+++ b/";
    assert "+++ " + "b/" == p && p[|p| - 1] == '/';
    Assoc("+++ ", "b/", path);
    assert ("b/" + path)[0] == 'b';
    ToLineTrimmed("b/" + path);
    hide TrimSpace, TrimRight;
    TrimmedRight(p, path);
  }

  /** A "+++" line gives its path back if and only if the path does not end in white space. */
  lemma {:induction false} TextPathCarried(cfg: Config, path: string)
    ensures PathFromToFileLine(cfg, "+++ b/" + path + "\n") == PathIs(TrimRight(path))
    ensures TrimRight(path) == path <==> path == "" || !(9 <= path[|path| - 1] as int <= 13 || path[|path| - 1] == ' ')
  {
    NamedTrimmed(path);
    TrimRightShortens(path);
    SpaceIs(path);
    var p, rest := "+++ b/", TrimRight(path);
    hide TrimSpace;
    assert (p + rest)[4] == 'b' && "+++ /dev/null"[4] == '/';
    assert "" + p + rest == p + rest;
    CutFirst("", p, rest);
    hide Starts, CutAfter, IsSpace;
  }

  lemma SpaceIs(s: string)
    ensures s != "" ==> (IsSpace(s[|s| - 1]) <==> 9 <= s[|s| - 1] as int <= 13 || s[|s| - 1] == ' ')
  {
  }

  lemma {:induction false} QuotedTrimmed(text: string)
    ensures TrimSpace("+++ \"b/" + text + "\"\n") == "+++ \"b/" + text + "\""
  {
    var s := "+++ \"b/" + text + "\"";
    assert "+++ " + "\"b/" == "+++ \"b/" && "\"" + "\n" == "\"\n";
    Assoc("+++ ", "\"b/", text);
    Assoc("+++ ", "\"b/" + text, "\"");
    Assoc("+++ \"b/" + text, "\"", "\n");
    assert "\"b/" + text + "\"" != "" && s[|s| - 1] == '"';
    ToLineTrimmed("\"b/" + text + "\"");
  }

  lemma QuotedHolds(text: string)
    requires forall i :: !At(text, "+++ b/", i)
    ensures forall i :: !At("+++ \"b/" + text + "\"", "+++ b/", i)
  {
    var s, sep := "+++ \"b/" + text + "\"", "+++ b/";
    forall i | 0 <= i && i + |sep| <= |s| ensures !At(s, sep, i) {
      if 7 <= i && i + |sep| < |s| {
        assert !At(text, sep, i - 7) && s[i..i + 6] == text[i - 7..i - 1];
      } else {
        assert s[..7] == "+++ \"b/" && s[|s| - 1] == '"';
        var t := s[i..i + |sep|];
        assert t[0] == s[i] && t[1] == s[i + 1] && t[2] == s[i + 2] && t[4] == s[i + 4] && t[5] == s[i + 5];
        assert i >= 7 || s[i] == s[..7][i];
        assert i < 3 ==> s[3] == s[..7][3] && s[4] == s[..7][4];
      }
    }
  }

  lemma QuotedPath(cfg: Config, text: string)
    requires forall i :: !At(text, "+++ b/", i)
    ensures PathFromToFileLine(cfg, "+++ \"b/" + text + "\"\n") == Unquoted(cfg, text)
  {
    QuotedTrimmed(text);
    QuotedHolds(text);
    var s, p := "+++ \"b/" + text + "\"", "+++ \"b/";
    assert s[4] == '"' && "+++ /dev/null"[4] == '/';
    CutNone(s, "+++ b/");
    assert s == "" + p + (text + "\"");
    CutFirst("", p, text + "\"");
    assert (text + "\"")[..|text + "\""| - 1] == text;
    hide CutAfter, TrimSpace, Unquoted;
  }

  lemma EndsPlain(s: string)
    requires s != "" && s[|s| - 1] == 'l'
    ensures TrimRight(s) == s
  {
  }

  lemma AbsentPath(cfg: Config)
    ensures PathFromToFileLine(cfg, "+++ /dev/null\n") == PathIs("")
  {
    var s := "+++ /dev/null";
    ToLineTrimmed("/dev/null");
    hide TrimSpace;
    assert "+++ " + "/dev/null" + "\n" == "+++ /dev/null\n" && "+++ " + "/dev/null" == s;
    EndsPlain(s);
    hide TrimRight, CutAfter;
  }

  lemma TargetCarried(cfg: Config, target: Name)
    requires TargetFits(cfg, target)
    ensures PathFromToFileLine(cfg, "+++ " + NameText(target) + "\n") == PathIs(PathOf(target))
  {
    hide PathFromToFileLine, TrimRight, At;
    match target
    case Named(path) =>
      assert "+++ " + ("b/" + path) + "\n" == "+++ b/" + path + "\n";
      TextPathCarried(cfg, path);
    case Quoted(text, path) =>
      assert "+++ " + ("\"b/" + text + "\"") + "\n" == "+++ \"b/" + text + "\"\n";
      QuotedPath(cfg, text);
    case Absent =>
      assert "+++ " + "/dev/null" + "\n" == "+++ /dev/null\n";
      AbsentPath(cfg);
  }

  lemma NamedBinary(cfg: Config, start: string, path: string)
    requires var line := start + " and " + ("b/" + path) + " differ\n";
      (forall i :: !At(line, "and /dev/null", i)) && forall i :: i < |start| ==> !At(line, " and b/", i)
    ensures PathFromBinaryLine(cfg, start + " and " + ("b/" + path) + " differ\n") == PathIs(path)
  {
    var line, after := start + " and " + ("b/" + path) + " differ\n", path + " differ\n";
    assert line == start + " and b/" + after;
    CutNone(line, "and /dev/null");
    CutFirst(start, " and b/", after);
    assert after[..|after| - 8] == path;
    hide CutAfter, At;
  }

  lemma QuotedBinary(cfg: Config, start: string, text: string)
    requires var line := start + " and " + ("\"b/" + text + "\"") + " differ\n";
      && (forall i :: !At(line, "and /dev/null", i)) && (forall i :: !At(line, " and b/", i))
      && forall i :: i < |start| ==> !At(line, " and \"b/", i)
    ensures PathFromBinaryLine(cfg, start + " and " + ("\"b/" + text + "\"") + " differ\n") == Unquoted(cfg, text)
  {
    var line, after := start + " and " + ("\"b/" + text + "\"") + " differ\n", text + "\" differ\n";
    assert line == start + " and \"b/" + after;
    CutNone(line, "and /dev/null");
    CutNone(line, " and b/");
    CutFirst(start, " and \"b/", after);
    assert after[..|after| - 9] == text;
    hide CutAfter, At, Unquoted;
  }

  lemma AbsentBinary(cfg: Config, start: string)
    ensures PathFromBinaryLine(cfg, start + " and " + "/dev/null" + " differ\n") == PathIs("")
  {
    var line, sep, k := start + " and " + "/dev/null" + " differ\n", "and /dev/null", |start| + 1;
    assert line == start + " " + sep + " differ\n";
    assert line[k..k + |sep|] == sep;
    CutSome(line, sep, k);
    hide CutAfter;
  }

  lemma BinaryCarried(cfg: Config, from: string, target: Name)
    requires BinaryFits(cfg, from, target)
    ensures PathFromBinaryLine(cfg, BinaryText(from, target)) == PathIs(PathOf(target))
    ensures !target.Absent? ==> PathOf(target) != ""
  {
    hide PathFromBinaryLine, At;
    var start := "Binary files " + from;
    assert |start| == 13 + |from|;
    match target
    case Named(path) =>
      assert NameText(target) == "b/" + path;
      NamedBinary(cfg, start, path);
    case Quoted(text, path) =>
      assert NameText(target) == "\"b/" + text + "\"";
      QuotedBinary(cfg, start, text);
    case Absent =>
      assert NameText(target) == "/dev/null";
      AbsentBinary(cfg, start);
  }

  /** The path of a file whose name ends in a space comes out without it. */
  lemma SpaceLost(cfg: Config)
    ensures PathFromToFileLine(cfg, "+++ b/a \n") == PathIs("a")
  {
    TextPathCarried(cfg, "a ");
    assert "+++ b/" + "a " + "\n" == "+++ b/a \n";
    assert "a "[..1] == "a" && TrimRight("a") == "a" && TrimRight("a ") == TrimRight("a");
  }

  // ---------------------------------------------------------------- printed lines are recognized

  lemma Prefixed(p: string, rest: string)
    ensures Starts(p + rest, p)
  {
  }

  lemma NotPrefixed(line: string, p: string)
    requires line != "" && p != "" && line[0] != p[0]
    ensures !Starts(line, p)
  {
  }

  lemma NotPrefixedAt(line: string, p: string, k: nat)
    requires k < |line| && k < |p| && line[k] != p[k]
    ensures !Starts(line, p)
  {
  }

  lemma PrefixedStill(line: string, p: string, more: string)
    requires Starts(line, p)
    ensures Starts(line + more, p)
  {
  }

  // Within a file.
  predicate OfFile(at: Phase) {
    at.DiffLine? || at.FromFileLine? || at.ToFileLine? || at.HunkLineNumberLine? || EndsFile(at)
  }

  predicate AboutCommit(staged: bool, at: Phase, line: string) {
    || IsCommitLine(staged, at, line) || IsMergeLine(staged, at, line) || IsAuthorLine(staged, at, line)
    || IsAuthorDateLine(staged, at, line) || IsCommitterLine(staged, at, line) || IsCommitterDateLine(staged, at, line)
    || IsMessageStartLine(staged, at, line) || IsMessageLine(staged, at, line) || IsMessageEndLine(staged, at, line)
    || IsNotesStartLine(staged, at, line) || IsNotesLine(staged, at, line) || IsNotesEndLine(staged, at, line)
  }

  lemma NotAboutCommit(staged: bool, at: Phase, line: string)
    requires OfFile(at) && !Starts(line, "commit ")
    ensures !AboutCommit(staged, at, line)
  {
    hide Starts, Blank;
  }

  // The cases that are left in a file.
  function FileKind(at: Phase, line: string): Kind {
    if IsModeLine(at, line) then KMode
    else if IsIndexLine(at, line) then KIndex
    else if IsBinaryLine(at, line) then KBinary
    else if IsFromFileLine(at, line) then KFromFile
    else if IsToFileLine(at, line) then KToFile
    else if IsHunkLineNumberLine(at, line) then KHunkHeader
    else if IsHunkContextLine(at, line) then KContext
    else if IsHunkPlusLine(at, line) then KPlus
    else if IsHunkMinusLine(at, line) || IsHunkNewlineWarningLine(at, line) || IsHunkEmptyLine(at, line) then KUnwritten
    else if IsCommitSeparatorLine(at, line) then KSeparator
    else KInvalid
  }

  lemma ClassifiedInFile(staged: bool, at: Phase, line: string)
    requires OfFile(at) && !Starts(line, "commit ") && !Starts(line, "diff --git ")
    ensures Classify(staged, at, line) == FileKind(at, line)
  {
    NotAboutCommit(staged, at, line);
    hide Starts, Blank, IsCommitLine, IsMergeLine, IsAuthorLine, IsAuthorDateLine, IsCommitterLine, IsCommitterDateLine,
      IsMessageStartLine, IsMessageLine, IsMessageEndLine, IsNotesStartLine, IsNotesLine, IsNotesEndLine, IsModeLine, IsIndexLine,
      IsBinaryLine, IsFromFileLine, IsToFileLine, IsHunkLineNumberLine, IsHunkContextLine, IsHunkPlusLine, IsHunkMinusLine,
      IsHunkNewlineWarningLine, IsHunkEmptyLine, IsCommitSeparatorLine;
  }

  // Where a file can end.
  predicate EndsFile(at: Phase) { at.HunkContentLine? || at.BinaryFileLine? || at.ModeLine? || at.IndexLine? }

  // Where a diff line may follow.
  predicate BeforeFile(at: Phase) { at.MessageStartLine? || at.MessageEndLine? || at.NotesEndLine? || at.ParseFailure? || EndsFile(at) }

  // Where a commit line may follow.
  predicate BeforeCommit(at: Phase) { at.Initial? || at.MessageStartLine? || at.MessageEndLine? || at.ParseFailure? || EndsFile(at) }

  lemma NotAboutCommitAfter(staged: bool, at: Phase, line: string)
    requires BeforeFile(at) || (staged && at.Initial?)
    requires !Starts(line, "commit ") && !Starts(line, "Notes") && !Starts(line, "    ")
    ensures !AboutCommit(staged, at, line)
  {
    hide Starts, Blank;
  }

  lemma DiffLineKind(staged: bool, at: Phase, names: string)
    requires BeforeFile(at) || (staged && at.Initial?)
    ensures Classify(staged, at, "diff --git " + names + "\n") == KDiff
  {
    var line := "diff --git " + names + "\n";
    Prefixed("diff --git ", names + "\n");
    Assoc("diff --git ", names, "\n");
    NotPrefixed(line, "commit ");
    NotPrefixed(line, "Notes");
    NotPrefixed(line, "    ");
    NotAboutCommitAfter(staged, at, line);
    hide Starts, Blank, IsCommitLine, IsMergeLine, IsAuthorLine, IsAuthorDateLine, IsCommitterLine, IsCommitterDateLine,
      IsMessageStartLine, IsMessageLine, IsMessageEndLine, IsNotesStartLine, IsNotesLine, IsNotesEndLine;
  }

  lemma ModeWord(h: Header) returns (word: string, rest: string)
    ensures ModeText(h) == word + rest && rest != "" && word == match h
      case OldMode(_) => "old mode"
      case NewMode(_) => "new mode"
      case NewFile(_) => "new file mode"
      case DeletedFile(_) => "deleted file mode"
      case Similarity(_) => "similarity index"
      case RenameFrom(_) => "rename from"
      case RenameTo(_) => "rename to"
  {
    rest := " " + h.text + "\n";
    word := match h
      case OldMode(_) => "old mode"
      case NewMode(_) => "new mode"
      case NewFile(_) => "new file mode"
      case DeletedFile(_) => "deleted file mode"
      case Similarity(_) => "similarity index"
      case RenameFrom(_) => "rename from"
      case RenameTo(_) => "rename to";
    match h
    case OldMode(t) => assert "old mode " + t + "\n" == "old mode" + (" " + t + "\n");
    case NewMode(t) => assert "new mode " + t + "\n" == "new mode" + (" " + t + "\n");
    case NewFile(t) => assert "new file mode " + t + "\n" == "new file mode" + (" " + t + "\n");
    case DeletedFile(t) => assert "deleted file mode " + t + "\n" == "deleted file mode" + (" " + t + "\n");
    case Similarity(t) => assert "similarity index " + t + "\n" == "similarity index" + (" " + t + "\n");
    case RenameFrom(t) => assert "rename from " + t + "\n" == "rename from" + (" " + t + "\n");
    case RenameTo(t) => assert "rename to " + t + "\n" == "rename to" + (" " + t + "\n");
  }

  lemma ModeLineKind(staged: bool, at: Phase, h: Header)
    requires at.DiffLine? || at.ModeLine?
    ensures Classify(staged, at, ModeText(h)) == KMode
  {
    var word, rest := ModeWord(h);
    var line := ModeText(h);
    hide ModeText;
    Prefixed(word, rest);
    NotPrefixed(line, "commit ");
    NotPrefixedAt(line, "diff --git ", if h.DeletedFile? then 1 else 0);
    hide Starts;
    StartsWithMode(staged, at, line, word);
  }

  lemma StartsWithMode(staged: bool, at: Phase, line: string, word: string)
    requires at.DiffLine? || at.ModeLine?
    requires Starts(line, word) && |line| > |word| && !Starts(line, "commit ") && !Starts(line, "diff --git ")
    requires word == "old mode" || word == "new mode" || word == "new file mode" || word == "deleted file mode" ||
      word == "similarity index" || word == "rename from" || word == "rename to"
    ensures Classify(staged, at, line) == KMode
  {
    ClassifiedInFile(staged, at, line);
    hide Starts, Blank, Classify;
  }

  // No header line starts with the first character of an index line or a "---" line.
  lemma NoMode(line: string)
    requires line != "" && (line[0] == 'i' || line[0] == '-')
    ensures !Starts(line, "commit ") && !Starts(line, "diff --git ")
    ensures !IsModeLine(DiffLine, line) && !IsModeLine(ModeLine, line)
  {
  }

  lemma IndexLineKind(staged: bool, at: Phase, index: string)
    requires at.DiffLine? || at.ModeLine?
    ensures Classify(staged, at, "index " + index + "\n") == KIndex
  {
    var line := "index " + index + "\n";
    Prefixed("index ", index + "\n");
    assert line == "index " + (index + "\n");
    NoMode(line);
    hide Starts, Blank, IsModeLine, Classify;
    ClassifiedInFile(staged, at, line);
  }

  lemma FromLineKind(staged: bool, at: Phase, from: string)
    requires (at.IndexLine? || at.ModeLine?) && from != ""
    ensures Classify(staged, at, "--- " + from + "\n") == KFromFile
  {
    var line := "--- " + from + "\n";
    Prefixed("--- ", from + "\n");
    assert line == "--- " + (from + "\n");
    NoMode(line);
    NotPrefixed(line, "Binary");
    NotPrefixed(line, "index ");
    hide Starts, Blank, IsModeLine, Classify;
    assert at.IndexLine? ==> !IsModeLine(at, line) by { NotAfterIndex(line); }
    ClassifiedInFile(staged, at, line);
  }

  lemma NotAfterIndex(line: string)
    ensures !IsModeLine(IndexLine, line)
  {
  }

  lemma ToLineKind(staged: bool, target: Name)
    ensures Classify(staged, FromFileLine, "+++ " + NameText(target) + "\n") == KToFile
  {
    var line := "+++ " + NameText(target) + "\n";
    Prefixed("+++ ", NameText(target) + "\n");
    Assoc("+++ ", NameText(target), "\n");
    assert NameText(target) != "";
    NotPrefixed(line, "commit ");
    NotPrefixed(line, "diff --git ");
    hide Starts, Blank, NameText, Classify, IsModeLine;
    ClassifiedInFile(staged, FromFileLine, line);
    assert !IsModeLine(FromFileLine, line) by { NoModeAfterFrom(line); }
  }

  lemma NoModeAfterFrom(line: string)
    ensures !IsModeLine(FromFileLine, line)
  {
  }

  lemma BinaryStarts(from: string, target: Name)
    ensures Starts(BinaryText(from, target), "Binary") && |BinaryText(from, target)| > 7
  {
    hide NameText, Starts;
    assert Starts("Binary files ", "Binary") by { Prefixed("Binary", " files "); assert "Binary" + " files " == "Binary files "; }
    PrefixedStill("Binary files ", "Binary", from);
    PrefixedStill("Binary files " + from, "Binary", " and ");
    PrefixedStill("Binary files " + from + " and ", "Binary", NameText(target));
    PrefixedStill("Binary files " + from + " and " + NameText(target), "Binary", " differ\n");
  }

  lemma BinaryLineKind(staged: bool, from: string, target: Name)
    ensures Classify(staged, IndexLine, BinaryText(from, target)) == KBinary
  {
    var line := BinaryText(from, target);
    BinaryStarts(from, target);
    hide BinaryText;
    assert line[0] == "Binary"[0] by { assert line[..6] == "Binary"; }
    NotPrefixed(line, "commit ");
    NotPrefixed(line, "diff --git ");
    hide Starts, Blank, Classify, IsModeLine;
    ClassifiedInFile(staged, IndexLine, line);
    NotAfterIndex(line);
  }

  lemma HeaderShape(h: Hunk) returns (rest: string)
    requires h.counts != ""
    ensures HeaderText(h) == "@@" + rest && |HeaderText(h)| >= 8
  {
    DecimalDigits(h.start);
    hide Decimal;
    rest := " -" + h.before + " +" + Decimal(h.start) + h.counts + "\n";
  }

  lemma HeaderKind(staged: bool, at: Phase, h: Hunk)
    requires at.ToFileLine? || at.HunkContentLine?
    requires h.counts != ""
    ensures Classify(staged, at, HeaderText(h)) == KHunkHeader
  {
    hide HeaderText, Blank;
    var line := HeaderText(h);
    var rest := HeaderShape(h);
    Prefixed("@@", rest);
    NotPrefixed(line, "commit ");
    NotPrefixed(line, "diff --git ");
    hide Starts, Classify;
    ClassifiedInFile(staged, at, line);
  }

  // What a printed body line starts with, and does not.
  lemma BodyLineShape(l: HunkLine)
    ensures var line := HunkLineText(l);
      && !Starts(line, "commit ") && !Starts(line, "diff --git ") && !Starts(line, "@@")
      && (Starts(line, " ") <==> l.Context?) && (Starts(line, "+") <==> l.Added?) && (Starts(line, "-") <==> l.Removed?)
      && (l.NoNewline? ==> Starts(line, "\\ No newline at end of file")) && (l.Empty? ==> line == "\n")
      && (l.Added? ==> line[1..] == LineAdds(l))
  {
    var p := if l.Context? then " " else if l.Added? then "+" else if l.Removed? then "-"
      else if l.NoNewline? then "\\ No newline at end of file" else "\n";
    var rest := if l.NoNewline? then "\n" else if l.Empty? then "" else l.text + "\n";
    var line := HunkLineText(l);
    Prefixed(p, rest);
    assert line == p + rest;
    NotPrefixed(line, "commit ");
    NotPrefixed(line, "diff --git ");
    NotPrefixed(line, "@@");
  }

  lemma BodyLineKind(staged: bool, at: Phase, l: HunkLine)
    requires InHunk(at) && (l.NoNewline? ==> at.HunkContentLine?)
    ensures var line := HunkLineText(l); var kind := Classify(staged, at, line);
      (if l.Context? then kind == KContext else if l.Added? then kind == KPlus else kind == KUnwritten) &&
      (l.Added? ==> line[1..] == LineAdds(l))
  {
    hide Starts, Blank, HunkLineText, LineAdds, Classify;
    BodyLineShape(l);
    ClassifiedInFile(staged, at, HunkLineText(l));
  }

  lemma CommitLineKind(at: Phase, hash: string, refs: string)
    requires BeforeCommit(at) && |hash| == 40
    ensures var line := "commit " + hash + refs + "\n";
      Classify(false, at, line) == KCommit && |line| >= 47 && line[7..47] == hash
  {
    var line := "commit " + hash + refs + "\n";
    Assoc("commit ", hash, refs);
    Assoc("commit ", hash + refs, "\n");
    Prefixed("commit ", hash + refs + "\n");
    hide Starts, Blank;
  }

  lemma MergeKind(parents: string)
    ensures Classify(false, CommitLine, "Merge: " + parents + "\n") == KMerge
  {
    Prefixed("Merge:", " " + parents + "\n");
    assert "Merge: " + parents + "\n" == "Merge:" + (" " + parents + "\n");
    hide Starts, Blank;
  }

  lemma AuthorKind(at: Phase, text: string)
    requires at.CommitLine? || at.MergeLine?
    ensures Classify(false, at, "Author: " + text + "\n") == KAuthor
    ensures ("Author: " + text + "\n")[8..] == text + "\n"
  {
    Prefixed("Author:", " " + text + "\n");
    assert "Author: " + text + "\n" == "Author:" + (" " + text + "\n");
    NotPrefixed("Author: " + text + "\n", "Merge:");
    hide Starts, Blank;
  }

  lemma AuthorDateKind(text: string)
    ensures Classify(false, AuthorLine, "AuthorDate: " + text + "\n") == KAuthorDate
    ensures ("AuthorDate: " + text + "\n")[12..] == text + "\n"
  {
    Prefixed("AuthorDate:", " " + text + "\n");
    assert "AuthorDate: " + text + "\n" == "AuthorDate:" + (" " + text + "\n");
    hide Starts, Blank;
  }

  lemma CommitterKind(text: string)
    ensures Classify(false, AuthorDateLine, "Commit: " + text + "\n") == KCommitter
    ensures ("Commit: " + text + "\n")[8..] == text + "\n"
  {
    Prefixed("Commit:", " " + text + "\n");
    assert "Commit: " + text + "\n" == "Commit:" + (" " + text + "\n");
    hide Starts, Blank;
  }

  lemma CommitterDateKind(text: string)
    ensures Classify(false, CommitterLine, "CommitDate: " + text + "\n") == KCommitterDate
  {
    Prefixed("CommitDate:", " " + text + "\n");
    assert "CommitDate: " + text + "\n" == "CommitDate:" + (" " + text + "\n");
    hide Starts, Blank;
  }

  lemma MessageLineKind(at: Phase, m: string)
    ensures at.MessageStartLine? || at.MessageLine? ==> Classify(false, at, "    " + m + "\n") == KMessage
    ensures at.NotesStartLine? || at.NotesLine? ==> Classify(false, at, "    " + m + "\n") == KNotes
    ensures ("    " + m + "\n")[4..] == m + "\n"
  {
    var line := "    " + m + "\n";
    Prefixed("    ", m + "\n");
    assert line == "    " + (m + "\n");
    NotPrefixed(line, "commit ");
    hide Starts, Blank;
  }

  lemma NotesStartKind(head: string)
    ensures Classify(false, MessageEndLine, "Notes" + head + "\n") == KNotesStart
  {
    var line := "Notes" + head + "\n";
    Prefixed("Notes", head + "\n");
    assert line == "Notes" + (head + "\n");
    NotPrefixed(line, "commit ");
    hide Starts, Blank;
  }

  lemma EmptyLineStarts()
    ensures Blank("\n") && |"\n"| == 1 && !Starts("\n", " ") && !Starts("\n", "+")
    ensures !Starts("\n", "commit ") && !Starts("\n", "diff --git ") && !Starts("\n", "    ")
  {
    NotPrefixed("\n", " ");
    NotPrefixed("\n", "+");
    NotPrefixed("\n", "commit ");
    NotPrefixed("\n", "diff --git ");
    NotPrefixed("\n", "    ");
    assert |"\n"| == 1;
  }

  lemma EmptyLineKind(at: Phase)
    ensures at.CommitterDateLine? ==> Classify(false, at, "\n") == KMessageStart
    ensures at.ParseFailure? ==> Classify(false, at, "\n") == KInvalid
    ensures at.MessageLine? ==> Classify(false, at, "\n") == KMessageEnd
    ensures at.NotesLine? ==> Classify(false, at, "\n") == KNotesEnd
    ensures at.HunkContentLine? ==> Classify(false, at, "\n") == KUnwritten
    ensures at.BinaryFileLine? || at.ModeLine? || at.IndexLine? ==> Classify(false, at, "\n") == KSeparator
  {
    EmptyLineStarts();
    if EndsFile(at) { EmptyInFile(at); } else { EmptyInCommit(at); }
    hide Starts, Blank, Classify;
  }

  lemma EmptyInFile(at: Phase)
    requires EndsFile(at)
    ensures Classify(false, at, "\n") == if at.HunkContentLine? then KUnwritten else KSeparator
  {
    EmptyLineStarts();
    hide Starts, Blank, Classify;
    ClassifiedInFile(false, at, "\n");
  }

  lemma EmptyInCommit(at: Phase)
    ensures at.CommitterDateLine? ==> Classify(false, at, "\n") == KMessageStart
    ensures at.ParseFailure? ==> Classify(false, at, "\n") == KInvalid
    ensures at.MessageLine? ==> Classify(false, at, "\n") == KMessageEnd
    ensures at.NotesLine? ==> Classify(false, at, "\n") == KNotesEnd
  {
    EmptyLineStarts();
    hide Starts, Blank;
  }

  // Notes are read after a message only.
  lemma UnreadNotesKind(head: string)
    ensures Classify(false, MessageStartLine, "Notes" + head + "\n") == KInvalid
  {
    var line := "Notes" + head + "\n";
    assert line[0] == 'N';
    NotPrefixed(line, "commit ");
    NotPrefixed(line, "diff --git ");
    NotPrefixed(line, "    ");
    hide Starts, Blank;
  }

  // A line that the parser skips while it looks for the next diff or commit.
  predicate Skippable(line: string) { line != "" && line[0] != 'c' && line[0] != 'd' }

  lemma SkippedKind(line: string)
    requires Skippable(line)
    ensures Classify(false, ParseFailure, line) == KInvalid
  {
    NotPrefixed(line, "commit ");
    NotPrefixed(line, "diff --git ");
    hide Starts, Blank;
  }

  // After notes a commit line is not read.
  lemma SwallowedKind(line: string)
    requires Starts(line, "commit ") && line != "\n"
    ensures Classify(false, NotesEndLine, line) == KInvalid
  {
    assert line[0] == 'c';
    NotPrefixed(line, "diff --git ");
    hide Starts, Blank;
  }

  // ---------------------------------------------------------------- runs over printed logs

  lemma {:induction false} RunConcat(cfg: Config, st: State, a: seq<string>, b: seq<string>)
    ensures Run(cfg, st, a + b) == Run(cfg, Run(cfg, st, a), b)
  {
    if b == [] {
      assert a + b == a;
    } else {
      assert (a + b)[..|a + b| - 1] == a + b[..|b| - 1];
      RunConcat(cfg, st, a, b[..|b| - 1]);
    }
  }

  lemma RunOne(cfg: Config, st: State, line: string)
    ensures Run(cfg, st, [line]) == Step(cfg, st, line)
  {
    assert [line][..0] == [];
    assert Run(cfg, st, [line]) == Step(cfg, Run(cfg, st, [line][..0]), line);
  }

  lemma StepIs(cfg: Config, st: State, line: string)
    requires st.stop.Going? && Handle(cfg, st, line).stop.Going?
    requires |Handle(cfg, st, line).diff.content| <= cfg.maxDiffSize
    ensures Step(cfg, st, line) == Handle(cfg, st, line)
  {
  }

  // What has been sent once the current diff is.
  function Sent(st: State): seq<Diff> { st.out + if Nonempty(st.diff) then [st.diff] else [] }

  // The current commit does not need to go out on its own.
  predicate Marked(st: State)
    requires st.commits != []
  {
    Last(st).hasDiffs || Nonempty(st.diff)
  }

  // What has been sent once the current commit is done with.
  function Closed(st: State): seq<Diff> {
    Sent(st) + if st.commits == [] || Marked(st) then [] else [Bare(|st.commits|)]
  }

  function Plain(c: Commit): Commit { c.(hasDiffs := false) }

  predicate SameCommits(a: seq<Commit>, b: seq<Commit>) {
    |a| == |b| && forall i :: 0 <= i < |a| ==> Plain(a[i]) == Plain(b[i])
  }

  predicate Ready(cfg: Config, st: State) {
    st.stop.Going? && st.diff.owner == |st.commits| && |st.diff.content| <= cfg.maxDiffSize && (Nonempty(st.diff) ==> st.commits != [])
  }

  lemma BodyLineParsed(cfg: Config, st: State, l: HunkLine)
    requires st.stop.Going? && InHunk(st.phase) && (l.NoNewline? ==> st.phase.HunkContentLine?)
    requires |st.diff.content + LineAdds(l)| <= cfg.maxDiffSize
    ensures Step(cfg, st, HunkLineText(l)) ==
      st.(phase := HunkContentLine, diff := st.diff.(content := st.diff.content + LineAdds(l)))
  {
    BodyLineKind(cfg.staged, st.phase, l);
    hide Classify, HunkLineText;
    assert l.Removed? || l.NoNewline? || l.Empty? ==> st.diff.content + LineAdds(l) == st.diff.content;
    assert l.Context? ==> LineAdds(l) == "\n";
    hide LineAdds;
    StepIs(cfg, st, HunkLineText(l));
    hide Step;
  }

  // A hunk's lines: the diff grows by what they add.
  lemma {:induction false} BodyParsed(cfg: Config, st: State, lines: seq<HunkLine>)
    requires st.stop.Going? && st.phase.HunkLineNumberLine? && st.diff.content == ""
    requires |BodyAdds(lines)| <= cfg.maxDiffSize && (lines != [] ==> !lines[0].NoNewline?)
    ensures Run(cfg, st, BodyText(lines)) ==
      st.(phase := if lines == [] then HunkLineNumberLine else HunkContentLine, diff := st.diff.(content := BodyAdds(lines)))
  {
    if lines != [] {
      hide Step, HunkLineText, LineAdds;
      var last := |lines| - 1;
      BodyParsed(cfg, st, lines[..last]);
      var text := BodyText(lines[..last]);
      assert BodyText(lines) == text + [HunkLineText(lines[last])];
      RunConcat(cfg, st, text, [HunkLineText(lines[last])]);
      var s := Run(cfg, st, text);
      RunOne(cfg, s, HunkLineText(lines[last]));
      hide Run, BodyText;
      BodyLineParsed(cfg, s, lines[last]);
    }
  }

  lemma HunkParsed(cfg: Config, st: State, h: Hunk)
    requires Ready(cfg, st) && st.commits != []
    requires (st.phase.ToFileLine? || st.phase.HunkContentLine?) && HunkFits(cfg, h)
    ensures Run(cfg, st, HunkText(h)) ==
      st.(phase := HunkContentLine, out := Sent(st), diff := Diff(|st.commits|, st.diff.path, h.start, false, BodyAdds(h.lines)))
  {
    hide Step, Run, HeaderText;
    var line := HeaderText(h);
    HeaderParsed(cfg, st, h);
    RunConcat(cfg, st, [line], BodyText(h.lines));
    RunOne(cfg, st, line);
    hide BodyText, Sent;
    BodyParsed(cfg, Step(cfg, st, line), h.lines);
  }

  lemma {:induction false} HeaderParsed(cfg: Config, st: State, h: Hunk)
    requires Ready(cfg, st) && st.commits != []
    requires (st.phase.ToFileLine? || st.phase.HunkContentLine?) && HunkFits(cfg, h)
    ensures Step(cfg, st, HeaderText(h)) ==
      st.(phase := HunkLineNumberLine, out := Sent(st), diff := Diff(|st.commits|, st.diff.path, h.start, false, ""))
  {
    HeaderKind(cfg.staged, st.phase, h);
    HeaderGivesStart(h);
    hide Classify, HeaderText, HeaderStart;
    StepIs(cfg, st, HeaderText(h));
    hide Step;
  }

  // The state after the "+++" line and the hunks hs of a file.
  ghost predicate AfterHunks(cfg: Config, st: State, s: State, hs: seq<Hunk>) {
    && Ready(cfg, s) && s.commits == st.commits && s.diff.path == st.diff.path && !s.diff.binary
    && s.phase == (if hs == [] then ToFileLine else HunkContentLine)
    && Sent(s) == st.out + HunksDiffs(|st.commits|, st.diff.path, hs)
    && (Nonempty(s.diff) <==> hs != [] && BodyAdds(hs[|hs| - 1].lines) != "")
  }

  lemma AfterHunksPush(cfg: Config, st: State, s: State, hs: seq<Hunk>, s': State)
    requires hs != [] && AfterHunks(cfg, st, s, hs[..|hs| - 1]) && st.commits != []
    requires |BodyAdds(hs[|hs| - 1].lines)| <= cfg.maxDiffSize
    requires var h := hs[|hs| - 1];
      s' == s.(phase := HunkContentLine, out := Sent(s), diff := Diff(|s.commits|, s.diff.path, h.start, false, BodyAdds(h.lines)))
    ensures AfterHunks(cfg, st, s', hs)
  {
    var h := hs[|hs| - 1];
    var diffs := HunksDiffs(|st.commits|, st.diff.path, hs[..|hs| - 1]);
    assert Sent(s') == Sent(s) + HunkDiffs(|st.commits|, st.diff.path, h);
    assert (st.out + diffs) + HunkDiffs(|st.commits|, st.diff.path, h) == st.out + (diffs + HunkDiffs(|st.commits|, st.diff.path, h));
    hide Sent, HunkDiffs, BodyAdds;
  }

  lemma {:induction false} HunksParsed(cfg: Config, st: State, hs: seq<Hunk>)
    requires Ready(cfg, st) && st.commits != [] && st.phase.ToFileLine? && !Nonempty(st.diff)
    requires forall h :: h in hs ==> HunkFits(cfg, h)
    ensures AfterHunks(cfg, st, Run(cfg, st, HunksText(hs)), hs)
  {
    if hs != [] {
      var last := |hs| - 1;
      HunksParsed(cfg, st, hs[..last]);
      assert HunksText(hs) == HunksText(hs[..last]) + HunkText(hs[last]);
      RunConcat(cfg, st, HunksText(hs[..last]), HunkText(hs[last]));
      hide Run, HunkText, HunksText, HunksDiffs, BodyAdds;
      var s := Run(cfg, st, HunksText(hs[..last]));
      assert hs[last] in hs;
      HunkParsed(cfg, s, hs[last]);
      AfterHunksPush(cfg, st, s, hs, Run(cfg, st, HunksText(hs)));
      hide AfterHunks;
    }
  }

  lemma RunPush(cfg: Config, st: State, lines: seq<string>, line: string)
    ensures Run(cfg, st, lines + [line]) == Step(cfg, Run(cfg, st, lines), line)
  {
    RunConcat(cfg, st, lines, [line]);
    RunOne(cfg, Run(cfg, st, lines), line);
  }

  // The state with the current diff sent and a fresh one for the same commit.
  function Opened(st: State): State
    requires st.commits != []
  {
    (if Nonempty(st.diff) then SetLast(st, Last(st).(hasDiffs := true)) else st).(out := Sent(st), diff := NewDiff(|st.commits|))
  }

  lemma DiffLineParsed(cfg: Config, st: State, names: string)
    requires cfg.maxDiffSize >= 0 && Ready(cfg, st) && st.commits != [] && BeforeFile(st.phase)
    ensures Step(cfg, st, "diff --git " + names + "\n") == Opened(st).(phase := DiffLine)
  {
    var line := "diff --git " + names + "\n";
    DiffLineKind(cfg.staged, st.phase, names);
    hide Classify;
    assert Handle(cfg, st, line) == Opened(st).(phase := DiffLine);
    StepIs(cfg, st, line);
    hide Step;
  }

  lemma ModeLineParsed(cfg: Config, st: State, h: Header)
    requires Ready(cfg, st) && (st.phase.DiffLine? || st.phase.ModeLine?)
    ensures Step(cfg, st, ModeText(h)) == st.(phase := ModeLine)
  {
    ModeLineKind(cfg.staged, st.phase, h);
    hide Classify, ModeText;
    StepIs(cfg, st, ModeText(h));
  }

  lemma {:induction false} ModesParsed(cfg: Config, st: State, hs: seq<Header>)
    requires Ready(cfg, st) && st.phase.DiffLine?
    ensures Run(cfg, st, ModesText(hs)) == st.(phase := if hs == [] then DiffLine else ModeLine)
  {
    if hs != [] {
      var last := |hs| - 1;
      ModesParsed(cfg, st, hs[..last]);
      assert ModesText(hs) == ModesText(hs[..last]) + [ModeText(hs[last])];
      hide Run, Step, ModesText, ModeText;
      RunPush(cfg, st, ModesText(hs[..last]), ModeText(hs[last]));
      ModeLineParsed(cfg, Run(cfg, st, ModesText(hs[..last])), hs[last]);
    }
  }

  lemma IndexLineParsed(cfg: Config, st: State, index: string)
    requires Ready(cfg, st) && (st.phase.DiffLine? || st.phase.ModeLine?)
    ensures Step(cfg, st, "index " + index + "\n") == st.(phase := IndexLine)
  {
    IndexLineKind(cfg.staged, st.phase, index);
    hide Classify;
    StepIs(cfg, st, "index " + index + "\n");
  }

  function TopPhase(f: FilePatch): Phase {
    if f.index.Some? then IndexLine else if f.headers != [] then ModeLine else DiffLine
  }

  // What comes before the file's text: nothing of it is kept.
  lemma TopParsed(cfg: Config, st: State, f: FilePatch)
    requires cfg.maxDiffSize >= 0 && Ready(cfg, st) && st.commits != [] && BeforeFile(st.phase)
    ensures Run(cfg, st, TopText(f)) == Opened(st).(phase := TopPhase(f))
    ensures var s := Opened(st);
      Ready(cfg, s) && s.commits != [] && s.diff == NewDiff(|st.commits|) && |s.commits| == |st.commits| && s.out == Sent(st)
  {
    hide Step, Run;
    var d, modes, index := "diff --git " + f.names + "\n", ModesText(f.headers), IndexText(f.index);
    assert TopText(f) == [d] + (modes + index);
    RunConcat(cfg, st, [d], modes + index);
    RunOne(cfg, st, d);
    DiffLineParsed(cfg, st, f.names);
    var s := Opened(st).(phase := DiffLine);
    assert Ready(cfg, s);
    hide Opened, TopText;
    RunConcat(cfg, s, modes, index);
    ModesParsed(cfg, s, f.headers);
    var s1 := Run(cfg, s, modes);
    hide ModesText;
    if f.index.Some? {
      RunOne(cfg, s1, "index " + f.index.value + "\n");
      IndexLineParsed(cfg, s1, f.index.value);
    } else {
      NoLines(cfg, s1);
    }
  }

  lemma NoLines(cfg: Config, st: State)
    ensures Run(cfg, st, []) == st
  {
  }

  lemma FromLineParsed(cfg: Config, st: State, from: string)
    requires Ready(cfg, st) && (st.phase.IndexLine? || st.phase.ModeLine?) && from != ""
    ensures Step(cfg, st, "--- " + from + "\n") == st.(phase := FromFileLine)
  {
    FromLineKind(cfg.staged, st.phase, from);
    hide Classify;
    StepIs(cfg, st, "--- " + from + "\n");
  }

  lemma ToLineParsed(cfg: Config, st: State, target: Name)
    requires Ready(cfg, st) && st.phase.FromFileLine? && TargetFits(cfg, target)
    ensures Step(cfg, st, "+++ " + NameText(target) + "\n") == st.(phase := ToFileLine, diff := st.diff.(path := PathOf(target)))
  {
    ToLineKind(cfg.staged, target);
    TargetCarried(cfg, target);
    hide Classify, PathFromToFileLine, NameText, PathOf, TargetFits;
    StepIs(cfg, st, "+++ " + NameText(target) + "\n");
  }

  lemma BinaryLineParsed(cfg: Config, st: State, from: string, target: Name)
    requires Ready(cfg, st) && st.phase.IndexLine? && BinaryFits(cfg, from, target)
    ensures Step(cfg, st, BinaryText(from, target)) ==
      st.(phase := BinaryFileLine, diff := if target.Absent? then st.diff else st.diff.(path := PathOf(target), binary := true))
  {
    BinaryLineKind(cfg.staged, from, target);
    BinaryCarried(cfg, from, target);
    hide Classify, PathFromBinaryLine, NameText, BinaryText, BinaryFits;
    StepIs(cfg, st, BinaryText(from, target));
  }

  lemma TargetParsed(cfg: Config, st: State, from: string, target: Name)
    requires Ready(cfg, st) && (st.phase.IndexLine? || st.phase.ModeLine?) && from != "" && TargetFits(cfg, target)
    ensures Run(cfg, st, TargetText(from, target)) == st.(phase := ToFileLine, diff := st.diff.(path := PathOf(target)))
  {
    hide Step, Run, TargetFits, NameText, PathOf;
    var m, p := "--- " + from + "\n", "+++ " + NameText(target) + "\n";
    assert TargetText(from, target) == [m] + [p];
    RunPush(cfg, st, [m], p);
    RunOne(cfg, st, m);
    FromLineParsed(cfg, st, from);
    ToLineParsed(cfg, st.(phase := FromFileLine), target);
  }

  // What files leave: their diffs, and the commit marked if one ends with content.
  ghost predicate AfterFiles(cfg: Config, st: State, s: State, diffs: seq<Diff>, content: bool) {
    && Ready(cfg, s) && st.commits != [] && SameCommits(s.commits, st.commits)
    && BeforeFile(s.phase)
    && Sent(s) == Sent(st) + diffs
    && (Marked(s) <==> Marked(st) || content)
  }

  lemma AfterFilesThen(cfg: Config, st: State, s: State, s': State, diffs: seq<Diff>, diffs': seq<Diff>, c: bool, c': bool)
    requires AfterFiles(cfg, st, s, diffs, c) && AfterFiles(cfg, s, s', diffs', c')
    ensures AfterFiles(cfg, st, s', diffs + diffs', c || c')
  {
    hide Ready, BeforeFile, Marked, Sent, Plain;
    assert (Sent(st) + diffs) + diffs' == Sent(st) + (diffs + diffs');
  }

  // From the opened diff to one the file leaves pending.
  lemma AfterOpened(cfg: Config, st: State, s: State, diffs: seq<Diff>)
    requires Ready(cfg, st) && st.commits != [] && Ready(cfg, s) && BeforeFile(s.phase)
    requires s.commits == Opened(st).commits && Sent(s) == Sent(st) + diffs
    ensures AfterFiles(cfg, st, s, diffs, Nonempty(s.diff))
  {
    hide Sent;
  }

  // The file's text, after its top.
  lemma TextParsed(cfg: Config, s: State, f: FilePatch)
    requires cfg.maxDiffSize >= 0 && Ready(cfg, s) && s.commits != [] && s.diff == NewDiff(|s.commits|) && s.phase == TopPhase(f)
    requires FileFits(cfg, f) && f.body.Text?
    ensures var s' := Run(cfg, s, TargetText(f.body.from, f.body.target) + HunksText(f.body.hunks));
      && Ready(cfg, s') && s'.commits == s.commits && s'.phase.HunkContentLine?
      && Sent(s') == s.out + FileDiffs(|s.commits|, f) && (Nonempty(s'.diff) <==> EndsWithContent(f))
  {
    var from, target, hunks := f.body.from, f.body.target, f.body.hunks;
    hide Run, TargetText, HunksText, HunksDiffs, HunkFits, BodyAdds, TargetFits, PathOf, BinaryFits;
    RunConcat(cfg, s, TargetText(from, target), HunksText(hunks));
    TargetParsed(cfg, s, from, target);
    HunksParsed(cfg, Run(cfg, s, TargetText(from, target)), hunks);
  }

  lemma BinaryParsed(cfg: Config, s: State, f: FilePatch)
    requires cfg.maxDiffSize >= 0 && Ready(cfg, s) && s.commits != [] && s.diff == NewDiff(|s.commits|) && s.phase == TopPhase(f)
    requires FileFits(cfg, f) && f.body.Binary?
    ensures var s' := Run(cfg, s, [BinaryText(f.body.from, f.body.target)]);
      && Ready(cfg, s') && s'.commits == s.commits && s'.phase.BinaryFileLine?
      && Sent(s') == s.out + FileDiffs(|s.commits|, f) && (Nonempty(s'.diff) <==> EndsWithContent(f))
  {
    hide Run, Step, BinaryText, BinaryFits, PathOf, TargetFits, HunkFits;
    RunOne(cfg, s, BinaryText(f.body.from, f.body.target));
    BinaryLineParsed(cfg, s, f.body.from, f.body.target);
  }

  // What the file's text leaves after its top.
  lemma RestParsed(cfg: Config, s: State, f: FilePatch)
    requires cfg.maxDiffSize >= 0 && Ready(cfg, s) && s.commits != [] && s.diff == NewDiff(|s.commits|) && s.phase == TopPhase(f)
    requires FileFits(cfg, f)
    ensures var s' := Run(cfg, s, RestText(f.body));
      && Ready(cfg, s') && s'.commits == s.commits && EndsFile(s'.phase)
      && Sent(s') == s.out + FileDiffs(|s.commits|, f) && (Nonempty(s'.diff) <==> EndsWithContent(f))
  {
    match f.body
    case NoBody =>
      NoLines(cfg, s);
      hide Run;
    case Text(from, target, hunks) =>
      TextParsed(cfg, s, f);
      hide Run, FileDiffs, EndsWithContent, TargetText, HunksText, FileFits;
    case Binary(from, target) =>
      BinaryParsed(cfg, s, f);
      hide Run, FileDiffs, EndsWithContent, BinaryText, FileFits;
  }

  /** One printed file adds exactly its diffs, whatever header lines it has. */
  lemma FileParsed(cfg: Config, st: State, f: FilePatch)
    requires cfg.maxDiffSize >= 0 && Ready(cfg, st) && st.commits != [] && BeforeFile(st.phase)
    requires FileFits(cfg, f)
    ensures AfterFiles(cfg, st, Run(cfg, st, FileText(f)), FileDiffs(|st.commits|, f), EndsWithContent(f))
    ensures EndsFile(Run(cfg, st, FileText(f)).phase)
  {
    TopParsed(cfg, st, f);
    var s := Opened(st).(phase := TopPhase(f));
    hide Run, TopText, RestText, Opened, FileDiffs, EndsWithContent, FileFits, Sent, TopPhase;
    RunConcat(cfg, st, TopText(f), RestText(f.body));
    RestParsed(cfg, s, f);
    AfterOpened(cfg, st, Run(cfg, st, FileText(f)), FileDiffs(|st.commits|, f));
    hide AfterFiles;
  }

  lemma SomeContentPush(fs: seq<FilePatch>)
    requires fs != []
    ensures SomeContent(fs) <==> SomeContent(fs[..|fs| - 1]) || EndsWithContent(fs[|fs| - 1])
  {
    hide EndsWithContent;
    assert forall f :: f in fs <==> f in fs[..|fs| - 1] || f == fs[|fs| - 1];
  }

  lemma {:induction false} FilesParsed(cfg: Config, st: State, fs: seq<FilePatch>)
    requires cfg.maxDiffSize >= 0 && Ready(cfg, st) && st.commits != [] && BeforeFile(st.phase)
    requires forall f :: f in fs ==> FileFits(cfg, f)
    ensures AfterFiles(cfg, st, Run(cfg, st, FilesText(fs)), FilesDiffs(|st.commits|, fs), SomeContent(fs))
    ensures fs != [] ==> EndsFile(Run(cfg, st, FilesText(fs)).phase)
  {
    hide FileFits, EndsWithContent, Sent, Marked, Plain, FileText, FileDiffs;
    if fs != [] {
      var last := |fs| - 1;
      FilesParsed(cfg, st, fs[..last]);
      var s := Run(cfg, st, FilesText(fs[..last]));
      assert fs[last] in fs && |s.commits| == |st.commits|;
      FileParsed(cfg, s, fs[last]);
      assert FilesText(fs) == FilesText(fs[..last]) + FileText(fs[last]);
      RunConcat(cfg, st, FilesText(fs[..last]), FileText(fs[last]));
      hide Run, FilesText, SomeContent;
      AfterFilesThen(cfg, st, s, Run(cfg, st, FilesText(fs)), FilesDiffs(|st.commits|, fs[..last]), FileDiffs(|st.commits|, fs[last]),
                     SomeContent(fs[..last]), EndsWithContent(fs[last]));
      SomeContentPush(fs);
      hide AfterFiles;
    }
  }

  // ---------------------------------------------------------------- commits

  // The commits once the current diff is sent.
  function Noted(st: State): seq<Commit>
    requires Nonempty(st.diff) ==> st.commits != []
  {
    if Nonempty(st.diff) then SetLast(st, Last(st).(hasDiffs := true)).commits else st.commits
  }

  // The state after a commit line.
  function Committed(st: State, c: Commit): State
    requires Nonempty(st.diff) ==> st.commits != []
  {
    st.(phase := CommitLine, commits := Noted(st) + [c], out := Closed(st), diff := NewDiff(|st.commits| + 1))
  }

  lemma CommitLineParsed(cfg: Config, st: State, hash: string, refs: string)
    requires !cfg.staged && cfg.maxDiffSize >= 0 && Ready(cfg, st) && BeforeCommit(st.phase) && |hash| == 40
    ensures Step(cfg, st, "commit " + hash + refs + "\n") == Committed(st, Commit(hash, "", "", "", "", false))
  {
    var line := "commit " + hash + refs + "\n";
    CommitLineKind(st.phase, hash, refs);
    hide Classify;
    assert Handle(cfg, st, line) == OnCommit(st, line);
    assert OnCommit(st, line) == Committed(st, Commit(hash, "", "", "", "", false));
    hide OnCommit;
    StepIs(cfg, st, line);
    hide Step;
  }

  lemma CommittedReady(cfg: Config, st: State, c: Commit)
    requires cfg.maxDiffSize >= 0 && Ready(cfg, st)
    ensures var s := Committed(st, c); Ready(cfg, s) && s.commits != [] && s.phase.CommitLine?
  {
    NotedLength(st);
    hide Noted, Closed;
  }

  lemma CommitParsed(cfg: Config, st: State, e: Entry)
    requires !cfg.staged && cfg.maxDiffSize >= 0 && Ready(cfg, st) && BeforeCommit(st.phase) && |e.hash| == 40
    ensures Run(cfg, st, CommitText(e)) ==
      Committed(st, Commit(e.hash, "", "", "", "", false)).(phase := if e.merge.Some? then MergeLine else CommitLine)
  {
    hide Step, Run, Committed;
    var line := "commit " + e.hash + e.refs + "\n";
    CommitLineParsed(cfg, st, e.hash, e.refs);
    RunOne(cfg, st, line);
    var s := Committed(st, Commit(e.hash, "", "", "", "", false));
    CommittedReady(cfg, st, Commit(e.hash, "", "", "", "", false));
    if e.merge.Some? {
      RunPush(cfg, st, [line], "Merge: " + e.merge.value + "\n");
      MergeLineParsed(cfg, s, e.merge.value);
    } else {
      assert CommitText(e) == [line];
    }
  }

  lemma MergeLineParsed(cfg: Config, st: State, parents: string)
    requires !cfg.staged && Ready(cfg, st) && st.phase.CommitLine?
    ensures Step(cfg, st, "Merge: " + parents + "\n") == st.(phase := MergeLine)
  {
    MergeKind(parents);
    hide Classify;
    StepIs(cfg, st, "Merge: " + parents + "\n");
  }

  // The current commit changes, and the phase.
  function Noting(st: State, c: Commit, at: Phase): State
    requires st.commits != []
  {
    SetLast(st, c).(phase := at)
  }

  lemma AuthorParsed(cfg: Config, st: State, text: string)
    requires !cfg.staged && Ready(cfg, st) && st.commits != [] && (st.phase.CommitLine? || st.phase.MergeLine?)
    ensures Step(cfg, st, "Author: " + text + "\n") == Noting(st, Last(st).(author := TrimSpace(text + "\n")), AuthorLine)
  {
    AuthorKind(st.phase, text);
    hide Classify, TrimSpace;
    StepIs(cfg, st, "Author: " + text + "\n");
  }

  lemma AuthorDateParsed(cfg: Config, st: State, text: string)
    requires !cfg.staged && Ready(cfg, st) && st.commits != [] && st.phase.AuthorLine?
    requires cfg.dateParses(TrimSpace(text + "\n"))
    ensures Step(cfg, st, "AuthorDate: " + text + "\n") == Noting(st, Last(st).(date := TrimSpace(text + "\n")), AuthorDateLine)
  {
    AuthorDateKind(text);
    hide Classify, TrimSpace;
    StepIs(cfg, st, "AuthorDate: " + text + "\n");
  }

  lemma CommitterParsed(cfg: Config, st: State, text: string)
    requires !cfg.staged && Ready(cfg, st) && st.commits != [] && st.phase.AuthorDateLine?
    ensures Step(cfg, st, "Commit: " + text + "\n") == Noting(st, Last(st).(committer := TrimSpace(text + "\n")), CommitterLine)
  {
    CommitterKind(text);
    hide Classify, TrimSpace;
    StepIs(cfg, st, "Commit: " + text + "\n");
  }

  lemma CommitterDateParsed(cfg: Config, st: State, text: string)
    requires !cfg.staged && Ready(cfg, st) && st.phase.CommitterLine?
    ensures Step(cfg, st, "CommitDate: " + text + "\n") == st.(phase := CommitterDateLine)
  {
    CommitterDateKind(text);
    hide Classify;
    StepIs(cfg, st, "CommitDate: " + text + "\n");
  }

  // Where an entry can end.
  predicate EndsEntry(at: Phase) { at.CommitterDateLine? || at.MessageLine? || at.NotesLine? || at.ParseFailure? || EndsFile(at) }

  function AfterEmptyLine(at: Phase): Phase {
    match at
    case CommitterDateLine => MessageStartLine
    case MessageLine => MessageEndLine
    case NotesLine => NotesEndLine
    case _ => at
  }

  lemma EmptyLineParsed(cfg: Config, st: State)
    requires !cfg.staged && Ready(cfg, st)
    requires EndsEntry(st.phase)
    ensures Step(cfg, st, "\n") == st.(phase := AfterEmptyLine(st.phase))
  {
    EmptyLineKind(st.phase);
    hide Classify;
    StepIs(cfg, st, "\n");
  }

  // Four lines one after the other.
  lemma RunFour(cfg: Config, st: State, a: string, b: string, c: string, d: string)
    ensures Run(cfg, st, [a, b, c, d]) == Step(cfg, Step(cfg, Step(cfg, Step(cfg, st, a), b), c), d)
  {
    assert [a, b, c, d] == [a, b, c] + [d] && [a, b, c] == [a, b] + [c] && [a, b] == [a] + [b];
    hide Step, Run;
    RunPush(cfg, st, [a, b, c], d);
    RunPush(cfg, st, [a, b], c);
    RunPush(cfg, st, [a], b);
    RunOne(cfg, st, a);
  }

  lemma HeadParsed(cfg: Config, st: State, e: Entry)
    requires !cfg.staged && cfg.maxDiffSize >= 0 && Ready(cfg, st) && BeforeCommit(st.phase) && EntryFits(cfg, e)
    ensures Run(cfg, st, HeadText(e)) == Committed(st, Heading(e)).(phase := CommitterDateLine)
  {
    hide Step, Run, TrimSpace, FileFits;
    CommitParsed(cfg, st, e);
    var a, b, c, d := "Author: " + e.author + "\n", "AuthorDate: " + e.authorDate + "\n",
      "Commit: " + e.committer + "\n", "CommitDate: " + e.commitDate + "\n";
    RunConcat(cfg, st, CommitText(e), [a, b, c, d]);
    RunFour(cfg, Run(cfg, st, CommitText(e)), a, b, c, d);
    HeadSteps(cfg, st, if e.merge.Some? then MergeLine else CommitLine, e);
    hide CommitText, Committed;
  }

  lemma HeadSteps(cfg: Config, st: State, at: Phase, e: Entry)
    requires !cfg.staged && cfg.maxDiffSize >= 0 && Ready(cfg, st) && EntryFits(cfg, e) && (at.CommitLine? || at.MergeLine?)
    ensures var s := Committed(st, Commit(e.hash, "", "", "", "", false)).(phase := at);
      Step(cfg, Step(cfg, Step(cfg, Step(cfg, s, "Author: " + e.author + "\n"), "AuthorDate: " + e.authorDate + "\n"),
        "Commit: " + e.committer + "\n"), "CommitDate: " + e.commitDate + "\n")
        == Committed(st, Heading(e)).(phase := CommitterDateLine)
  {
    hide Step, TrimSpace, FileFits;
    var c0 := Commit(e.hash, "", "", "", "", false);
    var c1 := c0.(author := TrimSpace(e.author + "\n"));
    var c2 := c1.(date := TrimSpace(e.authorDate + "\n"));
    NotingCommitted(st, c0, at, c1, AuthorLine);
    NotingCommitted(st, c1, AuthorLine, c2, AuthorDateLine);
    NotingCommitted(st, c2, AuthorDateLine, Heading(e), CommitterLine);
    hide Committed, Noting;
    AuthorParsed(cfg, Committed(st, c0).(phase := at), e.author);
    AuthorDateParsed(cfg, Committed(st, c1).(phase := AuthorLine), e.authorDate);
    CommitterParsed(cfg, Committed(st, c2).(phase := AuthorDateLine), e.committer);
    CommitterDateParsed(cfg, Committed(st, Heading(e)).(phase := CommitterLine), e.commitDate);
  }

  lemma NotingCommitted(st: State, c: Commit, at: Phase, c': Commit, at': Phase)
    requires Nonempty(st.diff) ==> st.commits != []
    ensures var s := Committed(st, c).(phase := at);
      s.commits != [] && Last(s) == c && Noting(s, c', at') == Committed(st, c').(phase := at')
      && s.diff == NewDiff(|s.commits|) && s.stop == st.stop && Committed(st, c).phase == CommitLine
  {
    hide Noted, Closed;
    assert (Noted(st) + [c])[|Noted(st)| := c'] == Noted(st) + [c'];
    NotedLength(st);
  }

  lemma NotedLength(st: State)
    requires Nonempty(st.diff) ==> st.commits != []
    ensures |Noted(st)| == |st.commits|
  {
  }

  lemma MessageLineParsed(cfg: Config, st: State, m: string)
    requires !cfg.staged && Ready(cfg, st) && st.commits != []
    requires st.phase.MessageStartLine? || st.phase.MessageLine? || st.phase.NotesStartLine? || st.phase.NotesLine?
    ensures Step(cfg, st, "    " + m + "\n") == Noting(st, Last(st).(message := Last(st).message + (m + "\n")),
      if st.phase.MessageStartLine? || st.phase.MessageLine? then MessageLine else NotesLine)
  {
    MessageLineKind(st.phase, m);
    hide Classify, TrimSpace;
    StepIs(cfg, st, "    " + m + "\n");
  }

  // More text for the current commit's message.
  function Telling(st: State, text: string, at: Phase): State
    requires st.commits != []
  {
    Noting(st, Last(st).(message := Last(st).message + text), at)
  }

  lemma TellingTwice(cfg: Config, st: State, a: string, at: Phase, b: string, at': Phase)
    requires Ready(cfg, st) && st.commits != []
    ensures var s := Telling(st, a, at);
      && Ready(cfg, s) && s.commits != [] && s.phase == at && Telling(s, b, at') == Telling(st, a + b, at')
      && s.(phase := at') == Telling(st, a, at')
  {
    var start := Last(st).message;
    assert start + a + b == start + (a + b);
    hide Ready;
    assert Ready(cfg, Telling(st, a, at)) by { TellingReady(cfg, st, a, at); }
  }

  lemma TellingReady(cfg: Config, st: State, a: string, at: Phase)
    requires Ready(cfg, st) && st.commits != []
    ensures Ready(cfg, Telling(st, a, at))
  {
  }

  lemma TellingNothing(st: State)
    requires st.commits != []
    ensures Telling(st, "", st.phase) == st
  {
    assert Last(st).message + "" == Last(st).message;
    assert st.commits[|st.commits| - 1 := Last(st)] == st.commits;
  }

  lemma MessageLineTold(cfg: Config, st: State, m: string)
    requires !cfg.staged && Ready(cfg, st) && st.commits != []
    requires st.phase.MessageStartLine? || st.phase.MessageLine? || st.phase.NotesStartLine? || st.phase.NotesLine?
    ensures Step(cfg, st, "    " + m + "\n") ==
      Telling(st, m + "\n", if st.phase.MessageStartLine? || st.phase.MessageLine? then MessageLine else NotesLine)
  {
    MessageLineParsed(cfg, st, m);
    hide Step;
  }

  // The lines of a message, or of notes: each is added to the commit's message.
  lemma {:induction false} MessageParsed(cfg: Config, st: State, ms: seq<string>)
    requires !cfg.staged && Ready(cfg, st) && st.commits != [] && (st.phase.MessageStartLine? || st.phase.NotesStartLine?)
    ensures Run(cfg, st, MessageText(ms)) ==
      Telling(st, MessageLines(ms), if ms == [] then st.phase else if st.phase.MessageStartLine? then MessageLine else NotesLine)
  {
    if ms != [] {
      var last := |ms| - 1;
      MessageParsed(cfg, st, ms[..last]);
      var line, at := "    " + ms[last] + "\n", if st.phase.MessageStartLine? then MessageLine else NotesLine;
      assert MessageText(ms) == MessageText(ms[..last]) + [line];
      RunPush(cfg, st, MessageText(ms[..last]), line);
      assert MessageLines(ms) == MessageLines(ms[..last]) + (ms[last] + "\n");
      TellingTwice(cfg, st, MessageLines(ms[..last]), if last == 0 then st.phase else at, ms[last] + "\n", at);
      hide Run, MessageText, MessageLines, Telling, Ready, Step;
      MessageLineTold(cfg, Run(cfg, st, MessageText(ms[..last])), ms[last]);
    } else {
      TellingNothing(st);
    }
  }

  lemma NotesStartParsed(cfg: Config, st: State, head: string)
    requires !cfg.staged && Ready(cfg, st) && st.commits != [] && st.phase.MessageEndLine?
    ensures Step(cfg, st, "Notes" + head + "\n") == Telling(st, "\n" + ("Notes" + head + "\n"), NotesStartLine)
  {
    NotesStartKind(head);
    assert Last(st).message + "\n" + ("Notes" + head + "\n") == Last(st).message + ("\n" + ("Notes" + head + "\n"));
    hide Classify, TrimSpace;
    StepIs(cfg, st, "Notes" + head + "\n");
  }

  lemma NotesHeadParsed(cfg: Config, st: State, head: string)
    requires !cfg.staged && Ready(cfg, st) && st.commits != [] && st.phase.MessageLine?
    ensures Run(cfg, st, ["\n"] + ["Notes" + head + "\n"]) == Telling(st, "\n" + ("Notes" + head + "\n"), NotesStartLine)
  {
    var line := "Notes" + head + "\n";
    RunPush(cfg, st, ["\n"], line);
    RunOne(cfg, st, "\n");
    hide Run, Step;
    EmptyLineParsed(cfg, st);
    NotesStartParsed(cfg, st.(phase := MessageEndLine), head);
  }

  // Notes after a message are read into it.
  lemma NotesParsed(cfg: Config, st: State, n: Notes)
    requires !cfg.staged && Ready(cfg, st) && st.commits != [] && st.phase.MessageLine? && n.lines != []
    ensures Run(cfg, st, NotesText(Some(n))) ==
      Telling(st, "\n" + ("Notes" + n.head + "\n") + MessageLines(n.lines), NotesLine)
  {
    var head, text := "Notes" + n.head + "\n", "\n" + ("Notes" + n.head + "\n");
    assert NotesText(Some(n)) == ["\n"] + [head] + MessageText(n.lines);
    hide Run, MessageText, MessageLines, Telling, Ready;
    RunConcat(cfg, st, ["\n"] + [head], MessageText(n.lines));
    NotesHeadParsed(cfg, st, n.head);
    TellingTwice(cfg, st, text, NotesStartLine, MessageLines(n.lines), NotesLine);
    MessageParsed(cfg, Telling(st, text, NotesStartLine), n.lines);
  }

  // Lines that are skipped on the way to the next diff or commit.
  lemma {:induction false} SkippedParsed(cfg: Config, st: State, lines: seq<string>)
    requires !cfg.staged && st.stop.Going? && st.phase.ParseFailure? && forall l :: l in lines ==> Skippable(l)
    ensures Run(cfg, st, lines) == st
  {
    if lines != [] {
      var last := |lines| - 1;
      assert lines == lines[..last] + [lines[last]];
      hide Step, Run, Skippable;
      SkippedParsed(cfg, st, lines[..last]);
      RunPush(cfg, st, lines[..last], lines[last]);
      SkippedStep(cfg, st, lines[last]);
    }
  }

  lemma SkippedStep(cfg: Config, st: State, line: string)
    requires !cfg.staged && st.stop.Going? && st.phase.ParseFailure? && Skippable(line)
    ensures Step(cfg, st, line) == st
  {
    SkippedKind(line);
    hide Classify, Skippable;
  }

  lemma {:induction false} MessageSkippable(ms: seq<string>)
    ensures forall l :: l in MessageText(ms) ==> Skippable(l)
  {
    if ms != [] { MessageSkippable(ms[..|ms| - 1]); }
  }

  lemma NotesSkippable(notes: Option<Notes>)
    ensures forall l :: l in NotesText(notes) ==> Skippable(l)
  {
    if notes.Some? {
      MessageSkippable(notes.value.lines);
      hide MessageText;
    }
  }

  // Where the opening of an entry ends.
  function OpeningEnd(e: Entry): Phase {
    if e.message == [] then (if e.notes.None? then CommitterDateLine else ParseFailure)
    else if e.notes.None? then MessageLine else NotesLine
  }

  // The commit as the opening leaves it.
  function Began(st: State, e: Entry): State
    requires Nonempty(st.diff) ==> st.commits != []
  {
    Committed(st, Record(e)).(phase := OpeningEnd(e))
  }

  // The commit as its message leaves it.
  function Messaged(st: State, e: Entry): State
    requires Nonempty(st.diff) ==> st.commits != []
  {
    Committed(st, Heading(e).(message := MessageLines(e.message))).(phase := if e.message == [] then CommitterDateLine else MessageLine)
  }

  lemma MessagedIs(cfg: Config, st: State, e: Entry)
    requires cfg.maxDiffSize >= 0 && Ready(cfg, st)
    ensures var s := Messaged(st, e); var c := Heading(e).(message := MessageLines(e.message));
      && Ready(cfg, s) && s.commits != [] && Last(s) == c && s.phase == (if e.message == [] then CommitterDateLine else MessageLine)
      && forall c', at' :: Noting(s, c', at') == Committed(st, c').(phase := at')
  {
    hide TrimSpace, MessageLines;
    var c, at := Heading(e).(message := MessageLines(e.message)), if e.message == [] then CommitterDateLine else MessageLine;
    CommittedReady(cfg, st, c);
    NotingCommitted(st, c, at, c, at);
    hide Committed;
    forall c', at' ensures Noting(Messaged(st, e), c', at') == Committed(st, c').(phase := at') {
      NotingCommitted(st, c, at, c', at');
    }
  }

  lemma MessageRun(cfg: Config, st: State, e: Entry)
    requires !cfg.staged && cfg.maxDiffSize >= 0 && Ready(cfg, st)
    ensures Run(cfg, Committed(st, Heading(e)).(phase := CommitterDateLine), if e.message == [] then [] else ["\n"] + MessageText(e.message))
      == Messaged(st, e)
  {
    var s, c := Committed(st, Heading(e)).(phase := CommitterDateLine), Heading(e).(message := MessageLines(e.message));
    CommittedReady(cfg, st, Heading(e));
    NotingCommitted(st, Heading(e), MessageStartLine, c, MessageLine);
    assert "" + MessageLines(e.message) == MessageLines(e.message);
    if e.message == [] {
      NoLines(cfg, s);
      hide Run, Committed, TrimSpace;
    } else {
      hide Run, Committed, TrimSpace, MessageText, MessageLines, Noting, Step;
      RunConcat(cfg, s, ["\n"], MessageText(e.message));
      RunOne(cfg, s, "\n");
      EmptyLineParsed(cfg, s);
      MessageParsed(cfg, s.(phase := MessageStartLine), e.message);
    }
  }

  // A commit, its message and its notes.
  lemma OpeningRun(cfg: Config, st: State, e: Entry)
    requires !cfg.staged && cfg.maxDiffSize >= 0 && Ready(cfg, st) && BeforeCommit(st.phase) && EntryFits(cfg, e)
    ensures Run(cfg, st, OpeningText(e)) == Began(st, e)
  {
    var message := if e.message == [] then [] else ["\n"] + MessageText(e.message);
    hide Run, HeadText, MessageText, NotesText, Committed, Began, Messaged, Heading;
    RunConcat(cfg, st, HeadText(e) + message, NotesText(e.notes));
    RunConcat(cfg, st, HeadText(e), message);
    HeadParsed(cfg, st, e);
    MessageRun(cfg, st, e);
    NotesRun(cfg, st, e);
  }

  lemma NotesRun(cfg: Config, st: State, e: Entry)
    requires !cfg.staged && cfg.maxDiffSize >= 0 && Ready(cfg, st) && EntryFits(cfg, e)
    ensures Run(cfg, Messaged(st, e), NotesText(e.notes)) == Began(st, e)
  {
    var s := Messaged(st, e);
    MessagedIs(cfg, st, e);
    RecordIs(e);
    assert e.notes.Some? ==> e.notes.value.lines != [];
    if e.notes.None? {
      NoLines(cfg, s);
      hide Run, Committed, TrimSpace, MessageLines, Record, Heading;
    } else if e.message == [] {
      UnreadNotes(cfg, s, e.notes.value);
      hide Run, Committed, TrimSpace, MessageLines, Record, Heading, NotesText;
    } else {
      NotesParsed(cfg, s, e.notes.value);
      assert Noting(s, Record(e), NotesLine) == Committed(st, Record(e)).(phase := NotesLine);
      hide Run, Committed, TrimSpace, MessageLines, Record, Heading, NotesText, Noting, Messaged;
    }
  }

  // What the notes make of the commit.
  lemma RecordIs(e: Entry)
    ensures var c := Heading(e).(message := MessageLines(e.message));
      Record(e) == if e.message == [] || e.notes.None? then c
        else c.(message := c.message + ("\n" + ("Notes" + e.notes.value.head + "\n") + MessageLines(e.notes.value.lines)))
  {
    hide TrimSpace, MessageLines;
    assert MessageLines(e.message) + "" == MessageLines(e.message);
  }

  // Notes without a message are skipped.
  lemma UnreadNotes(cfg: Config, st: State, n: Notes)
    requires !cfg.staged && Ready(cfg, st) && st.phase.CommitterDateLine?
    ensures Run(cfg, st, NotesText(Some(n))) == st.(phase := ParseFailure)
  {
    UnreadStart(cfg, st, n.head);
    MessageSkippable(n.lines);
    assert NotesText(Some(n)) == (["\n"] + ["Notes" + n.head + "\n"]) + MessageText(n.lines);
    assert st.stop.Going?;
    hide *;
    RunConcat(cfg, st, ["\n"] + ["Notes" + n.head + "\n"], MessageText(n.lines));
    SkippedParsed(cfg, st.(phase := ParseFailure), MessageText(n.lines));
  }

  lemma UnreadStart(cfg: Config, st: State, head: string)
    requires !cfg.staged && Ready(cfg, st) && st.phase.CommitterDateLine?
    ensures Run(cfg, st, ["\n"] + ["Notes" + head + "\n"]) == st.(phase := ParseFailure)
  {
    var line, s := "Notes" + head + "\n", st.(phase := MessageStartLine);
    RunPush(cfg, st, ["\n"], line);
    RunOne(cfg, st, "\n");
    hide Run;
    assert Step(cfg, st, "\n") == s by { EmptyLineParsed(cfg, st); }
    UnreadNotesKind(head);
    hide Classify;
    StepIs(cfg, s, line);
  }

  // What the opening of an entry leaves.
  lemma OpeningParsed(cfg: Config, st: State, e: Entry)
    requires !cfg.staged && cfg.maxDiffSize >= 0 && Ready(cfg, st) && BeforeCommit(st.phase) && EntryFits(cfg, e)
    ensures var s := Run(cfg, st, OpeningText(e));
      && Ready(cfg, s) && s.phase == OpeningEnd(e) && s.commits == Noted(st) + [Record(e)] && |s.commits| == |st.commits| + 1
      && Sent(s) == Closed(st) && !Marked(s)
  {
    OpeningRun(cfg, st, e);
    NotedLength(st);
    hide Run, OpeningText, Noted, Closed, OpeningEnd, TrimSpace, MessageLines, NotesLines, EntryFits;
    assert Sent(Began(st, e)) == Closed(st) + [];
  }

  // ---------------------------------------------------------------- entries

  // What an entry leaves: the diffs before it closed, its own to be closed, and its commit.
  ghost predicate AfterEntry(cfg: Config, s: State, closed: seq<Diff>, commits: seq<Commit>) {
    Ready(cfg, s) && s.commits != [] && Closed(s) == closed && SameCommits(s.commits, commits)
  }

  lemma EmptyLineKeeps(cfg: Config, st: State)
    requires !cfg.staged && EndsEntry(st.phase) && Ready(cfg, st)
    ensures var s := Run(cfg, st, ["\n"]);
      s == st.(phase := AfterEmptyLine(st.phase)) && BeforeFile(s.phase) && Ready(cfg, s) && Closed(s) == Closed(st) && Sent(s) == Sent(st)
      && (st.commits != [] ==> Marked(s) == Marked(st))
  {
    RunOne(cfg, st, "\n");
    EmptyLineParsed(cfg, st);
    hide Step, Run;
  }

  lemma NotedSame(st: State)
    requires Nonempty(st.diff) ==> st.commits != []
    ensures SameCommits(Noted(st), st.commits)
  {
  }

  lemma SameThen(a: seq<Commit>, b: seq<Commit>, c: Commit, d: seq<Commit>)
    requires SameCommits(a, b + [c]) && SameCommits(b, d)
    ensures SameCommits(a, d + [c])
  {
    hide Plain;
    assert forall i :: 0 <= i < |b| ==> (b + [c])[i] == b[i] && (d + [c])[i] == d[i];
  }

  // The files of the current commit, if any, when all before it has been sent.
  ghost predicate AfterOwnFiles(cfg: Config, st: State, s: State, closed: seq<Diff>, fs: seq<FilePatch>) {
    && Ready(cfg, s) && s.commits != [] && SameCommits(s.commits, st.commits)
    && Closed(s) == closed + FilesDiffs(|st.commits|, fs) + (if SomeContent(fs) then [] else [Bare(|st.commits|)])
    && (if fs == [] then s == st else EndsFile(s.phase))
  }

  lemma AfterFilesIs(cfg: Config, st: State, s: State, diffs: seq<Diff>, content: bool)
    requires AfterFiles(cfg, st, s, diffs, content)
    ensures Ready(cfg, s) && s.commits != [] && SameCommits(s.commits, st.commits) && |s.commits| == |st.commits|
    ensures Closed(s) == Sent(st) + diffs + if Marked(st) || content then [] else [Bare(|st.commits|)]
  {
    hide Sent, Marked, Plain, Ready;
  }

  lemma OwnFilesParsed(cfg: Config, st: State, closed: seq<Diff>, fs: seq<FilePatch>)
    requires !cfg.staged && cfg.maxDiffSize >= 0 && Ready(cfg, st) && st.commits != [] && EndsEntry(st.phase)
    requires Sent(st) == closed && !Marked(st) && forall f :: f in fs ==> FileFits(cfg, f)
    ensures AfterOwnFiles(cfg, st, Run(cfg, st, if fs == [] then [] else ["\n"] + FilesText(fs)), closed, fs)
  {
    if fs == [] {
      NoLines(cfg, st);
      assert closed + FilesDiffs(|st.commits|, fs) == closed;
      hide Run, Sent, Marked;
    } else {
      hide Run, FilesText, FilesDiffs, FileFits, SomeContent, Sent, Marked, Plain, Closed, Ready, SameCommits, AfterFiles;
      RunConcat(cfg, st, ["\n"], FilesText(fs));
      EmptyLineKeeps(cfg, st);
      var s := Run(cfg, st, ["\n"]);
      FilesParsed(cfg, s, fs);
      AfterFilesIs(cfg, s, Run(cfg, s, FilesText(fs)), FilesDiffs(|st.commits|, fs), SomeContent(fs));
    }
  }

  lemma EntryParsed(cfg: Config, st: State, e: Entry)
    requires !cfg.staged && cfg.maxDiffSize >= 0 && Ready(cfg, st) && BeforeCommit(st.phase) && EntryFits(cfg, e)
    ensures var s := Run(cfg, st, EntryText(e));
      && EndsEntry(s.phase) && AfterEntry(cfg, s, Closed(st) + EntryDiffs(|st.commits| + 1, e), st.commits + [Record(e)])
      && (s.phase.NotesLine? <==> EndsWithNotes(e)) && (EndsWithNotes(e) ==> Sent(s) == Closed(st) && !Marked(s))
  {
    hide Run, OpeningText, Noted, Record, FilesDiffs, FileFits, FilesText, SomeContent, Sent, Marked, Closed, Plain;
    OpeningParsed(cfg, st, e);
    NotedSame(st);
    RunConcat(cfg, st, OpeningText(e), if e.files == [] then [] else ["\n"] + FilesText(e.files));
    var s0 := Run(cfg, st, OpeningText(e));
    OwnFilesParsed(cfg, s0, Closed(st), e.files);
    var s := Run(cfg, st, EntryText(e));
    var bare := if SomeContent(e.files) then [] else [Bare(|st.commits| + 1)];
    assert Closed(st) + FilesDiffs(|st.commits| + 1, e.files) + bare == Closed(st) + (FilesDiffs(|st.commits| + 1, e.files) + bare);
    SameThen(s.commits, Noted(st), Record(e), st.commits);
  }

  // An entry that comes after notes: nothing of it is read but its files.
  lemma SwallowedRun(cfg: Config, st: State, e: Entry)
    requires !cfg.staged && Ready(cfg, st) && st.phase.NotesEndLine?
    ensures Run(cfg, st, OpeningText(e)) == st.(phase := ParseFailure)
  {
    SwallowedStep(cfg, st, e.hash + e.refs);
    Assoc("commit ", e.hash, e.refs);
    OpeningSkippable(e);
    assert st.stop.Going?;
    hide *;
    var line := "commit " + e.hash + e.refs + "\n";
    var rest := OpeningText(e)[1..];
    assert OpeningText(e) == [line] + rest;
    RunConcat(cfg, st, [line], rest);
    RunOne(cfg, st, line);
    SkippedParsed(cfg, st.(phase := ParseFailure), rest);
  }

  lemma SwallowedStep(cfg: Config, st: State, hash: string)
    requires !cfg.staged && Ready(cfg, st) && st.phase.NotesEndLine?
    ensures Step(cfg, st, "commit " + hash + "\n") == st.(phase := ParseFailure)
  {
    var line := "commit " + hash + "\n";
    Prefixed("commit ", hash + "\n");
    Assoc("commit ", hash, "\n");
    hide Starts;
    SwallowedKind(line);
    hide Classify;
    StepIs(cfg, st, line);
  }

  lemma OpeningSkippable(e: Entry)
    ensures OpeningText(e) != [] && OpeningText(e)[0] == "commit " + e.hash + e.refs + "\n"
    ensures forall l :: l in OpeningText(e)[1..] ==> Skippable(l)
  {
    HeadSkippable(e);
    MessageSkippable(e.message);
    NotesSkippable(e.notes);
    assert Skippable("\n");
    var head, message := HeadText(e), if e.message == [] then [] else ["\n"] + MessageText(e.message);
    assert OpeningText(e)[1..] == head[1..] + message + NotesText(e.notes);
    hide Skippable, HeadText, MessageText, NotesText;
  }

  lemma HeadSkippable(e: Entry)
    ensures HeadText(e) != [] && HeadText(e)[0] == "commit " + e.hash + e.refs + "\n"
    ensures forall l :: l in HeadText(e)[1..] ==> Skippable(l)
  {
    var tail := ["Author: " + e.author + "\n", "AuthorDate: " + e.authorDate + "\n",
      "Commit: " + e.committer + "\n", "CommitDate: " + e.commitDate + "\n"];
    if e.merge.Some? {
      assert HeadText(e)[1..] == ["Merge: " + e.merge.value + "\n"] + tail;
    } else {
      assert HeadText(e)[1..] == tail;
    }
  }

  lemma SwallowedParsed(cfg: Config, st: State, e: Entry)
    requires !cfg.staged && cfg.maxDiffSize >= 0 && Ready(cfg, st) && st.commits != [] && st.phase.NotesEndLine? && EntryFits(cfg, e)
    requires !Marked(st)
    ensures var s := Run(cfg, st, EntryText(e));
      && EndsEntry(s.phase) && !s.phase.NotesLine? && Ready(cfg, s) && s.commits != [] && SameCommits(s.commits, st.commits)
      && Closed(s) == Sent(st) + EntryDiffs(|st.commits|, e)
  {
    hide Run, OpeningText, FilesDiffs, FileFits, FilesText, SomeContent, Plain;
    SwallowedRun(cfg, st, e);
    RunConcat(cfg, st, OpeningText(e), if e.files == [] then [] else ["\n"] + FilesText(e.files));
    var s0 := st.(phase := ParseFailure);
    assert Sent(s0) == Sent(st) && !Marked(s0);
    hide Sent, Marked, Closed;
    OwnFilesParsed(cfg, s0, Sent(st), e.files);
    var bare := if SomeContent(e.files) then [] else [Bare(|st.commits|)];
    assert Sent(st) + FilesDiffs(|st.commits|, e.files) + bare == Sent(st) + (FilesDiffs(|st.commits|, e.files) + bare);
  }

  // ---------------------------------------------------------------- the whole log

  // What the parser has made of the first commits of a log.
  ghost predicate AfterLog(cfg: Config, s: State, es: seq<Entry>) {
    && AfterEntry(cfg, s, LogDiffs(Seen(es)), Records(Seen(es)))
    && EndsEntry(s.phase) && (s.phase.NotesLine? <==> Swallows(es))
    && (Swallows(es) ==> Sent(s) == LogDiffs(Seen(es)[..|Seen(es)| - 1]) && !Marked(s))
  }

  lemma RecordsPush(es: seq<Entry>, e: Entry)
    ensures Records(es + [e]) == Records(es) + [Record(e)] && LogDiffs(es + [e]) == LogDiffs(es) + EntryDiffs(|es| + 1, e)
  {
    hide Record, EntryDiffs;
    assert (es + [e])[..|es|] == es;
  }

  lemma {:induction false} RecordsLength(es: seq<Entry>)
    ensures |Records(es)| == |es|
  {
    if es != [] { RecordsLength(es[..|es| - 1]); }
  }

  lemma SeenReading(es: seq<Entry>, e: Entry)
    requires !Swallows(es)
    ensures Seen(es + [e]) == Seen(es) + [e] && (Swallows(es + [e]) <==> EndsWithNotes(e))
    ensures Records(Seen(es + [e])) == Records(Seen(es)) + [Record(e)]
    ensures LogDiffs(Seen(es + [e])) == LogDiffs(Seen(es)) + EntryDiffs(|Seen(es)| + 1, e)
    ensures Seen(es + [e])[..|Seen(es + [e])| - 1] == Seen(es)
  {
    assert (es + [e])[..|es|] == es;
    RecordsPush(Seen(es), e);
    assert (Seen(es) + [e])[..|Seen(es)|] == Seen(es);
    hide Record, EntryDiffs, EndsWithNotes, Records, LogDiffs;
  }

  lemma AfterEntryIs(cfg: Config, s: State, closed: seq<Diff>, commits: seq<Commit>)
    requires AfterEntry(cfg, s, closed, commits)
    ensures Ready(cfg, s) && s.commits != [] && Closed(s) == closed && SameCommits(s.commits, commits)
  {
  }

  lemma AfterLogFrom(cfg: Config, s: State, es: seq<Entry>)
    requires Ready(cfg, s) && s.commits != [] && Closed(s) == LogDiffs(Seen(es)) && SameCommits(s.commits, Records(Seen(es)))
    requires EndsEntry(s.phase) && (s.phase.NotesLine? <==> Swallows(es))
    requires Swallows(es) ==> Sent(s) == LogDiffs(Seen(es)[..|Seen(es)| - 1]) && !Marked(s)
    ensures AfterLog(cfg, s, es)
  {
    hide Ready, Closed, SameCommits, EndsEntry, Seen, LogDiffs, Records, Swallows, Sent, Marked;
  }

  // The next commit, when it is read.
  lemma ReadNext(cfg: Config, st: State, es: seq<Entry>, e: Entry)
    requires !cfg.staged && cfg.maxDiffSize >= 0 && Ready(cfg, st) && BeforeCommit(st.phase) && EntryFits(cfg, e)
    requires Closed(st) == LogDiffs(Seen(es)) && SameCommits(st.commits, Records(Seen(es))) && !Swallows(es)
    ensures AfterLog(cfg, Run(cfg, st, EntryText(e)), es + [e])
  {
    hide *;
    var s := Run(cfg, st, EntryText(e));
    EntryParsed(cfg, st, e);
    AfterEntryIs(cfg, s, Closed(st) + EntryDiffs(|st.commits| + 1, e), st.commits + [Record(e)]);
    SeenReading(es, e);
    RecordsLength(Seen(es));
    CommitsPush(s.commits, st.commits, Record(e), Records(Seen(es)));
    AfterLogFrom(cfg, s, es + [e]);
  }

  lemma CommitsPush(a: seq<Commit>, b: seq<Commit>, c: Commit, d: seq<Commit>)
    requires SameCommits(a, b + [c]) && SameCommits(b, d)
    ensures SameCommits(a, d + [c]) && |b| == |d|
  {
    SameThen(a, b, c, d);
  }

  lemma SameRecord(e: Entry, fs: seq<FilePatch>)
    ensures Record(e.(files := fs)) == Record(e)
  {
  }

  lemma SameFiles(owner: nat, a: Entry, b: Entry)
    requires a.files == b.files
    ensures EntryDiffs(owner, a) == EntryDiffs(owner, b)
  {
  }

  lemma SeenSwallowing(es: seq<Entry>, e: Entry)
    requires Swallows(es)
    ensures var seen := Seen(es); var front, x := seen[..|seen| - 1], seen[|seen| - 1].(files := e.files);
      && !Swallows(es + [e]) && Seen(es + [e]) == front + [x]
      && Records(front + [x]) == Records(seen) && LogDiffs(front + [x]) == LogDiffs(front) + EntryDiffs(|seen|, e)
  {
    assert (es + [e])[..|es|] == es;
    var seen := Seen(es);
    var front, last := seen[..|seen| - 1], seen[|seen| - 1];
    RecordsPush(front, last.(files := e.files));
    RecordsPush(front, last);
    assert seen == front + [last];
    SameRecord(last, e.files);
    SameFiles(|seen|, last.(files := e.files), e);
    hide Record, EntryDiffs;
  }

  // The next commit, when it is not.
  lemma SwallowNext(cfg: Config, st: State, es: seq<Entry>, e: Entry)
    requires !cfg.staged && cfg.maxDiffSize >= 0 && Ready(cfg, st) && st.commits != [] && st.phase.NotesEndLine? && EntryFits(cfg, e)
    requires Swallows(es) && Sent(st) == LogDiffs(Seen(es)[..|Seen(es)| - 1]) && !Marked(st)
    requires SameCommits(st.commits, Records(Seen(es)))
    ensures AfterLog(cfg, Run(cfg, st, EntryText(e)), es + [e])
  {
    SwallowedParsed(cfg, st, e);
    SeenSwallowing(es, e);
    RecordsLength(Seen(es));
    hide Run, EntryText, EntryFits, EntryDiffs, Record, Records, LogDiffs, Sent, Marked, Closed, Plain, Swallows, Seen;
  }

  lemma LogTextLast(es: seq<Entry>)
    requires |es| > 1
    ensures LogText(es) == LogText(es[..|es| - 1]) + ["\n"] + EntryText(es[|es| - 1])
  {
    hide EntryText;
  }

  lemma {:induction false} LogParsed(cfg: Config, es: seq<Entry>)
    requires LogFits(cfg, es) && es != []
    ensures AfterLog(cfg, Run(cfg, Start(), LogText(es)), es)
  {
    hide EntryFits, EntryText, Run, LogText, AfterLog;
    var last := |es| - 1;
    var before, e := es[..last], es[last];
    assert e in es && es == before + [e];
    if last == 0 {
      FirstEntry(cfg, es);
    } else {
      LogParsed(cfg, before);
      var s := Run(cfg, Start(), LogText(before));
      RunConcat(cfg, Start(), LogText(before), ["\n"]);
      RunConcat(cfg, Start(), LogText(before) + ["\n"], EntryText(e));
      LogTextLast(es);
      NextEntry(cfg, s, before, e);
    }
  }

  lemma PhaseAfterLog(at: Phase)
    requires EndsEntry(at)
    ensures if at.NotesLine? then AfterEmptyLine(at).NotesEndLine? else BeforeCommit(AfterEmptyLine(at))
  {
  }

  lemma AfterLogIs(cfg: Config, s: State, es: seq<Entry>)
    requires AfterLog(cfg, s, es)
    ensures Ready(cfg, s) && s.commits != [] && Closed(s) == LogDiffs(Seen(es)) && SameCommits(s.commits, Records(Seen(es)))
    ensures EndsEntry(s.phase) && (s.phase.NotesLine? <==> Swallows(es))
    ensures Swallows(es) ==> Sent(s) == LogDiffs(Seen(es)[..|Seen(es)| - 1]) && !Marked(s)
  {
    hide Ready, Closed, SameCommits, EndsEntry, Seen, LogDiffs, Records, Swallows, Sent, Marked;
  }

  lemma AfterSeparator(cfg: Config, s: State, es: seq<Entry>)
    requires !cfg.staged && AfterLog(cfg, s, es)
    ensures var s1 := Run(cfg, s, ["\n"]);
      && Ready(cfg, s1) && s1.commits != [] && Closed(s1) == LogDiffs(Seen(es)) && SameCommits(s1.commits, Records(Seen(es)))
      && (if Swallows(es) then
            s1.phase.NotesEndLine? && Sent(s1) == LogDiffs(Seen(es)[..|Seen(es)| - 1]) && !Marked(s1)
          else BeforeCommit(s1.phase))
  {
    hide *;
    AfterLogIs(cfg, s, es);
    PhaseAfterLog(s.phase);
    EmptyLineKeeps(cfg, s);
  }

  lemma NextEntry(cfg: Config, s: State, es: seq<Entry>, e: Entry)
    requires !cfg.staged && cfg.maxDiffSize >= 0 && EntryFits(cfg, e) && AfterLog(cfg, s, es)
    ensures AfterLog(cfg, Run(cfg, Run(cfg, s, ["\n"]), EntryText(e)), es + [e])
  {
    hide *;
    AfterSeparator(cfg, s, es);
    if Swallows(es) {
      SwallowNext(cfg, Run(cfg, s, ["\n"]), es, e);
    } else {
      ReadNext(cfg, Run(cfg, s, ["\n"]), es, e);
    }
  }

  lemma FirstEntry(cfg: Config, es: seq<Entry>)
    requires LogFits(cfg, es) && |es| == 1
    ensures AfterLog(cfg, Run(cfg, Start(), LogText(es)), es)
  {
    assert Closed(Start()) == [] && Ready(cfg, Start()) && BeforeCommit(Start().phase);
    assert es[0] in es && [] + [es[0]] == es;
    assert Seen([]) == [] && Records([]) == [] && LogDiffs([]) == [] && !Swallows([]);
    hide EntryFits, EntryText, AfterLog, Run, Ready, Closed;
    ReadNext(cfg, Start(), [], es[0]);
  }

  lemma {:induction false} SeenHashes(es: seq<Entry>)
    requires forall e :: e in es ==> |e.hash| == 40
    ensures forall e :: e in Seen(es) ==> |e.hash| == 40
  {
    if es != [] {
      var before := es[..|es| - 1];
      assert es[|es| - 1] in es;
      SeenHashes(before);
      assert Seen(before) != [] ==> Seen(before)[|Seen(before)| - 1] in Seen(before);
      hide EndsWithNotes;
    }
  }

  lemma LastHash(s: State, es: seq<Entry>)
    requires es != [] && s.commits != [] && SameCommits(s.commits, Records(es)) && |es[|es| - 1].hash| == 40
    ensures Last(s).hash != ""
  {
    var e := es[|es| - 1];
    assert Plain(Last(s)) == Plain(Record(e));
    hide TrimSpace, MessageLines, NotesLines;
    assert Record(e).hash == e.hash;
  }

  lemma CleanupCloses(s: State)
    requires s.commits != [] && Last(s).hash != "" && !s.stop.Crashed? && s.diff.owner == |s.commits|
    ensures Cleanup(s).out == Closed(s) && SameCommits(Cleanup(s).commits, s.commits) && Cleanup(s).stop == s.stop
  {
  }

  /** What the parser makes of the printed log of any commits: exactly the hunks and binary files of those it
      sees, in order, each with its commit, path, start line and content, and these commits. A commit also
      goes out on its own exactly when no file of it ends with content. After a commit that ends with its
      notes the next one is not seen, and its files are taken for files of that commit. */
  lemma LogRead(cfg: Config, es: seq<Entry>)
    requires LogFits(cfg, es)
    ensures var s := Parse(cfg, LogText(es));
      s.out == LogDiffs(Seen(es)) && SameCommits(s.commits, Records(Seen(es))) && !s.stop.Crashed?
  {
    if es == [] {
      assert Run(cfg, Start(), LogText(es)) == Start();
    } else {
      LogParsed(cfg, es);
      assert forall e :: e in es ==> |e.hash| == 40;
      SeenHashes(es);
      var s, seen := Run(cfg, Start(), LogText(es)), Seen(es);
      assert seen[|seen| - 1] in seen;
      hide LogFits, LogText, LogDiffs, Records, Run, Seen, Swallows, EntryFits;
      LastHash(s, seen);
      CleanupCloses(s);
      SameThrough(Cleanup(s).commits, s.commits, Records(seen));
    }
  }

  lemma SameThrough(a: seq<Commit>, b: seq<Commit>, c: seq<Commit>)
    requires SameCommits(a, b) && SameCommits(b, c)
    ensures SameCommits(a, c)
  {
    hide Plain;
  }

  // Some commit but the last ends with its notes.
  predicate SomeUnseen(es: seq<Entry>) { exists i :: 0 <= i < |es| - 1 && EndsWithNotes(es[i]) }

  lemma {:induction false} AllSeen(es: seq<Entry>)
    requires !SomeUnseen(es)
    ensures Seen(es) == es
  {
    if es != [] {
      var before, e := es[..|es| - 1], es[|es| - 1];
      assert forall i :: 0 <= i < |before| ==> before[i] == es[i];
      assert before != [] ==> !EndsWithNotes(before[|before| - 1]);
      assert !Swallows(before);
      assert es == before + [e];
      AllSeen(before);
      hide EndsWithNotes, Swallows, SomeUnseen;
    }
  }

  lemma {:induction false} FewerSeen(es: seq<Entry>)
    requires SomeUnseen(es)
    ensures |Seen(es)| < |es|
  {
    hide EndsWithNotes;
    var n := |es| - 1;
    var before := es[..n];
    if SomeUnseen(before) {
      FewerSeen(before);
    } else {
      assert forall j :: 0 <= j < n ==> before[j] == es[j];
      var i :| 0 <= i < n && EndsWithNotes(es[i]);
      assert EndsWithNotes(before[n - 1]);
      assert forall j :: 0 <= j < n - 1 ==> before[..n - 1][j] == before[j];
      NoneSwallowed(before[..n - 1]);
    }
  }

  lemma NoneSwallowed(es: seq<Entry>)
    requires forall j :: 0 <= j < |es| ==> !EndsWithNotes(es[j])
    ensures !Swallows(es)
  {
  }

  /** The round trip: parsing the printed log of commits gives exactly their diffs and the commits back if and
      only if no commit but the last ends with its notes, that is, has a message, notes and no files. */
  lemma LogRoundTrip(cfg: Config, es: seq<Entry>)
    requires LogFits(cfg, es)
    ensures var s := Parse(cfg, LogText(es));
      s.out == LogDiffs(es) && SameCommits(s.commits, Records(es)) <==>
        forall i :: 0 <= i < |es| - 1 ==> !(es[i].message != [] && es[i].notes.Some? && es[i].files == [])
  {
    LogRead(cfg, es);
    hide Parse, LogText, LogDiffs, Plain, LogFits;
    if SomeUnseen(es) {
      FewerSeen(es);
      RecordsLength(es);
      RecordsLength(Seen(es));
    } else {
      AllSeen(es);
    }
    hide Seen, Records;
    assert SomeUnseen(es) <==> exists i :: 0 <= i < |es| - 1 && EndsWithNotes(es[i]);
  }

  lemma SeenOne(a: Entry)
    ensures Seen([a]) == [a] && Records([a]) == [Record(a)] && LogDiffs([]) == [] && (Swallows([a]) <==> EndsWithNotes(a))
  {
    assert [a][..0] == [];
    assert Seen([]) == [] && Records([]) == [] && !Swallows([]);
    hide EndsWithNotes, Record, EntryDiffs;
  }

  lemma SeenTwo(a: Entry, b: Entry)
    requires Swallows([a]) && Seen([a]) == [a] && Records([a]) == [Record(a)] && LogDiffs([]) == []
    ensures Records(Seen([a, b])) == [Record(a)] && LogDiffs(Seen([a, b])) == EntryDiffs(1, b)
  {
    hide *;
    SeenSwallowing([a], b);
    assert [a] + [b] == [a, b] && [a][..0] == [];
    assert [] + EntryDiffs(1, b) == EntryDiffs(1, b);
  }

  /** Of two commits the first of which ends with its notes only one is read, with the files of the other. */
  lemma NextCommitLost(cfg: Config, a: Entry, b: Entry)
    requires LogFits(cfg, [a, b]) && a.message != [] && a.notes.Some? && a.files == []
    ensures var s := Parse(cfg, LogText([a, b]));
      SameCommits(s.commits, [Record(a)]) && s.out == FilesDiffs(1, b.files) + if SomeContent(b.files) then [] else [Bare(1)]
  {
    assert EndsWithNotes(a) && EntryDiffs(1, b) == FilesDiffs(1, b.files) + if SomeContent(b.files) then [] else [Bare(1)];
    hide *;
    LogRead(cfg, [a, b]);
    SeenOne(a);
    SeenTwo(a, b);
  }

  // ---------------------------------------------------------------- staged changes

  lemma FileFirstLine(f: FilePatch) returns (rest: seq<string>)
    ensures FileText(f) == ["diff --git " + f.names + "\n"] + rest
  {
    hide ModesText, IndexText, RestText;
    rest := ModesText(f.headers) + IndexText(f.index) + RestText(f.body);
  }

  lemma FilesTextPush(fs: seq<FilePatch>, f: FilePatch)
    ensures FilesText(fs + [f]) == FilesText(fs) + FileText(f) && FilesText([]) == []
  {
    hide FileText;
    assert (fs + [f])[..|fs|] == fs;
  }

  lemma {:induction false} FirstFileLine(fs: seq<FilePatch>) returns (rest: seq<string>)
    requires fs != []
    ensures FilesText(fs) == ["diff --git " + fs[0].names + "\n"] + rest
  {
    hide *;
    var before, f, line := fs[..|fs| - 1], fs[|fs| - 1], ["diff --git " + fs[0].names + "\n"];
    FilesTextPush(before, f);
    assert fs == before + [f];
    if before == [] {
      rest := FileFirstLine(f);
      assert [] + FileText(f) == FileText(f);
    } else {
      var first := FirstFileLine(before);
      rest := first + FileText(f);
      assert (line + first) + FileText(f) == line + rest;
    }
  }

  // The state that a first diff line of staged changes might as well have been read in.
  function NoCommit(): State { State(ParseFailure, [Commit("", "", "", "", "", false)], NewDiff(1), [], Going) }

  lemma StagedStart(cfg: Config, names: string)
    requires cfg.staged
    ensures Step(cfg, Start(), "diff --git " + names + "\n") == Step(cfg, NoCommit(), "diff --git " + names + "\n")
  {
    var line := "diff --git " + names + "\n";
    DiffLineKind(true, Initial, names);
    DiffLineKind(true, ParseFailure, names);
    hide Classify;
    assert Handle(cfg, Start(), line) == Handle(cfg, NoCommit(), line);
    assert !Handle(cfg, Start(), line).phase.ParseFailure?;
    hide Handle;
  }

  lemma StagedRun(cfg: Config, fs: seq<FilePatch>)
    requires cfg.staged && fs != []
    ensures Run(cfg, Start(), FilesText(fs)) == Run(cfg, NoCommit(), FilesText(fs))
  {
    var rest := FirstFileLine(fs);
    var line := "diff --git " + fs[0].names + "\n";
    hide Run, Step;
    RunConcat(cfg, Start(), [line], rest);
    RunConcat(cfg, NoCommit(), [line], rest);
    RunOne(cfg, Start(), line);
    RunOne(cfg, NoCommit(), line);
    StagedStart(cfg, fs[0].names);
  }

  /** Staged changes, which are printed without a commit: parsing the printed files sends exactly their hunks
      and binary files, in order, for one commit without a hash, which does not go out on its own. */
  lemma StagedRoundTrip(cfg: Config, fs: seq<FilePatch>)
    requires cfg.staged && cfg.maxDiffSize >= 0 && forall f :: f in fs ==> FileFits(cfg, f)
    ensures var s := Parse(cfg, FilesText(fs)); s.out == FilesDiffs(1, fs) && !s.stop.Crashed?
    ensures var commits := Parse(cfg, FilesText(fs)).commits;
      if fs == [] then commits == [] else SameCommits(commits, [Commit("", "", "", "", "", false)])
  {
    if fs == [] {
      assert Run(cfg, Start(), FilesText(fs)) == Start();
    } else {
      StagedRun(cfg, fs);
      assert Ready(cfg, NoCommit()) && Sent(NoCommit()) == [];
      hide Run, FilesText, FilesDiffs, FileFits, SomeContent, Marked;
      FilesParsed(cfg, NoCommit(), fs);
      var s := Run(cfg, NoCommit(), FilesText(fs));
      assert Last(s).hash == "" by { assert Plain(s.commits[0]) == Plain(NoCommit().commits[0]); }
      StagedCleanup(s);
      SameThrough(Cleanup(s).commits, s.commits, NoCommit().commits);
    }
  }

  lemma StagedCleanup(s: State)
    requires s.commits != [] && Last(s).hash == "" && !s.stop.Crashed? && s.diff.owner == |s.commits|
    ensures Cleanup(s).out == Sent(s) && SameCommits(Cleanup(s).commits, s.commits) && Cleanup(s).stop == s.stop
  {
  }

  // ---------------------------------------------------------------- what is trimmed

  // Blank, tab or line end, by its number in ASCII.
  ghost predicate White(c: char) { c == ' ' || 9 <= c as int <= 13 }

  lemma {:induction false} TrimLeftIs(s: string) returns (k: nat)
    ensures k <= |s| && TrimLeft(s) == s[k..] && (forall i :: 0 <= i < k ==> White(s[i])) && (k < |s| ==> !White(s[k]))
  {
    k := 0;
    if s != "" && IsSpace(s[0]) {
      var rest := s[1..];
      var j := TrimLeftIs(rest);
      k := j + 1;
      assert rest[j..] == s[k..];
      forall i | 0 <= i < k ensures White(s[i]) { if i > 0 { assert s[i] == rest[i - 1]; } }
    }
  }

  lemma {:induction false} TrimRightIs(s: string) returns (k: nat)
    ensures k <= |s| && TrimRight(s) == s[..k] && (forall i :: k <= i < |s| ==> White(s[i])) && (k > 0 ==> !White(s[k - 1]))
  {
    k := |s|;
    if s != "" && IsSpace(s[|s| - 1]) {
      var front := s[..|s| - 1];
      k := TrimRightIs(front);
      assert front[..k] == s[..k];
      forall i | k <= i < |s| ensures White(s[i]) { if i < |front| { assert s[i] == front[i]; } }
    }
  }

  /** The author, the committer and the date are read as they were printed, without the white space around
      them and with all the rest. */
  lemma TrimSpaceIs(s: string) returns (a: nat, b: nat)
    ensures a <= b <= |s| && TrimSpace(s) == s[a..b]
    ensures forall i :: 0 <= i < |s| && (i < a || b <= i) ==> White(s[i])
    ensures a < b ==> !White(s[a]) && !White(s[b - 1])
  {
    a := TrimLeftIs(s);
    var t := s[a..];
    var k := TrimRightIs(t);
    b := a + k;
    hide TrimLeft, TrimRight, White;
    assert t[..k] == s[a..b];
    forall i | b <= i < |s| ensures White(s[i]) { assert s[i] == t[i - a]; }
    if k > 0 { assert s[b - 1] == t[k - 1]; }
  }

  // ---------------------------------------------------------------- bare lines

  // A commit to one file, with a hunk that adds a line and one that removes a line.
  function RemovingEntry(): Entry {
    Entry(seq(40, i => '0'), "", None, "", "", "", "", [], None,
          [FilePatch("a/f b/f", [], Some("0..1"),
                     Text("a/f", Named("f"), [Hunk("0,0", 1, " @@", [Added("x")]), Hunk("5", 5, ",0 @@", [Removed("y")])]))])
  }

  /** A commit is sent a second time, without content, though its added line has been sent. */
  lemma SentTwice(cfg: Config)
    requires !cfg.staged && cfg.maxDiffSize >= 2 && cfg.dateParses(TrimSpace("\n"))
    ensures Parse(cfg, LogText([RemovingEntry()])).out == [Diff(1, "f", 1, false, "x\n"), Bare(1)]
  {
    var e := RemovingEntry();
    var f, add, remove := e.files[0], e.files[0].body.hunks[0], e.files[0].body.hunks[1];
    RemovingFits(cfg, add, remove);
    assert "" + "\n" == "\n";
    hide HunkFits, TrimSpace, Parse, LogText, LogDiffs, BodyAdds, Records, SameCommits;
    assert FileFits(cfg, f);
    assert EntryFits(cfg, e);
    hide FileFits, EntryFits, RemovingEntry;
    LogRoundTrip(cfg, [e]);
    RemovingDiffs(e, f, add, remove);
  }

  lemma RemovingFits(cfg: Config, add: Hunk, remove: Hunk)
    requires cfg.maxDiffSize >= 2 && add == Hunk("0,0", 1, " @@", [Added("x")]) && remove == Hunk("5", 5, ",0 @@", [Removed("y")])
    ensures BodyAdds(add.lines) == "x\n" && BodyAdds(remove.lines) == ""
    ensures HunkFits(cfg, add) && HunkFits(cfg, remove)
  {
    assert add.lines[..0] == [] && remove.lines[..0] == [];
    assert "x" + "\n" == "x\n";
  }

  lemma RemovingDiffs(e: Entry, f: FilePatch, add: Hunk, remove: Hunk)
    requires e.files == [f] && f.body == Text("a/f", Named("f"), [add, remove]) && add.start == 1
    requires BodyAdds(add.lines) == "x\n" && BodyAdds(remove.lines) == ""
    ensures LogDiffs([e]) == [Diff(1, "f", 1, false, "x\n"), Bare(1)]
  {
    assert [add, remove][..1] == [add] && [add][..0] == [] && [f][..0] == [] && [e][..0] == [];
    assert HunksDiffs(1, "f", [add]) == [] + [Diff(1, "f", 1, false, "x\n")];
    assert FilesDiffs(1, [f]) == [] + FileDiffs(1, f);
    assert !SomeContent([f]);
    assert LogDiffs([e]) == [] + EntryDiffs(1, e);
  }

  // A commit to one file, whose hunk has a context line, an empty one and an added line.
  function BareHunk(): Hunk { Hunk("5,2", 5, ",3 @@", [Context("a"), Empty, Added("x")]) }
  function BareEntry(): Entry {
    Entry(seq(40, i => '0'), "", None, "", "", "", "", [], None,
          [FilePatch("a/f b/f", [], Some("0..1"), Text("a/f", Named("f"), [BareHunk()]))])
  }

  lemma BareAdds()
    ensures BodyAdds(BareHunk().lines) == "\nx\n" && PostLines(BodyText(BareHunk().lines)[..2]) == 2
  {
    var lines := BareHunk().lines;
    assert lines[..2] == [Context("a"), Empty] && lines[..2][..1] == [Context("a")] && lines[..2][..1][..0] == [];
    assert BodyAdds(lines[..2][..1]) == "\n" && BodyAdds(lines[..2]) == "\n" && "\n" + "x\n" == "\nx\n" && "x" + "\n" == "x\n";
    var a := HunkLineText(Context("a"));
    assert BodyText(lines[..2][..1]) == [a] && BodyText(lines[..2]) == [a, "\n"];
    assert BodyText(lines)[..2] == [a, "\n"] && [a, "\n"][..1] == [a] && [a][..0] == [];
    assert PostLines([a]) == 1;
  }

  /** The number can be wrong: of the three lines 5, 6 and 7 after the commit the last, added one is reported as
      line 6. */
  lemma BareLineShifts(cfg: Config)
    requires !cfg.staged && cfg.maxDiffSize >= 3 && cfg.dateParses(TrimSpace("\n"))
    ensures Parse(cfg, LogText([BareEntry()])).out == [Diff(1, "f", 5, false, "\nx\n")]
    ensures HeaderStart(HeaderText(BareHunk())) + PostLines(BodyText(BareHunk().lines)[..2]) == 7
  {
    HeaderGivesStart(BareHunk());
    BareAdds();
    var e, h := BareEntry(), BareHunk();
    assert "" + "\n" == "\n";
    hide TrimSpace, Parse, LogText, LogDiffs, BodyAdds, Records, SameCommits, HeaderText, HeaderStart, BodyText, PostLines;
    assert HunkFits(cfg, h);
    hide HunkFits;
    assert FileFits(cfg, e.files[0]);
    assert EntryFits(cfg, e);
    BareDiffs(e, e.files[0], h);
    assert LogFits(cfg, [e]);
    hide *;
    LogRoundTrip(cfg, [e]);
  }

  lemma BareDiffs(e: Entry, f: FilePatch, h: Hunk)
    requires e.files == [f] && f.body == Text("a/f", Named("f"), [h]) && h.start == 5 && BodyAdds(h.lines) == "\nx\n"
    ensures LogDiffs([e]) == [Diff(1, "f", 5, false, "\nx\n")]
  {
    assert [h][..0] == [] && [f][..0] == [] && [e][..0] == [];
    assert HunksDiffs(1, "f", [h]) == [] + [Diff(1, "f", 5, false, "\nx\n")];
    assert FilesDiffs(1, [f]) == [] + FileDiffs(1, f);
    assert EndsWithContent(f) && f in [f];
    assert LogDiffs([e]) == [] + EntryDiffs(1, e);
  }
}
