# Verified model of the TruffleHog scanning core

This project models the parts of TruffleHog, and of its request analyzer, whose behaviour does not
show from reading one function at a time: the concurrent scan pipeline and source manager, the
search over decoded forms, the mapping of a finding back to a source offset and a line, the git log
parser, the request scanner's windows and span arithmetic, chunking and buffering, the verification
cache, and the decoders. `dafny verify dfyconfig.toml` checks all of it.

One module stands for one component.

| module | component |
|---|---|
| `Pipeline` | scanner, overlap, detector and notifier workers with `Finish`, as a step system over Go channels and WaitGroups |
| `IterativeDecode`, `SourceMapping`, `LineOffsets` | decoding in depth, decoded offset to source offset, source offset to line |
| `SourceManager`, `JobProgress`, `UnitHook` | jobs with units and `Wait`, the cause a job ends with, the hand-over of finished unit metrics |
| `GitParse`, `GitLog`, `GitReader`, `GitStream` | the parser's state machine, the printed log it reads, `FromReader` as a loop over a byte stream, and the round trip through the stream |
| `Windows`, `EncodedRuns`, `Findings` | the request scanner: windows and rune offsets, base64 runs, overlap resolution and URL logins |
| `Chunker`, `BufferedReadSeeker` | overlapping chunks with line numbers, a seekable view of a one-shot stream |
| `VerificationCache` | the result cache in front of a detector's verification |
| `EscapedUnicode`, `Base64`, `Utf8` | decoders |
| `MatchProducts`, `ResultChannel` | the match products of custom detectors, and the channel their results go through |
| `Options`, `Sums`, `Bytes` | an option type, sums over sequences, byte searches |

How it is modelled:

* Goroutines are program counters over the operations of their Go code. A run is any sequence of
  enabled steps, so a statement about runs is about every interleaving. Go panics on channels and
  WaitGroups are a `crashed` state that is proved unreachable.
* Code that updates fields or slices in loops is a class or a method with loop invariants, proved
  against a specification function; what the source promises is proved about that function.
* Bytes are integers from 0 to 255. Integers are unbounded where no code depends on their width;
  where it does (the product in `PercentComplete`, the detector type in a cache key, `Atoi`) the
  width is written out.
* Regular expressions appear as the lists of matches they give. Decoders, detectors, date parsing,
  `strconv.Unquote` and remote verification are parameters, quantified over in every statement.

## Where the code and its documentation differ

The model follows the code. Each of these is a theorem below.

* A detector panic that `detectChunk` recovers from never reaches `wgDoneFn`, and one in an overlap
  worker ends the worker before `verificationOverlapWgDoneFn`; either way `Finish` waits forever
  (`Pipeline.FinishReturnsIffNoPanic`).
* `Wait` closes the progress hooks when all jobs are done, yet `EndEnumerating` can fire after it
  has returned: the unit channel is closed before that deferred call runs
  (`SourceManager.HooksAfterWait`, `SourceManager.HooksFireAfterWait`).
* An added line gets its line number in the file after the commit only if no bare empty line, which
  git prints under `diff.suppressBlankEmpty`, stands before it in the hunk
  (`GitParse.AddedLineNumber`, `GitLog.BareLineShifts`).
* After a commit that ends with its notes, that is, has a message and notes and no printed files, the
  next commit line is not read: that commit is lost and its files are taken for the one before it
  (`GitLog.LogRoundTrip`, `GitLog.NextCommitLost`).
* A commit whose diffs are all sent at hunk headers is not marked as having diffs and is sent a
  second time without content (`GitLog.LogRead`, `GitLog.SentTwice`).
* A path on a `+++` line loses its trailing white space (`GitLog.TextPathCarried`,
  `GitLog.SpaceLost`).
* `placeLogins` says it adds each login unless a vendor finding covers it; a login can also be lost
  with the vendor finding that covered it (`Findings.LoginAccountedIff`, `Findings.LoginLost`).
* `WithChunkSize` of exactly the default size does not take precedence over `WithFileSize`
  (`Chunker.ApplyOptions`).
* `ReadAt` leaves the position moved when the reader reports the end, and a seek past the end is
  accepted and makes Size wrong after the next read (`BufferedReadSeeker.Seeker.ReadAt`,
  `BufferedReadSeeker.LastByteReadAt`, `BufferedReadSeeker.Seeker.SizeAfterSeek`).
* Cache keys do not tell `Raw` and `RawV2` apart, and a forced update without verification makes
  later verified answers wrong (`VerificationCache.KeysCollide`,
  `VerificationCache.UnverifiedUpdate`, `VerificationCache.AnyCallsAgreeIff`).
* `extractSubstrings` says that a malformed sequence becomes a single U+FFFD; it writes one for
  each byte, and three for a U+FFFD that is already there (`Utf8.ExtractTwiceIff`,
  `Utf8.OneByteTwice`).
* After `U+XXXX` a character of several bytes loses all bytes but its last
  (`EscapedUnicode.ReplacesEscapeOnly`, `EscapedUnicode.HalfCharacterLost`).
* The base64 decoder's forward search may replace an earlier copy of a run's text, inside another
  run, instead of the run (`Base64.OwnPlacesIff`, `Base64.TextLandsInOtherRun`).

## Model

| member | source | states |
|---|---|---|
| `Pipeline.EveryRunIsSafe` | pkg/engine/engine.go:817-838 | in every interleaving no send or close hits a closed channel and no WaitGroup goes below zero, every WaitGroup equals its outstanding items, and the length of the run is bounded by a number the work fixes; once `Finish` has returned all workers have exited, all channels are closed and empty, and exactly the results of the work were handled, each as often as it was produced |
| `Pipeline.FinishReturnsIffNoPanic` | pkg/engine/engine.go:1075-1297 | a run no process can continue has returned from `Finish` if and only if no detector panics on the work, neither in an overlap worker nor in detection |
| `Pipeline.NoDeadlock` | pkg/engine/engine.go:817-838 | in every state of the invariant in which no detector has panicked, some process can step until `Finish` has returned |
| `Pipeline.StepKeepsInv` | pkg/engine/engine.go:930-992 | every step of every process keeps the invariant: counters balance, channels closed match the phase of `Finish`, workers past their loop find their channel closed and empty |
| `Pipeline.BalanceKept` | pkg/engine/engine.go:1075-1187 | each operation changes a WaitGroup by exactly the outstanding items it creates or ends |
| `Pipeline.MissedKept` | pkg/engine/engine.go:784-797 | whenever an overlap worker has been ended by a panic, the WaitGroup of some scanner has been left one too high |
| `Pipeline.SendsOpen` | pkg/engine/engine.go:1075-1187 | a worker about to send finds its channel open, because its own pool has not been waited for |
| `Pipeline.FinishedIsQuiet` | pkg/engine/engine.go:817-838 | when `Finish` has returned every channel is closed and empty, every worker gone and every WaitGroup zero |
| `Pipeline.RunConserves` | pkg/engine/engine.go:1379-1447 | over a whole run no result, panic or step is lost or invented: what is in the system plus what has left it stays the same |
| `Pipeline.StepPays` | pkg/engine/engine.go:930-992 | every step of every worker uses up exactly one unit of the work that is left, besides the result it delivers or the panic it leaks |
| `IterativeDecode.IterativeDecode` | pkg/engine/engine.go:882-928 | the results are exactly the outputs of decoder chains of length at most maxDepth, PLAIN only as a lone first step; inputs queued for decoding again are pairwise distinct; each is expanded once, in the order queued |
| `IterativeDecode.ExpandLevel` | pkg/engine/engine.go:891-924 | one depth: afterwards the inputs and the queue together are exactly the forms one decoding step further away, with nothing queued at the last depth |
| `IterativeDecode.ExpandInput` | pkg/engine/engine.go:892-918 | one input: the outputs of all decoders in order, and a queue of new distinct forms that leaves nothing decodable out |
| `IterativeDecode.ReachesFurther` | pkg/engine/engine.go:910-917 | skipping the forms already seen loses none: if all the n-step forms were expanded, those seen by then are exactly the forms within n + 1 steps |
| `IterativeDecode.FixedPoint` | pkg/engine/engine.go:921-924 | when a depth queues nothing, deeper searches reach no other form, so stopping early is exact |
| `IterativeDecode.InAllOutputs` | pkg/engine/engine.go:897-908 | a result comes from some expanded input through one decoder, PLAIN only from the chunk's own data |
| `IterativeDecode.OutputsAreChains` | pkg/engine/engine.go:882-928 | when the expanded inputs are the forms within maxDepth - 1 steps, their outputs are exactly the chain outputs |
| `SourceMapping.SourceOffset` | pkg/engine/engine.go:1518-1540 | -1 exactly when the guard fails or the detected bytes are absent from the source, else a true occurrence: the same offset in an equal buffer, the nth for the nth when the counts agree, otherwise the first occurrence of the highest alignment score |
| `SourceMapping.NthOccurrence` | pkg/engine/engine.go:1545-1558 | the position of the nth non-overlapping occurrence, -1 if there are not so many, and how many there are |
| `SourceMapping.BestAlignedOccurrence` | pkg/engine/engine.go:1569-1583 | the first of the candidate occurrences whose score over those slices no other exceeds, -1 if there is none |
| `SourceMapping.AlignmentScore` | pkg/engine/engine.go:1588-1594 | the longest suffix of the 1024 decoded bytes before the secret that reads in order out of the 1024 source bytes before the candidate, plus the longest prefix of those after it out of those after the candidate, with the four slices written out |
| `SourceMapping.MatchBackward` | pkg/engine/engine.go:1598-1606 | the greedy scan finds the longest suffix of decoded that is a subsequence of source |
| `SourceMapping.MatchForward` | pkg/engine/engine.go:1610-1618 | the greedy scan finds the longest prefix of decoded that is a subsequence of source |
| `SourceMapping.FrontStep` | pkg/engine/engine.go:1610-1618 | one byte of the forward scan keeps the matched prefix the longest that fits so far |
| `SourceMapping.BackStep` | pkg/engine/engine.go:1598-1606 | one byte of the backward scan keeps the matched suffix the longest that fits so far |
| `SourceMapping.CountsAroundKth` | pkg/engine/engine.go:1518-1540 | cutting at the kth occurrence leaves k occurrences before it and the others after |
| `SourceMapping.KthToKth` | pkg/engine/engine.go:1518-1540 | when decoding kept the number of occurrences, whatever the mapping gives for the kth one is the kth in the source |
| `LineOffsets.AssignDuplicateLineOffsets` | pkg/engine/engine.go:1637-1672 | in place, each result whose secret is shared gets the occurrence of its rank among them; single results and those beyond the last occurrence keep what they had |
| `LineOffsets.AssignGroup` | pkg/engine/engine.go:1656-1671 | one group: every result of it is assigned, all others untouched |
| `LineOffsets.NthIsOccurrence` | pkg/engine/engine.go:1661-1670 | searching k times, each time from the end of the last match, is taking the kth occurrence |
| `LineOffsets.KthGetsKth` | pkg/engine/engine.go:1637-1672 | results that share a non-empty secret never share an occurrence: the kth gets the kth |
| `LineOffsets.FragmentLineOffset` | pkg/engine/engine.go:1480-1514 | the line is the number of newlines before the place the source mapping gives for the secret, or before the secret in the decoded data where it gives none; ignored exactly when the tag follows on the rest of that line; line 0 when the secret is absent |
| `LineOffsets.LineAt` | pkg/engine/engine.go:1501-1513 | newlines before the offset, and whether "trufflehog:ignore" follows on its line |
| `Bytes.NewlinesCounted` | pkg/engine/engine.go:1501-1502 | what is counted before the offset is the number of places that hold byte 10 |
| `SourceManager.EveryRunIsSafe` | pkg/sources/source_manager.go:531-611 | in every interleaving of jobs, units, `Wait` and consumer: no send or close on a closed channel, no negative WaitGroup; finished units never exceed total units; a job returned from runWithUnits with an error exactly when Enumerate or a ChunkUnit of a sent unit failed or panicked, with exactly the accepted chunks forwarded; when `Wait` has returned all jobs are gone and its error says whether any failed; runs are bounded |
| `SourceManager.NoDeadlock` | pkg/sources/source_manager.go:283-304 | in every reachable state no goroutine can leave, `Wait` has returned, the output is closed and drained and every goroutine of every job is gone |
| `SourceManager.StepKeepsInv` | pkg/sources/source_manager.go:531-611 | every step of a job keeps its invariant |
| `SourceManager.DoKeepsInv` | pkg/sources/source_manager.go:129-180 | every step of the whole manager keeps its invariant, so the output channel is closed only after every forwarder is done |
| `SourceManager.WorkersQuiet` | pkg/sources/source_manager.go:575-604 | once wg.Wait has returned every unit's forwarder is gone, its channel is drained and its failure recorded |
| `SourceManager.ReturnsWithAll` | pkg/sources/source_manager.go:604-611 | runWithUnits returns an error if and only if the work failed, and by then exactly the chunks of the sent units went out |
| `SourceManager.WaitSeesErrors` | pkg/sources/source_manager.go:283-304 | `Wait` returns only when every job is gone, and an error if and only if some job's work failed |
| `SourceManager.StepPays` | pkg/sources/source_manager.go:531-611 | each step pays one hop plus exactly the chunk it forwards and the failure it records: nothing of a job's work is lost or repeated |
| `SourceManager.DoUsesStep` | pkg/sources/source_manager.go:129-180 | every step of any goroutine uses up exactly one of a number of steps the work fixes |
| `SourceManager.JobCanStep` | pkg/sources/source_manager.go:531-611 | until runWithUnits has returned some goroutine of the job can step, given room on the output channel, for every limit on concurrent units, and other than by a deferred EndEnumerating |
| `SourceManager.FinishedWithinTotal` | pkg/sources/job_progress.go:279-301 | finished units never exceed total units |
| `SourceManager.PercentInRange` | pkg/sources/job_progress.go:425-438 | unit-based progress stays within 0 to 100 and never takes the branch that returns -1, even where the 64-bit product wraps around |
| `SourceManager.HooksAfterWait` | pkg/sources/source_manager.go:155-160 | for every configuration and all jobs: some run has a hook still to be called after `Wait` has returned if and only if there is a job at all |
| `SourceManager.HooksFireAfterWait` | pkg/sources/source_manager.go:547-560 | whatever the jobs do, there is a run in which `Wait` has returned and every job has its EndEnumerating still to call |
| `SourceManager.WaitReturnsFirst` | pkg/sources/source_manager.go:283-304 | from any state of a run `Wait` can be made to return with every EndEnumerating put off |
| `SourceManager.EndEnumeratingLeft` | pkg/sources/source_manager.go:547-560 | after `Wait` has returned the only hook a job can have left is its deferred EndEnumerating |
| `JobProgress.JobProgress.Run` | pkg/sources/job_progress.go:257-277 | over any events Err is nil until the job finishes, and from then on the first cause given |
| `JobProgress.JobProgress.Cancel` | pkg/sources/job_progress.go:100-113 | CancelRun sets the cause only if none is set and cancels the run with it; the job's own context is untouched |
| `JobProgress.JobProgress.End` | pkg/sources/job_progress.go:257-270 | ending sets the cause only if none is set and ends the job's context with it, once |
| `JobProgress.CauseIsFirst` | pkg/sources/job_progress.go:100-113 | the cause is that of the first event that gives one |
| `JobProgress.OutcomeIsFinal` | pkg/sources/job_progress.go:272-277 | Err is nil exactly while nothing has finished the job, and never changes afterwards |
| `UnitHook.EveryRunIsSafe` | pkg/sources/job_progress_hook.go:81-107 | in every interleaving of senders, Close calls and a consumer: no send on the closed channel, no second close; each metric is with its sender or exactly once buffered, delivered or dropped, and dropped only after Close; no send is possible once the channel is closed; runs are bounded |
| `UnitHook.CloseReturns` | pkg/sources/job_progress_hook.go:215-231 | when no sender or closer can step, whatever the consumer does, every Close has returned, every sender is done and both channels are closed |
| `UnitHook.ClosersProgress` | pkg/sources/job_progress_hook.go:215-231 | while some Close has not returned, some sender or closer can step without a consumer |
| `UnitHook.OneCloser` | pkg/sources/job_progress_hook.go:215-231 | of concurrent Close calls at most one goes on to close the channel |
| `UnitHook.StepDecreases` | pkg/sources/job_progress_hook.go:81-107 | every step decreases a measure, so nobody spins |
| `GitParse.HandleKeeps` | pkg/gitparse/gitparse.go:655-851 | each of the cases keeps the parser's invariant (everything sent has an owner, every earlier commit went out) and panics exactly on a line too short for a slice taken from it, never on a nil commit |
| `GitParse.EveryCommitGoesOut` | pkg/gitparse/gitparse.go:1257-1288 | for any lines: all that is sent belongs to a commit that was read, and each commit is sent, with diffs or alone, except a last one without a hash |
| `GitParse.PanicsIffMalformed` | pkg/gitparse/gitparse.go:625-876 | parsing any lines panics if and only if some line it reads is too short for the slice its case takes |
| `GitParse.NothingIsLost` | pkg/gitparse/gitparse.go:657-876 | the contents sent over a run, in order, are all that was written: nothing lost or repeated at a hunk, file or commit boundary, at the end or at maxDiffSize |
| `GitParse.StopsPastLimit` | pkg/gitparse/gitparse.go:865-871 | the reader stops with the first line that makes the current diff longer than maxDiffSize: until then the diff is within it, and when it stops it is not |
| `GitParse.ContentCountsLines` | pkg/gitparse/gitparse.go:820-843 | the newlines of a hunk's content plus its bare empty lines are its lines after the commit |
| `GitParse.OpenHunk` | pkg/gitparse/gitparse.go:794-843 | in the hunk states the current diff is that of the last hunk header: its LineStart and the content of the lines since |
| `GitParse.AddedLineGoesOut` | pkg/gitparse/gitparse.go:828-835 | every added line read reaches the output, in a diff with its hunk's LineStart, after the content of the hunk's lines before it |
| `GitParse.AddedLineNumber` | pkg/gitparse/gitparse.go:794-843 | LineStart plus the newlines before an added line is its number after the commit if and only if no bare empty line stands before it in the hunk; each makes it one too small |
| `GitLog.LogRoundTrip` | pkg/gitparse/gitparse.go:625-876 | parsing the printed log of any fitting commits, with merge, notes, mode, new-file, deleted-file, similarity, rename and index lines, `/dev/null` and quoted paths, empty messages and text and binary files, gives back exactly their hunks and binary files in order, with commit, path, start line and content, and the commits, if and only if no commit but the last has a message, notes and no files |
| `GitLog.LogRead` | pkg/gitparse/gitparse.go:625-876 | the same for every such log: what comes back is the diffs and commits of those that are seen, where a commit printed after one that ends with its notes is not seen and its files count for that commit; a commit also goes out alone exactly when no file of it ends with content |
| `GitLog.NextCommitLost` | pkg/gitparse/gitparse.go:886-905 | of two commits the first of which ends with its notes one is read, with the files of the other |
| `GitLog.StagedRoundTrip` | pkg/gitparse/gitparse.go:566-580 | staged changes, which start at a `diff --git` line: exactly the hunks and binary files of the printed files, in order, all of one commit without a hash that does not go out alone |
| `GitStream.ReadBack` | pkg/gitparse/gitparse.go:625-876 | the same through the byte stream: FromReader on the printed text of commits whose texts hold no newline gives the diffs and commits of those seen: of all, if and only if none but the last ends with its notes |
| `GitStream.ReadStaged` | pkg/gitparse/gitparse.go:566-580 | FromReader on the printed text of staged files gives exactly their diffs |
| `GitStream.SplitJoined` | pkg/gitparse/gitparse.go:648-653 | text made of lines that each end with their only newline is cut into those lines |
| `GitStream.LogEnded` | pkg/gitparse/gitparse.go:648-653 | every printed line ends with its only newline when no text holds one |
| `GitLog.FileParsed` | pkg/gitparse/gitparse.go:735-843 | one printed file, staged or not and from any state a file may follow, with any header lines, adds exactly its diffs and marks its commit exactly if it ends with content |
| `GitLog.HeaderGivesStart` | pkg/gitparse/gitparse.go:794-819 | a printed hunk header gives back the start of its post-image range |
| `GitLog.AtoiDecimal` | pkg/gitparse/gitparse.go:812-818 | reading a printed decimal with its plus sign gives the number back, up to the largest int |
| `GitLog.TextPathCarried` | pkg/gitparse/gitparse.go:1143-1176 | a `+++` line gives its path without trailing white space: the path itself if and only if it does not end in any |
| `GitLog.TargetCarried` | pkg/gitparse/gitparse.go:1143-1176 | a `+++` line gives the path of the file it names: as it is, quoted, or empty for `/dev/null` |
| `GitLog.BinaryCarried` | pkg/gitparse/gitparse.go:1091-1121 | a line on a binary file gives its path, as it is or quoted, and none for a deleted file |
| `GitLog.TrimSpaceIs` | pkg/gitparse/gitparse.go:697-711 | author, committer and date are what was printed without the white space around it and with all the rest |
| `GitLog.SpaceLost` | pkg/gitparse/gitparse.go:1143-1176 | the path of a file whose name ends in a space comes out without the space |
| `GitLog.BareLineShifts` | pkg/gitparse/gitparse.go:1238-1247 | a log in which the added line is line 7 of the file and is reported as line 6 |
| `GitLog.SentTwice` | pkg/gitparse/gitparse.go:794-810 | a commit whose second hunk only removes a line is sent with its added line and once more without content |
| `GitReader.LinesOfStream` | pkg/gitparse/gitparse.go:648-653 | the lines read are the stream cut after each newline |
| `GitReader.Parser.FromReader` | pkg/gitparse/gitparse.go:625-876 | the loop over the stream leaves the variables and the sent diffs that the parser's specification gives |
| `GitReader.Parser.OneLine` | pkg/gitparse/gitparse.go:655-871 | one turn: the switch and the check of maxDiffSize |
| `GitReader.Parser.HandleLine` | pkg/gitparse/gitparse.go:655-851 | the switch takes the first case whose predicate holds |
| `Findings.DedupeOverlapping` | cmd/analyzer/main.go:661-696 | the in-place greedy selection computes the specified result |
| `Findings.DedupedIsSound` | cmd/analyzer/main.go:661-696 | the result is part of the input, disjoint and ascending, and each finding of the input overlaps one of it ranked no lower |
| `Findings.LeftOutForBetter` | cmd/analyzer/main.go:661-696 | said on the fields: those kept lie one after the other, and every finding of the input overlaps one of them with a higher score or, at equal scores, a better kind (any other name before generic-secret and url-login-credential, these before entropy-secret), then a greater width, then no later a start |
| `Findings.GreedyKeeps` | cmd/analyzer/main.go:681-694 | of ranked findings the greedy choice keeps pairwise apart ones that represent all |
| `Findings.SortSorts` | cmd/analyzer/main.go:665-679 | the sort orders its input and keeps every element |
| `Findings.SortStable` | cmd/analyzer/main.go:667-679 | findings that tie keep the order they had |
| `Findings.FirstEndingAfter` | cmd/analyzer/main.go:706 | the binary search finds the first finding that ends after the login starts |
| `Findings.CoveredRun` | cmd/analyzer/main.go:707-713 | the scan finds where the overlapping findings end and whether one still standing covers the login |
| `Findings.RunIsOverlap` | cmd/analyzer/main.go:706-713 | search and scan together give exactly the findings the login overlaps |
| `Findings.PlaceLogin` | cmd/analyzer/main.go:705-719 | a login is placed unless a standing vendor finding covers it, and the marks are then exactly the displaced findings |
| `Findings.PlaceLogins` | cmd/analyzer/main.go:702-729 | the placed logins and precisely the findings that overlap none of them, ordered by start |
| `Findings.DisplacedByPlaced` | cmd/analyzer/main.go:714-719 | a finding is displaced by an uncovered login if and only if by a placed one |
| `Findings.OutputMember` | cmd/analyzer/main.go:702-729 | a finding is in the output if and only if it is a placed login or a kept finding that no login displaced |
| `Findings.LoginAccountedIff` | cmd/analyzer/main.go:698-701 | a login, or the vendor finding that covers it, is in the output if and only if no uncovered login displaces that finding, or one earlier in the list does |
| `Findings.LoginLost` | cmd/analyzer/main.go:698-701 | an input for which a login is lost together with its vendor finding |
| `Findings.DedupeIdentical` | cmd/analyzer/main.go:581-597 | the loop keeps the first finding of each entity and span |
| `Findings.FirstsAreDistinct` | cmd/analyzer/main.go:581-597 | no two share entity and span, none is invented, and no entity and span disappears |
| `Windows.ScanWindows` | cmd/analyzer/main.go:261-277 | the loop ends; every window begins and ends at a rune and knows the runes before it; every range of at most 1024 bytes that starts at a rune lies whole in one window |
| `Windows.RuneBoundary` | cmd/analyzer/main.go:556-564 | the next rune start, or the end |
| `Windows.RuneIndex.Offsets` | cmd/analyzer/main.go:813-835 | the offsets counted on from the last lookup, or from the start again, are the global rune offsets of an occurrence of the value; fails exactly if it is empty or absent |
| `Windows.WindowOffsetsAreGlobal` | cmd/analyzer/main.go:601-659 | a window's base plus offsets within it are the offsets in the whole request |
| `Utf8.RuneCountAppend` | cmd/analyzer/main.go:813-835 | counting runes up to a rune start and on from there counts the whole, for any bytes |
| `Utf8.ExtractSubstrings` | pkg/decoders/utf8.go:45-75 | the loop ends and writes the specified text |
| `Utf8.SubstringsValid` | pkg/decoders/utf8.go:45-75 | for any bytes the result is valid UTF-8 (section 4 of RFC 3629) and at most three times as long |
| `Utf8.FromChunkIdempotent` | pkg/decoders/utf8.go:16-29 | decoding gives valid UTF-8, and decoding it again changes nothing |
| `Utf8.ExtractTwiceIff` | pkg/decoders/utf8.go:45-75 | extracting twice equals extracting once if and only if the input was printable, well formed and without U+FFFD |
| `Utf8.AsciiKept` | pkg/decoders/utf8.go:45-75 | of the ASCII bytes 32 to 126 are copied and the others become U+FFFD |
| `Utf8.OneByteTwice` | pkg/decoders/utf8.go:45-75 | one malformed byte becomes one U+FFFD, and three of them when extracted again |
| `EncodedRuns.ValueAt` | cmd/analyzer/main.go:428-462 | the lines of the value that starts at a match, in the bytes themselves: at a line start each is 64 or 76 columns wide, does not end in '=', and has one "\n" or "\r\n" and then the next after it, which is all the base64 that follows; after the last no such line comes; elsewhere one line |
| `EncodedRuns.NextLine` | cmd/analyzer/main.go:432-453 | one turn: the line that so follows, or none if there is none |
| `EncodedRuns.MatchInValue` | cmd/analyzer/main.go:428-462 | a match that starts within a value ends within it |
| `EncodedRuns.WrappedRuns` | cmd/analyzer/main.go:428-462 | every group is such a value that starts at a match, groups come one after the other, and every match lies in a group |
| `EncodedRuns.WrappedIsOneGroup` | cmd/analyzer/main.go:428-462 | text wrapped at 64 or 76 columns with "\n" or "\r\n" from a line start on makes exactly one group, whose lines are those of the text, up to the first line of another width or ending in '=' or followed by none; nothing of it lies in another group |
| `EncodedRuns.OneGroupOnly` | cmd/analyzer/main.go:428-462 | no match lies in two groups |
| `EncodedRuns.ValueParts` | cmd/analyzer/main.go:389-418 | the whole value if it decodes and is no longer than 65536 bytes, else stretches in order that hold every line readable by itself |
| `EncodedRuns.StretchParts` | cmd/analyzer/main.go:408-417 | one stretch, as one part or as the lines that decode alone |
| `EncodedRuns.EncodedParts` | cmd/analyzer/main.go:376-421 | from the matches: stretches of the values they make up, in the data, disjoint, ascending and starting at runes, each the decoding of consecutive lines of one value, holding every line readable by itself |
| `EncodedRuns.PartsFit` | cmd/analyzer/main.go:376-421 | the parts lie in the data and start at runes, so that their spans can be counted |
| `EncodedRuns.NamedByStart` | cmd/analyzer/main.go:523-532 | exactly the named findings, ordered by start |
| `EncodedRuns.Sweep` | cmd/analyzer/main.go:329-334 | after the sweep the reach is the furthest end of exactly the named findings that start no later |
| `EncodedRuns.ReachDecides` | cmd/analyzer/main.go:330-337 | comparing the reach decides whether any named finding contains the run |
| `EncodedRuns.Report` | cmd/analyzer/main.go:346-362 | the findings of a run: the first of each entity over its span, generic ones only where nothing is named and nothing kept overlaps |
| `EncodedRuns.PlaceRun` | cmd/analyzer/main.go:326-337 | a run's span counted on from the last run, and whether some named finding contains it, from one sweep |
| `EncodedRuns.ScanParts` | cmd/analyzer/main.go:318-364 | the single pass reports what the simple form does, scanning exactly the parts the simple form scans, of no more than 262144 bytes of text |
| `EncodedRuns.FindingsOfScanned` | cmd/analyzer/main.go:335-363 | what is reported is exactly what the scanned parts report |
| `EncodedRuns.ScanEncoded` | cmd/analyzer/main.go:316-365 | from the matches to the findings: what the simple form reports of the parts the matches make up, counting each span from the start and comparing it with every finding |
| `EncodedRuns.BudgetKept` | cmd/analyzer/main.go:339-341 | the decoded text that is scanned stays within 262144 bytes |
| `Chunker.ApplyOptions` | pkg/sources/chunker.go:110-129 | the last option of each kind counts; the chunk size asked for is used if and only if there is no file size or it is not the default of 10240, and otherwise it is 4096, 8192, 16384, 32768 or 65536 for files below 4096, 10240, 102400, 1048576 bytes and above |
| `Chunker.ReadInChunks` | pkg/sources/chunker.go:152-209 | the loop ends and sends the specified chunks |
| `Chunker.ReadChunk` | pkg/sources/chunker.go:174-206 | one turn: a whole chunk with its overlap, the rest, an error or nothing |
| `Chunker.ContentsMakeUpStream` | pkg/sources/chunker.go:152-209 | the contents concatenate to the stream; where it fails, to its bytes up to the last whole chunk, with the error last |
| `Chunker.ShownIff` | pkg/sources/chunker.go:152-209 | a byte range lies whole in some chunk if and only if it ends no further past the chunk it starts in than the peek, and than the reader's buffer: a chunk, or 16 bytes if that is more |
| `Chunker.ShortRangesShown` | pkg/sources/chunker.go:152-209 | no range that reaches at most so far past its first byte is split, and a longer one from a chunk's last byte is |
| `Chunker.HandleNonArchiveContent` | pkg/handlers/default.go:132-156 | each chunk is sent with the line its content starts on, errors as warnings |
| `Chunker.LineOfPosition` | pkg/engine/engine.go:1722-1726 | the line reported for a position is 1 plus the newlines before it in the stream, whichever overlapping chunk shows it |
| `BufferedReadSeeker.Seeker.Read` | pkg/iobuf/bufferedreaderseeker.go:112-191 | the stream's bytes at the position, at least one while there are any; the end reported exactly when the reader is asked and reports it; behind the stream nothing, and the position taken for the size |
| `BufferedReadSeeker.Seeker.CopyFromSelf` | pkg/iobuf/bufferedreaderseeker.go:242-278 | copying through Read stops after n bytes or at the end |
| `BufferedReadSeeker.Seeker.ReadUntil` | pkg/iobuf/bufferedreaderseeker.go:306-330 | ends with the target read or the whole stream read and its size known |
| `BufferedReadSeeker.Seeker.ReadToEnd` | pkg/iobuf/bufferedreaderseeker.go:242-278 | reads the rest of the stream and leaves the position |
| `BufferedReadSeeker.Seeker.WriteData` | pkg/iobuf/bufferedreaderseeker.go:280-304 | appends to the buffer and nothing else |
| `BufferedReadSeeker.Seeker.Seek` | pkg/iobuf/bufferedreaderseeker.go:195-240 | moves to the position asked for unless it is negative; the view stays valid if that is within the stream, and is behind the stream otherwise |
| `BufferedReadSeeker.Seeker.ReadAt` | pkg/iobuf/bufferedreaderseeker.go:355-382 | the stream's bytes at the offset; the position stays at the end instead of being restored if and only if the read goes past what is buffered and the reader reports the end there: never for a read that ends before the end, always for one behind it |
| `BufferedReadSeeker.LastByteReadAt` | pkg/iobuf/bufferedreaderseeker.go:355-382 | the same read of the last byte moves the position with a reader that reports the end early, and not with one that does not |
| `BufferedReadSeeker.Seeker.Size` | pkg/iobuf/bufferedreaderseeker.go:400-423 | the length of the stream, with the position unchanged |
| `BufferedReadSeeker.Seeker.SizeAfterSeek` | pkg/iobuf/bufferedreaderseeker.go:182-191 | after a seek and a read Size answers the larger of the position and the length: right if and only if the seek stayed within the stream |
| `BufferedReadSeeker.Seeker.Perform` | pkg/iobuf/bufferedreaderseeker.go:112-423 | each operation answers what the pair of stream and position allows, and moves it so |
| `BufferedReadSeeker.Seeker.PerformAll` | pkg/iobuf/bufferedreaderseeker.go:112-423 | any sequence of operations, up to the first past the end, is a run of the pair of stream and position |
| `VerificationCache.Cache.FromData` | pkg/verificationcache/verification_cache.go:75-163 | the answer, entries and counters the specification gives; without a cache the detector's own answer |
| `VerificationCache.Cache.ReadCache` | pkg/verificationcache/verification_cache.go:109-136 | all results from the cache, or the hits counted as wasted up to the first miss |
| `VerificationCache.Cache.ReadOrRefresh` | pkg/verificationcache/verification_cache.go:100-163 | all from the cache, or all verified anew and stored |
| `VerificationCache.Cache.Refresh` | pkg/verificationcache/verification_cache.go:139-162 | the detector's answer, with every result of it stored |
| `VerificationCache.Cache.VerifyCacheMisses` | pkg/verificationcache/verification_cache.go:167-216 | each result in turn, seeing what those before it stored |
| `VerificationCache.ServeAgrees` | pkg/verificationcache/verification_cache.go:75-163 | one harmless call on a sound cache gives the candidates, flags and errors of direct verification and leaves a sound cache |
| `VerificationCache.AgreementIff` | pkg/verificationcache/verification_cache.go:218-229 | the cache agrees with direct verification on all sequences of harmless calls if and only if Raw and RawV2 joined and the detector type modulo 2^32 decide the outcome of what can be cached |
| `VerificationCache.KeyTells` | pkg/verificationcache/verification_cache.go:218-229 | a key is made if and only if Raw, RawV2 and four bytes are no longer than 16384, and two keys are the same if and only if Raw and RawV2 joined are and the detector types agree modulo 2^32 |
| `VerificationCache.TypesKeepApart` | pkg/verificationcache/verification_cache.go:218-229 | storing a result changes nothing that a result of another detector type finds |
| `VerificationCache.SecretWorldAgrees` | pkg/verificationcache/verification_cache.go:75-163 | a verification that looks at Raw and RawV2 joined and the 32-bit detector type alone always agrees with the cache |
| `VerificationCache.KeysCollide` | pkg/verificationcache/verification_cache.go:218-229 | only the concatenation of Raw and RawV2 is in the key |
| `VerificationCache.UnverifiedUpdate` | pkg/verificationcache/verification_cache.go:139-160 | after any harmless calls, a forced update without verification leaves every later harmless call right if and only if a verification would answer unverified for each candidate it stores |
| `VerificationCache.AnyCallsAgreeIff` | pkg/verificationcache/verification_cache.go:75-163 | on all sequences of calls, unverified forced updates included, the cache agrees if and only if Raw and RawV2 joined and the 32-bit detector type decide the outcome and no candidate that can be cached is ever verified |
| `VerificationCache.RunIsAccounted` | pkg/verificationcache/verification_cache.go:167-216 | after any calls hits are saved plus wasted hits, and no key was verified by itself twice |
| `VerificationCache.RunKeepsNoSecrets` | pkg/detectors/detectors.go:194-203 | after any calls no entry of the cache holds a secret |
| `EscapedUnicode.CodePointMatches` | pkg/decoders/escaped_unicode.go:94-107 | the in-place filter keeps the matches not preceded by a word byte |
| `EscapedUnicode.NoneInside` | pkg/decoders/escaped_unicode.go:82-107 | no anchored match starts inside a dropped one |
| `EscapedUnicode.FilteredIsAnchored` | pkg/decoders/escaped_unicode.go:82-107 | filtering the leftmost matches of `U+XXXX.?` by the byte before gives exactly the matches of the word-anchored pattern |
| `EscapedUnicode.EncodedIsValid` | pkg/decoders/escaped_unicode.go:188-209 | what is written for a code point is one well-formed character |
| `EscapedUnicode.EncodedValue` | pkg/decoders/escaped_unicode.go:188-209 | its bits make up the code point again (section 3 of RFC 3629); a surrogate becomes U+FFFD |
| `EscapedUnicode.EncodedAgain` | pkg/decoders/escaped_unicode.go:188-209 | every well-formed character is what is written for its number, which is never a surrogate's |
| `EscapedUnicode.HexTextRead` | pkg/decoders/escaped_unicode.go:200-203 | the hexadecimal digits of a number, small or capital and with zeros in front, are read back as the number |
| `EscapedUnicode.EncodedFits` | pkg/decoders/escaped_unicode.go:188-209 | it is never longer than its digits |
| `EscapedUnicode.DecodeWithPattern` | pkg/decoders/escaped_unicode.go:188-209 | splicing in place from the right is simultaneous substitution from the left, and never lengthens the data |
| `EscapedUnicode.Splice` | pkg/decoders/escaped_unicode.go:195-207 | one turn extends the substituted tail by one match and leaves the text before it |
| `EscapedUnicode.SubstitutedShortens` | pkg/decoders/escaped_unicode.go:188-209 | substitution never lengthens the data |
| `EscapedUnicode.DecodeCodePointAt` | pkg/decoders/escaped_unicode.go:219-254 | the loop from the right, adjusting each match by the byte it ends with in the data as it is by then, is simultaneous substitution of the adjusted matches, and never lengthens the data |
| `EscapedUnicode.SpliceCodePoint` | pkg/decoders/escaped_unicode.go:222-251 | one turn: what it reads of the data is still the input, and the substituted tail grows by one match |
| `EscapedUnicode.ReplacesEscapeOnly` | pkg/decoders/escaped_unicode.go:219-254 | exactly the escape and a following space are replaced if and only if the `.` took at most one byte |
| `EscapedUnicode.HalfCharacterLost` | pkg/decoders/escaped_unicode.go:219-254 | an escape followed by a character of two bytes becomes its character and a stray byte |
| `Base64.GetSubstrings` | pkg/decoders/base64.go:83-130 | the counting pass finds as many substrings as the second pass collects |
| `Base64.CountSubstrings` | pkg/decoders/base64.go:83-107 | the count is the number of runs over the threshold |
| `Base64.CollectSubstrings` | pkg/decoders/base64.go:108-140 | the trimmed substring of each run over the threshold, in order |
| `Base64.RunsAreMaximal` | pkg/decoders/base64.go:83-130 | the runs are exactly the longest stretches of letters, digits, '+', '-', '/', '=' and '_' (sections 4 and 5 of RFC 4648) of more than 20 bytes, in order |
| `Base64.SubstringIs` | pkg/decoders/base64.go:132-140 | a run with an '=' between other characters gives what follows the first of them, and any other run gives itself without the end characters at its front |
| `Base64.EveryDecodableFound` | pkg/decoders/base64.go:55-65 | the forward search never fails for a decodable run: it finds disjoint ascending copies of them, each at its own place or before |
| `Base64.OwnPlacesIff` | pkg/decoders/base64.go:55-65 | the decodable runs are found at their own places if and only if no copy of one begins between the decodable run before it and itself |
| `Base64.TextLandsInOtherRun` | pkg/decoders/base64.go:55-65 | 25 letters A, a space and 22 letters A: the text of the second run replaces the front of the first, and the second stays encoded |
| `Base64.Replace` | pkg/decoders/base64.go:55-67 | the loop splices the texts over those copies and copies every other byte |
| `Base64.FromChunk` | pkg/decoders/base64.go:34-72 | nothing exactly if no run decodes; else the input with one copy of each decodable run replaced by its text and every other byte copied; the copies are the runs themselves if and only if each is the first copy of its text after the decodable run before it |
| `MatchProducts.ProductIndices` | pkg/custom_detectors/custom_detectors.go:469-492 | min(product, 100) tuples in order, none if some length is zero |
| `MatchProducts.Tuple` | pkg/custom_detectors/custom_detectors.go:483-489 | dividing by the running product gives the mixed-radix digits |
| `MatchProducts.PlaceOfDigits` | pkg/custom_detectors/custom_detectors.go:469-492 | the digits of a place below the product are in range and give the place back |
| `MatchProducts.DigitsOfPlace` | pkg/custom_detectors/custom_detectors.go:469-492 | every tuple in range has a place below the product, whose digits it is |
| `MatchProducts.TuplesAreTheProduct` | pkg/custom_detectors/custom_detectors.go:469-492 | the tuples are in range and pairwise distinct, and all of the product when there are no more than the limit |
| `MatchProducts.Candidate` | pkg/custom_detectors/custom_detectors.go:516-522 | one match of each name, the one at its index |
| `MatchProducts.PermutateMatches` | pkg/custom_detectors/custom_detectors.go:499-525 | min(product, 100) combinations of one match per name, each from a different tuple; when within the limit every combination is among them |
| `ResultChannel.EveryRunReturns` | pkg/custom_detectors/custom_detectors.go:181-263 | in every interleaving of FromData with the goroutines for the combinations: no send on the closed channel, no sender waits for room, runs are bounded, a run that cannot go on has returned, and then with one result for each combination that came to its send unless cancelled |
| `ResultChannel.SendersNeverWait` | pkg/custom_detectors/custom_detectors.go:181-253 | a sender at its send finds room in the channel of 100, though nothing is received before all are done |
| `ResultChannel.StepKeepsInv` | pkg/custom_detectors/custom_detectors.go:245-262 | each step keeps: what is in the channel and what has been received is what has been sent |

## Left out

- I/O and presentation: network, HTTP clients, git subprocesses, temporary files, metrics, logging, the terminal interface, printers and the command line.
- Detector bodies and regular expression engines: their matches and candidates are inputs, ascending and disjoint as the engines give them.
- Aho-Corasick, tokenizer, archive and package libraries, semaphores and the LRU cache: third party; a cache here never drops an entry by itself.
- Suppression of findings in the analyzer: its verdicts rest on classifiers that are not part of this model; logins and findings come in as lists.
- Docker source credentials in the analyzer's detect loop: a special case for one detector with no invariant of its own.
- Shannon entropy and string similarity: floating point and library code.
- Timeouts and wall-clock time: a cancelled context is an input that ends early, a refused write or a unit reported and not sent.
- Start-up of jobs while `Wait` is running, Enumerate, Scan, runWithoutUnits, scanWithUnit and the source semaphores: each has fewer goroutines than runWithUnits and the same obligations.
- Concurrent objects (`Pipeline`, `SourceManager`, `UnitHook`, `ResultChannel`) are state machines on values, not classes: a step is one atomic action, and data races below that are not modelled.
- Pipeline.EveryRunIsSafe: does not model the early return at engine.go:1269, reached only if a metric holds a value of another type, which would leak its WaitGroup like a panic.
- Pipeline.FinishReturnsIffNoPanic: does not model a panic of a decoder in a scanner worker or of the dispatcher in a notifier worker; each ends its worker, and whether `Finish` then returns depends on how many workers are left.
- Pipeline: what makes a result a duplicate and which chunks are verified decide the data of a run, not the protocol, and are inputs.
- Slices that share memory in Go are sequences here, except where a method updates an array in place: aliasing between a chunk's data and a decoder's output is not modelled.
- GitParse: commit and log size counters, the low-memory mode, and custom content writers, which do not change what is sent.
- GitParse.EveryCommitGoesOut: does not model Unicode white space in TrimSpace, only ASCII; it affects author, committer, date and path texts alone.
- GitLog.LogRoundTrip: does not cover combined diffs of merges, header lines the parser does not know (such as copy lines) or hunks beyond maxDiffSize; the statements about arbitrary lines in GitParse hold for these.
- Chunker.ReadInChunks: does not model a reader that panics, nor a cancelled context, which ends the chunks early.
- EncodedRuns.ScanEncoded: decodeBase64Text, decodesOnItsOwn and isReadableText are parameters, as is the scan of a decoded text; a cancelled context is not modelled.
- Windows.RuneIndex.Offsets: says nothing of a value that begins inside a multi-byte character, which cannot be told apart from its continuation by counting.
- Findings: scores are real numbers, which orders them as the finite floats they are.
- BufferedReadSeeker: readers that can seek themselves and the spill to disk are outside the simple view, which holds the whole stream in memory.
- VerificationCache: calls are sequential; the hash (BLAKE2b, section 2 of RFC 7693) is modelled as injective, so the key bytes stand for it.
- EscapedUnicode: the other escape formats use decodeWithPattern with their own patterns, whose matches are inputs.
- MatchProducts.ProductIndices: does not model overflow of the product of the lengths.
