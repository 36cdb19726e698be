/**
 The scan pipeline of the engine: scanner, verification-overlap, detector and notifier workers
 joined by bounded channels and WaitGroups, drained by Finish.

 Each process is a program counter over the statements of its Go loop. `Code` gives the operation
 a process is about to perform, `Enabled` says whether that operation can proceed, and `Next`
 performs it; a sequence of processes is thus an interleaving. A send on a closed channel, a second
 close and a WaitGroup going below zero are Go panics: they set `crashed`.

 What the workers compute is data here: a chunk is the list of messages its decoded forms give
 rise to, and a detection says which results it puts on the results channel and whether the
 detector panics afterwards. A detector can panic in two places: detectChunk recovers from it and
 never calls wgDoneFn, while in an overlap worker it ends the worker, before it sends the detections
 of its item and before it calls verificationOverlapWgDoneFn.
 */
module Pipeline {
  import opened Sums

  type Result = nat

  datatype Detection = Detection(results: seq<Result>, panics: bool)

  datatype Message =
    | ToDetector(detection: Detection)
    | ToOverlap(own: seq<Result>, detections: seq<Detection>, panics: bool)

  type Chunk = seq<Message>

  datatype Owner = OfScanner(scanner: nat) | OfOverlapper(overlapper: nat)

  datatype OverlapItem = OverlapItem(owner: nat, own: seq<Result>, detections: seq<Detection>, panics: bool)
  datatype DetectItem = DetectItem(owner: Owner, detection: Detection)

  // `added` is set between wg.Add(1) and the send it announces.
  datatype ScannerPc =
    | Ranging
    | Emitting(todo: seq<Message>, added: bool)
    | AwaitingOverlaps
    | AwaitingDetections
    | ScannerExits
    | ScannerGone

  datatype OverlapPc =
    | AwaitingItem
    | Handling(owner: nat, own: seq<Result>, todo: seq<Detection>, added: bool, panics: bool)
    | AwaitingOwn
    | OverlapExits
    | OverlapGone
    | OverlapDies       // a detector has panicked; only the deferred calls are left
    | OverlapDead

  datatype DetectorPc =
    | Idle
    | Detecting(owner: Owner, results: seq<Result>, panics: bool)
    | DetectorExits
    | DetectorGone

  datatype NotifierPc = Listening | Notifying(result: Result) | NotifierExits | NotifierGone

  datatype Scanner = Scanner(id: nat, pc: ScannerPc)
  datatype Overlapper = Overlapper(id: nat, pc: OverlapPc)

  datatype FinishPc =
    | WaitSources | WaitScanners | CloseOverlaps | WaitOverlappers | CloseDetects
    | WaitDetectors | CloseResults | WaitNotifiers | Finished

  // Everything that holds work: a process in some state, or an item on a channel.
  datatype Thing =
    | ASource(unsent: seq<Chunk>)
    | AChunk(chunk: Chunk)
    | AScanner(scanner: Scanner)
    | AnOverlap(overlap: OverlapItem)
    | AnOverlapper(overlapper: Overlapper)
    | ADetect(detect: DetectItem)
    | ADetector(detector: DetectorPc)
    | AResult(result: Result)
    | ANotifier(notifier: NotifierPc)
    | AFinisher(finisher: FinishPc)

  datatype Store = Store(
    source: seq<Chunk>,
    chunks: seq<Chunk>,
    scanners: seq<Scanner>,
    overlaps: seq<OverlapItem>,
    overlappers: seq<Overlapper>,
    detects: seq<DetectItem>,
    detectors: seq<DetectorPc>,
    results: seq<Result>,
    notifiers: seq<NotifierPc>,
    finish: FinishPc)

  datatype Channel = Chunks | Overlaps | Detects | Results

  // wgVerificationOverlap and wgDetect of each worker, then the four worker pools.
  datatype Counter =
    | OverlapsOf(scanner: nat)
    | DetectsOf(owner: Owner)
    | Scanners | Overlappers | Detectors | Notifiers

  datatype Config = Config(scanners: nat, overlappers: nat, detectors: nat, notifiers: nat,
                           chunkRoom: nat, overlapRoom: nat, detectRoom: nat, resultRoom: nat)

  datatype State = State(
    cfg: Config,
    q: Store,
    closed: set<Channel>,
    wg: multiset<Counter>,
    crashed: bool,
    notified: multiset<Result>,      // history: results a notifier has handled
    leaked: multiset<Counter>)       // history: Done calls that a panic has skipped

  datatype Process =
    | Sources
    | ScannerP(i: nat)
    | OverlapperP(j: nat)
    | DetectorP(k: nat)
    | NotifierP(n: nat)
    | Finisher

  // At least one worker in each pool, and buffered channels.
  predicate ValidConfig(c: Config) {
    c.scanners > 0 && c.overlappers > 0 && c.detectors > 0 && c.notifiers > 0 &&
    c.chunkRoom > 0 && c.overlapRoom > 0 && c.detectRoom > 0 && c.resultRoom > 0
  }

  function Start(c: Config, work: seq<Chunk>): State {
    State(c,
          Store(work, [],
                seq(c.scanners, (i: nat) => Scanner(i, Ranging)), [],
                seq(c.overlappers, (j: nat) => Overlapper(j, AwaitingItem)), [],
                seq(c.detectors, _ => Idle), [],
                seq(c.notifiers, _ => Listening), WaitSources),
          {},
          multiset{}[Scanners := c.scanners][Overlappers := c.overlappers]
                    [Detectors := c.detectors][Notifiers := c.notifiers],
          false, multiset{}, multiset{})
  }

  // ---------------------------------------------------------------- operations

  datatype Op =
    | Take(from: Channel, become: Thing)
    | Send(item: Thing, become: Thing)
    | Add(counter: Counter, become: Thing)
    | Done(counter: Counter, become: Thing)
    | Wait(counter: Counter, become: Thing)
    | Close(chan: Channel, become: Thing)
    | Skip(become: Thing)
    | Leak(counter: Counter, become: Thing)
    | Deliver(result: Result, become: Thing)
    | Blocked

  predicate Exists(q: Store, p: Process) {
    match p
    case ScannerP(i) => i < |q.scanners|
    case OverlapperP(j) => j < |q.overlappers|
    case DetectorP(k) => k < |q.detectors|
    case NotifierP(n) => n < |q.notifiers|
    case _ => true
  }

  function Self(q: Store, p: Process): Thing
    requires Exists(q, p)
  {
    match p
    case Sources => ASource(q.source)
    case ScannerP(i) => AScanner(q.scanners[i])
    case OverlapperP(j) => AnOverlapper(q.overlappers[j])
    case DetectorP(k) => ADetector(q.detectors[k])
    case NotifierP(n) => ANotifier(q.notifiers[n])
    case Finisher => AFinisher(q.finish)
  }

  // The next operation of the process whose state is `self`. A range loop takes the head of its
  // channel, and leaves the loop once the channel is closed and empty.
  function Code(s: State, self: Thing): Op {
    match self
    case ASource(unsent) =>
      if unsent == [] then Blocked else Send(AChunk(unsent[0]), ASource(unsent[1..]))
    case AScanner(w) => ScannerCode(s, w)
    case AnOverlapper(w) => OverlapperCode(s, w)
    case ADetector(pc) => DetectorCode(s, pc)
    case ANotifier(pc) => NotifierCode(s, pc)
    case AFinisher(pc) => FinishCode(s, pc)
    case _ => Blocked
  }

  function ScannerCode(s: State, w: Scanner): Op {
    match w.pc
    case Ranging =>
      if s.q.chunks != [] then Take(Chunks, AScanner(Scanner(w.id, Emitting(s.q.chunks[0], false))))
      else if Chunks in s.closed then Skip(AScanner(Scanner(w.id, AwaitingOverlaps)))
      else Blocked
    case Emitting(todo, added) =>
      if todo == [] then Skip(AScanner(Scanner(w.id, Ranging)))
      else (
        var sent := AScanner(Scanner(w.id, Emitting(todo[1..], false)));
        var counted := AScanner(Scanner(w.id, Emitting(todo, true)));
        match todo[0]
        case ToDetector(d) =>
          if !added then Add(DetectsOf(OfScanner(w.id)), counted)
          else Send(ADetect(DetectItem(OfScanner(w.id), d)), sent)
        case ToOverlap(own, ds, panics) =>
          if !added then Add(OverlapsOf(w.id), counted)
          else Send(AnOverlap(OverlapItem(w.id, own, ds, panics)), sent))
    case AwaitingOverlaps => Wait(OverlapsOf(w.id), AScanner(Scanner(w.id, AwaitingDetections)))
    case AwaitingDetections => Wait(DetectsOf(OfScanner(w.id)), AScanner(Scanner(w.id, ScannerExits)))
    case ScannerExits => Done(Scanners, AScanner(Scanner(w.id, ScannerGone)))
    case ScannerGone => Blocked
  }

  function OverlapperCode(s: State, w: Overlapper): Op {
    match w.pc
    case AwaitingItem =>
      if s.q.overlaps != [] then
        var m := s.q.overlaps[0];
        var todo := if m.panics then [] else m.detections;
        Take(Overlaps, AnOverlapper(Overlapper(w.id, Handling(m.owner, m.own, todo, false, m.panics))))
      else if Overlaps in s.closed then Skip(AnOverlapper(Overlapper(w.id, AwaitingOwn)))
      else Blocked
    case Handling(owner, own, todo, added, panics) =>
      if own != [] then
        Send(AResult(own[0]), AnOverlapper(Overlapper(w.id, Handling(owner, own[1..], todo, added, panics))))
      else if panics then
        Leak(OverlapsOf(owner), AnOverlapper(Overlapper(w.id, OverlapDies)))
      else if todo == [] then
        Done(OverlapsOf(owner), AnOverlapper(Overlapper(w.id, AwaitingItem)))
      else if !added then
        Add(DetectsOf(OfOverlapper(w.id)), AnOverlapper(Overlapper(w.id, Handling(owner, own, todo, true, panics))))
      else
        Send(ADetect(DetectItem(OfOverlapper(w.id), todo[0])),
             AnOverlapper(Overlapper(w.id, Handling(owner, own, todo[1..], false, panics))))
    case AwaitingOwn => Wait(DetectsOf(OfOverlapper(w.id)), AnOverlapper(Overlapper(w.id, OverlapExits)))
    case OverlapExits => Done(Overlappers, AnOverlapper(Overlapper(w.id, OverlapGone)))
    case OverlapGone => Blocked
    case OverlapDies => Done(Overlappers, AnOverlapper(Overlapper(w.id, OverlapDead)))
    case OverlapDead => Blocked
  }

  // A panic in the detector is recovered in detectChunk, so the worker goes on with the next item,
  // but wgDoneFn has been skipped.
  function DetectorCode(s: State, pc: DetectorPc): Op {
    match pc
    case Idle =>
      if s.q.detects != [] then
        var m := s.q.detects[0];
        Take(Detects, ADetector(Detecting(m.owner, m.detection.results, m.detection.panics)))
      else if Detects in s.closed then Skip(ADetector(DetectorExits))
      else Blocked
    case Detecting(owner, results, panics) =>
      if results != [] then Send(AResult(results[0]), ADetector(Detecting(owner, results[1..], panics)))
      else if panics then Leak(DetectsOf(owner), ADetector(Idle))
      else Done(DetectsOf(owner), ADetector(Idle))
    case DetectorExits => Done(Detectors, ADetector(DetectorGone))
    case DetectorGone => Blocked
  }

  function NotifierCode(s: State, pc: NotifierPc): Op {
    match pc
    case Listening =>
      if s.q.results != [] then Take(Results, ANotifier(Notifying(s.q.results[0])))
      else if Results in s.closed then Skip(ANotifier(NotifierExits))
      else Blocked
    case Notifying(r) => Deliver(r, ANotifier(Listening))
    case NotifierExits => Done(Notifiers, ANotifier(NotifierGone))
    case NotifierGone => Blocked
  }

  // The source manager's Wait returns once the sources are done, and closes the chunks channel.
  function FinishCode(s: State, pc: FinishPc): Op {
    match pc
    case WaitSources => if s.q.source == [] then Close(Chunks, AFinisher(WaitScanners)) else Blocked
    case WaitScanners => Wait(Scanners, AFinisher(CloseOverlaps))
    case CloseOverlaps => Close(Overlaps, AFinisher(WaitOverlappers))
    case WaitOverlappers => Wait(Overlappers, AFinisher(CloseDetects))
    case CloseDetects => Close(Detects, AFinisher(WaitDetectors))
    case WaitDetectors => Wait(Detectors, AFinisher(CloseResults))
    case CloseResults => Close(Results, AFinisher(WaitNotifiers))
    case WaitNotifiers => Wait(Notifiers, AFinisher(Finished))
    case Finished => Blocked
  }

  function ChannelOf(t: Thing): Channel {
    match t
    case AnOverlap(_) => Overlaps
    case ADetect(_) => Detects
    case AResult(_) => Results
    case _ => Chunks
  }

  predicate HasRoom(s: State, c: Channel) {
    match c
    case Chunks => |s.q.chunks| < s.cfg.chunkRoom
    case Overlaps => |s.q.overlaps| < s.cfg.overlapRoom
    case Detects => |s.q.detects| < s.cfg.detectRoom
    case Results => |s.q.results| < s.cfg.resultRoom
  }

  // A send can proceed when there is room; on a closed channel it proceeds by panicking.
  predicate CanRun(s: State, op: Op) {
    match op
    case Blocked => false
    case Send(x, _) => HasRoom(s, ChannelOf(x)) || ChannelOf(x) in s.closed
    case Wait(c, _) => s.wg[c] == 0
    case _ => true
  }

  predicate Enabled(s: State, p: Process) {
    !s.crashed && Exists(s.q, p) && CanRun(s, Code(s, Self(s.q, p)))
  }

  // ---------------------------------------------------------------- their effect

  function Put(q: Store, t: Thing): Store {
    match t
    case AChunk(x) => q.(chunks := q.chunks + [x])
    case AnOverlap(x) => q.(overlaps := q.overlaps + [x])
    case ADetect(x) => q.(detects := q.detects + [x])
    case AResult(x) => q.(results := q.results + [x])
    case _ => q
  }

  predicate Holds(q: Store, c: Channel) {
    match c
    case Chunks => q.chunks != []
    case Overlaps => q.overlaps != []
    case Detects => q.detects != []
    case Results => q.results != []
  }

  function Head(q: Store, c: Channel): Thing
    requires Holds(q, c)
  {
    match c
    case Chunks => AChunk(q.chunks[0])
    case Overlaps => AnOverlap(q.overlaps[0])
    case Detects => ADetect(q.detects[0])
    case Results => AResult(q.results[0])
  }

  function Tail(q: Store, c: Channel): Store
    requires Holds(q, c)
  {
    match c
    case Chunks => q.(chunks := q.chunks[1..])
    case Overlaps => q.(overlaps := q.overlaps[1..])
    case Detects => q.(detects := q.detects[1..])
    case Results => q.(results := q.results[1..])
  }

  // Whether `t` is a state process p can be in.
  predicate Fits(p: Process, t: Thing) {
    match p
    case Sources => t.ASource?
    case ScannerP(_) => t.AScanner?
    case OverlapperP(_) => t.AnOverlapper?
    case DetectorP(_) => t.ADetector?
    case NotifierP(_) => t.ANotifier?
    case Finisher => t.AFinisher?
  }

  function Become(q: Store, p: Process, t: Thing): Store
    requires Exists(q, p) && Fits(p, t)
  {
    match p
    case Sources => q.(source := t.unsent)
    case ScannerP(i) => q.(scanners := q.scanners[i := t.scanner])
    case OverlapperP(j) => q.(overlappers := q.overlappers[j := t.overlapper])
    case DetectorP(k) => q.(detectors := q.detectors[k := t.detector])
    case NotifierP(n) => q.(notifiers := q.notifiers[n := t.notifier])
    case Finisher => q.(finish := t.finisher)
  }

  lemma CodeFits(s: State, p: Process)
    requires Exists(s.q, p)
    ensures var op := Code(s, Self(s.q, p));
      (op.Blocked? || Fits(p, op.become)) && (op.Take? ==> Holds(s.q, op.from))
  {
  }

  function Next(s: State, p: Process): State
    requires Enabled(s, p)
  {
    CodeFits(s, p);
    Perform(s, p, Code(s, Self(s.q, p)))
  }

  function Moved(q: Store, p: Process, op: Op): Store
    requires Exists(q, p) && !op.Blocked? && Fits(p, op.become)
    requires op.Take? ==> Holds(q, op.from)
  {
    var r := match op
      case Take(c, _) => Tail(q, c)
      case Send(x, _) => Put(q, x)
      case _ => q;
    Become(r, p, op.become)
  }

  predicate Crashes(s: State, op: Op) {
    match op
    case Send(x, _) => ChannelOf(x) in s.closed
    case Done(c, _) => s.wg[c] == 0
    case Close(c, _) => c in s.closed
    case _ => false
  }

  function Perform(s: State, p: Process, op: Op): State
    requires Exists(s.q, p) && !op.Blocked? && Fits(p, op.become)
    requires op.Take? ==> Holds(s.q, op.from)
  {
    if Crashes(s, op) then s.(crashed := true)
    else s.(q := Moved(s.q, p, op),
            wg := (match op
                   case Add(c, _) => s.wg + multiset{c}
                   case Done(c, _) => s.wg - multiset{c}
                   case _ => s.wg),
            closed := (if op.Close? then s.closed + {op.chan} else s.closed),
            leaked := (if op.Leak? then s.leaked + multiset{op.counter} else s.leaked),
            notified := (if op.Deliver? then s.notified + multiset{op.result} else s.notified))
  }

  // ---------------------------------------------------------------- weights

  // A weight assigns a number to each thing; the conservation laws and the termination measure
  // are totals of weights.
  type Weight = Thing -> nat

  ghost function Total(w: Weight, q: Store): nat {
    w(ASource(q.source)) +
    Sum((x: Chunk) => w(AChunk(x)), q.chunks) +
    Sum((x: Scanner) => w(AScanner(x)), q.scanners) +
    Sum((x: OverlapItem) => w(AnOverlap(x)), q.overlaps) +
    Sum((x: Overlapper) => w(AnOverlapper(x)), q.overlappers) +
    Sum((x: DetectItem) => w(ADetect(x)), q.detects) +
    Sum((x: DetectorPc) => w(ADetector(x)), q.detectors) +
    Sum((x: Result) => w(AResult(x)), q.results) +
    Sum((x: NotifierPc) => w(ANotifier(x)), q.notifiers) +
    w(AFinisher(q.finish))
  }

  lemma TotalTail(w: Weight, q: Store, c: Channel)
    requires Holds(q, c)
    ensures Total(w, Tail(q, c)) + w(Head(q, c)) == Total(w, q)
  {
  }

  lemma TotalPut(w: Weight, q: Store, t: Thing)
    requires t.AChunk? || t.AnOverlap? || t.ADetect? || t.AResult?
    ensures Total(w, Put(q, t)) == Total(w, q) + w(t)
  {
    match t
    case AChunk(x) => SumPush((x: Chunk) => w(AChunk(x)), q.chunks, x);
    case AnOverlap(x) => SumPush((x: OverlapItem) => w(AnOverlap(x)), q.overlaps, x);
    case ADetect(x) => SumPush((x: DetectItem) => w(ADetect(x)), q.detects, x);
    case AResult(x) => SumPush((x: Result) => w(AResult(x)), q.results, x);
  }

  lemma TotalBecome(w: Weight, q: Store, p: Process, t: Thing)
    requires Exists(q, p) && Fits(p, t)
    ensures w(Self(q, p)) <= Total(w, q)
    ensures Total(w, Become(q, p, t)) + w(Self(q, p)) == Total(w, q) + w(t)
  {
    match p
    case ScannerP(i) => SumUpdate((x: Scanner) => w(AScanner(x)), q.scanners, i, t.scanner);
    case OverlapperP(j) => SumUpdate((x: Overlapper) => w(AnOverlapper(x)), q.overlappers, j, t.overlapper);
    case DetectorP(k) => SumUpdate((x: DetectorPc) => w(ADetector(x)), q.detectors, k, t.detector);
    case NotifierP(n) => SumUpdate((x: NotifierPc) => w(ANotifier(x)), q.notifiers, n, t.notifier);
    case _ =>
  }

  // What performing op adds to a total, less what it takes away.
  ghost function Gain(w: Weight, s: State, p: Process, op: Op): int
    requires Exists(s.q, p) && !op.Blocked?
    requires op.Take? ==> Holds(s.q, op.from)
  {
    w(op.become) as int - w(Self(s.q, p)) as int +
    (match op
     case Take(c, _) => -(w(Head(s.q, c)) as int)
     case Send(x, _) => w(x)
     case _ => 0)
  }

  lemma TakeGain(w: Weight, q: Store, p: Process, c: Channel, b: Thing)
    requires Exists(q, p) && Fits(p, b) && Holds(q, c)
    ensures Total(w, Become(Tail(q, c), p, b)) + w(Head(q, c)) + w(Self(q, p)) == Total(w, q) + w(b)
  {
    TotalTail(w, q, c);
    TotalBecome(w, Tail(q, c), p, b);
    assert Self(Tail(q, c), p) == Self(q, p);
  }

  lemma SendGain(w: Weight, q: Store, p: Process, x: Thing, b: Thing)
    requires Exists(q, p) && Fits(p, b)
    requires x.AChunk? || x.AnOverlap? || x.ADetect? || x.AResult?
    ensures Total(w, Become(Put(q, x), p, b)) + w(Self(q, p)) == Total(w, q) + w(x) + w(b)
  {
    TotalPut(w, q, x);
    TotalBecome(w, Put(q, x), p, b);
    assert Self(Put(q, x), p) == Self(q, p);
  }

  lemma PerformGain(w: Weight, s: State, p: Process, op: Op)
    requires Exists(s.q, p) && !op.Blocked? && Fits(p, op.become)
    requires op.Take? ==> Holds(s.q, op.from)
    requires op.Send? ==> op.item.AChunk? || op.item.AnOverlap? || op.item.ADetect? || op.item.AResult?
    ensures !Crashes(s, op) ==>
              Total(w, Perform(s, p, op).q) == Total(w, s.q) + Gain(w, s, p, op)
  {
    if op.Take? {
      TakeGain(w, s.q, p, op.from, op.become);
    } else if op.Send? {
      SendGain(w, s.q, p, op.item, op.become);
    } else {
      TotalBecome(w, s.q, p, op.become);
    }
  }

  lemma SendsItem(s: State, p: Process)
    requires Exists(s.q, p)
    ensures var op := Code(s, Self(s.q, p));
      op.Send? ==> op.item.AChunk? || op.item.AnOverlap? || op.item.ADetect? || op.item.AResult?
  {
  }

  // The operation of an enabled process, with what it does to a total.
  lemma StepGain(w: Weight, s: State, p: Process) returns (op: Op)
    requires Enabled(s, p)
    ensures op == Code(s, Self(s.q, p)) && !op.Blocked? && Fits(p, op.become)
    ensures op.Take? ==> Holds(s.q, op.from)
    ensures Next(s, p) == Perform(s, p, op)
    ensures w(Self(s.q, p)) <= Total(w, s.q)
    ensures !Next(s, p).crashed ==> Total(w, Next(s, p).q) == Total(w, s.q) + Gain(w, s, p, op)
  {
    CodeFits(s, p);
    SendsItem(s, p);
    op := Code(s, Self(s.q, p));
    PerformGain(w, s, p, op);
    TotalBecome(w, s.q, p, op.become);
  }

  // ---------------------------------------------------------------- WaitGroups

  ghost function One(b: bool): nat { if b then 1 else 0 }

  // How much of counter c the given thing accounts for: an announced but unsent item, an item on
  // its way, or a worker that has not exited.
  ghost function Owes(c: Counter, t: Thing): nat {
    match t
    case AScanner(w) =>
      One(c == Scanners && !w.pc.ScannerGone?) +
      One(w.pc.Emitting? && w.pc.added && w.pc.todo != [] &&
          c == (if w.pc.todo[0].ToDetector? then DetectsOf(OfScanner(w.id)) else OverlapsOf(w.id)))
    case AnOverlap(m) => One(c == OverlapsOf(m.owner))
    case AnOverlapper(w) =>
      One(c == Overlappers && !w.pc.OverlapGone? && !w.pc.OverlapDead?) +
      One(w.pc.Handling? && c == OverlapsOf(w.pc.owner)) +
      One(w.pc.Handling? && w.pc.added && !w.pc.panics && w.pc.todo != [] && c == DetectsOf(OfOverlapper(w.id)))
    case ADetect(m) => One(c == DetectsOf(m.owner))
    case ADetector(pc) =>
      One(c == Detectors && !pc.DetectorGone?) + One(pc.Detecting? && c == DetectsOf(pc.owner))
    case ANotifier(pc) => One(c == Notifiers && !pc.NotifierGone?)
    case _ => 0
  }

  ghost function Owed(c: Counter): Weight {
    t => Owes(c, t)
  }

  // Every WaitGroup counts exactly its outstanding items, plus those leaked by a panic.
  ghost predicate Balanced(s: State) {
    forall c :: s.wg[c] == Total(Owed(c), s.q) + s.leaked[c]
  }

  // What an operation does to counter c.
  ghost function Credit(c: Counter, op: Op): int {
    match op
    case Add(d, _) => One(c == d)
    case Done(d, _) => -(One(c == d) as int)
    case Leak(d, _) => -(One(c == d) as int)
    case _ => 0
  }

  // What an operation does to a counter is what it moves of it; Done is called only by a process
  // that the counter counts.
  ghost predicate OpBalances(c: Counter, s: State, p: Process, op: Op)
    requires Exists(s.q, p) && !op.Blocked?
    requires op.Take? ==> Holds(s.q, op.from)
  {
    Gain(Owed(c), s, p, op) == Credit(c, op) &&
    (op == Done(c, op.become) ==> Owes(c, Self(s.q, p)) > 0)
  }

  lemma OpsBalance(c: Counter, s: State, p: Process, op: Op)
    requires Exists(s.q, p) && op == Code(s, Self(s.q, p)) && !op.Blocked?
    requires op.Take? ==> Holds(s.q, op.from)
    ensures OpBalances(c, s, p, op)
  {
    match p
    case Sources =>
    case ScannerP(i) => ScannerBalances(c, s, i, op);
    case OverlapperP(j) => OverlapperBalances(c, s, j, op);
    case DetectorP(k) => DetectorBalances(c, s, k, op);
    case NotifierP(n) => NotifierBalances(c, s, n, op);
    case Finisher =>
  }

  lemma ScannerBalances(c: Counter, s: State, i: nat, op: Op)
    requires i < |s.q.scanners| && op == ScannerCode(s, s.q.scanners[i]) && !op.Blocked?
    requires op.Take? ==> Holds(s.q, op.from)
    ensures OpBalances(c, s, ScannerP(i), op)
  {
  }

  lemma OverlapperBalances(c: Counter, s: State, i: nat, op: Op)
    requires i < |s.q.overlappers| && op == OverlapperCode(s, s.q.overlappers[i]) && !op.Blocked?
    requires op.Take? ==> Holds(s.q, op.from)
    ensures OpBalances(c, s, OverlapperP(i), op)
  {
  }

  lemma DetectorBalances(c: Counter, s: State, i: nat, op: Op)
    requires i < |s.q.detectors| && op == DetectorCode(s, s.q.detectors[i]) && !op.Blocked?
    requires op.Take? ==> Holds(s.q, op.from)
    ensures OpBalances(c, s, DetectorP(i), op)
  {
  }

  lemma NotifierBalances(c: Counter, s: State, i: nat, op: Op)
    requires i < |s.q.notifiers| && op == NotifierCode(s, s.q.notifiers[i]) && !op.Blocked?
    requires op.Take? ==> Holds(s.q, op.from)
    ensures OpBalances(c, s, NotifierP(i), op)
  {
  }

  lemma CounterEffect(c: Counter, s: State, p: Process, op: Op)
    requires Exists(s.q, p) && !op.Blocked? && Fits(p, op.become)
    requires op.Take? ==> Holds(s.q, op.from)
    requires !Crashes(s, op)
    ensures var t := Perform(s, p, op);
      t.wg[c] + s.leaked[c] == s.wg[c] + t.leaked[c] + Credit(c, op)
  {
  }

  lemma BalanceKept(s: State, p: Process, op: Op)
    requires Exists(s.q, p) && op == Code(s, Self(s.q, p)) && !op.Blocked? && Fits(p, op.become)
    requires op.Take? ==> Holds(s.q, op.from)
    requires Balanced(s) && !s.crashed && !Crashes(s, op)
    ensures Balanced(Perform(s, p, op))
  {
    var t := Perform(s, p, op);
    SendsItem(s, p);
    forall c ensures t.wg[c] == Total(Owed(c), t.q) + t.leaked[c] {
      PerformGain(Owed(c), s, p, op);
      OpsBalance(c, s, p, op);
      CounterEffect(c, s, p, op);
      assert s.wg[c] == Total(Owed(c), s.q) + s.leaked[c];
    }
  }

  // A counter is at least what any one process owes it.
  lemma Counted(c: Counter, s: State, p: Process)
    requires Exists(s.q, p) && Balanced(s)
    ensures s.wg[c] >= Owes(c, Self(s.q, p))
  {
    SelfFits(s.q, p);
    TotalBecome(Owed(c), s.q, p, Self(s.q, p));
    assert s.wg[c] == Total(Owed(c), s.q) + s.leaked[c];
    assert Owed(c)(Self(s.q, p)) == Owes(c, Self(s.q, p));
  }

  lemma SelfFits(q: Store, p: Process)
    requires Exists(q, p)
    ensures Fits(p, Self(q, p))
  {
  }

  // ---------------------------------------------------------------- safety

  ghost function Rank(f: FinishPc): nat {
    match f
    case WaitSources => 0
    case WaitScanners => 1
    case CloseOverlaps => 2
    case WaitOverlappers => 3
    case CloseDetects => 4
    case WaitDetectors => 5
    case CloseResults => 6
    case WaitNotifiers => 7
    case Finished => 8
  }

  // Finish has closed exactly the channels it has passed, after the pools that send on them exited.
  ghost predicate Phased(s: State) {
    var r := Rank(s.q.finish);
    && (Chunks in s.closed <==> r >= 1) && (r >= 1 ==> s.q.source == [])
    && (Overlaps in s.closed <==> r >= 3) && (r >= 2 ==> s.wg[Scanners] == 0)
    && (Detects in s.closed <==> r >= 5) && (r >= 4 ==> s.wg[Overlappers] == 0)
    && (Results in s.closed <==> r >= 7) && (r >= 6 ==> s.wg[Detectors] == 0)
    && (r >= 8 ==> s.wg[Notifiers] == 0)
  }

  // Worker state t is past its range loop over channel c.
  ghost predicate Left(t: Thing, c: Channel) {
    match t
    case AScanner(w) => c == Chunks && !w.pc.Ranging? && !w.pc.Emitting?
    case AnOverlapper(w) => c == Overlaps && !w.pc.AwaitingItem? && !w.pc.Handling? && !Dead(w.pc)
    case ADetector(pc) => c == Detects && !pc.Idle? && !pc.Detecting?
    case ANotifier(pc) => c == Results && !pc.Listening? && !pc.Notifying?
    case _ => false
  }

  // An overlap worker that a panic has ended.
  ghost predicate Dead(pc: OverlapPc) { pc.OverlapDies? || pc.OverlapDead? }

  // It has left the scanner of its item with one Done too few.
  ghost predicate Missed(s: State) {
    forall j :: 0 <= j < |s.q.overlappers| && Dead(s.q.overlappers[j].pc) ==> OverlapLeaked(s)
  }

  ghost predicate OverlapLeaked(s: State) { exists i :: OverlapsOf(i) in s.leaked }

  // A worker leaves its range loop when its channel is closed and empty, and so it stays.
  ghost predicate Drained(s: State) {
    forall p, c :: Exists(s.q, p) && Left(Self(s.q, p), c) ==> c in s.closed && !Holds(s.q, c)
  }

  // The worker whose items c counts.
  ghost function Home(c: Counter): Process {
    match c
    case OverlapsOf(i) => ScannerP(i)
    case DetectsOf(OfScanner(i)) => ScannerP(i)
    case DetectsOf(OfOverlapper(j)) => OverlapperP(j)
    case _ => Finisher
  }

  // Worker state t has waited for counter c.
  ghost predicate Spent(t: Thing, c: Counter) {
    match t
    case AScanner(w) =>
      w.pc.ScannerExits? || w.pc.ScannerGone? || (w.pc.AwaitingDetections? && c.OverlapsOf?)
    case AnOverlapper(w) => w.pc.OverlapExits? || w.pc.OverlapGone?
    case _ => false
  }

  // The items of a worker are counted under its own name, and none once it has waited for them.
  ghost predicate Settled(s: State) {
    forall c: Counter ::
      (c.OverlapsOf? || c.DetectsOf?) && (!Exists(s.q, Home(c)) || Spent(Self(s.q, Home(c)), c)) ==> s.wg[c] == 0
  }

  ghost predicate Named(s: State) {
    && (forall i :: 0 <= i < |s.q.scanners| ==> s.q.scanners[i].id == i)
    && (forall j :: 0 <= j < |s.q.overlappers| ==> s.q.overlappers[j].id == j)
  }

  ghost predicate Sized(s: State) {
    && ValidConfig(s.cfg)
    && |s.q.scanners| == s.cfg.scanners && |s.q.overlappers| == s.cfg.overlappers
    && |s.q.detectors| == s.cfg.detectors && |s.q.notifiers| == s.cfg.notifiers
  }

  ghost predicate Inv(s: State) {
    !s.crashed && Sized(s) && Balanced(s) && Phased(s) && Drained(s) && Named(s) && Settled(s) && Missed(s)
  }

  // A process that can still send has not exited, and each pool sends on its own channels.
  lemma SendersCounted(s: State, p: Process, op: Op)
    requires Exists(s.q, p) && op == Code(s, Self(s.q, p)) && op.Send?
    ensures p.Sources? || p.ScannerP? || p.OverlapperP? || p.DetectorP?
    ensures p.Sources? ==> s.q.source != [] && ChannelOf(op.item) == Chunks
    ensures p.ScannerP? ==> Owes(Scanners, Self(s.q, p)) > 0 && ChannelOf(op.item) in {Overlaps, Detects}
    ensures p.OverlapperP? ==> Owes(Overlappers, Self(s.q, p)) > 0 && ChannelOf(op.item) in {Detects, Results}
    ensures p.DetectorP? ==> Owes(Detectors, Self(s.q, p)) > 0 && ChannelOf(op.item) == Results
  {
  }

  lemma SendsOpen(s: State, p: Process, op: Op)
    requires Exists(s.q, p) && op == Code(s, Self(s.q, p)) && op.Send? && Phased(s) && Balanced(s)
    ensures ChannelOf(op.item) !in s.closed
  {
    SendersCounted(s, p, op);
    if p.ScannerP? {
      Counted(Scanners, s, p);
    } else if p.OverlapperP? {
      Counted(Overlappers, s, p);
    } else if p.DetectorP? {
      Counted(Detectors, s, p);
    }
  }

  // Only Finish closes, and workers count only items.
  lemma WorkerOp(s: State, p: Process)
    requires Exists(s.q, p) && !p.Finisher?
    ensures var op := Code(s, Self(s.q, p));
      !op.Close? && (op.Add? ==> op.counter.OverlapsOf? || op.counter.DetectsOf?)
  {
  }

  lemma NoCrash(s: State, p: Process, op: Op)
    requires Exists(s.q, p) && op == Code(s, Self(s.q, p)) && Phased(s) && Balanced(s)
    ensures !Crashes(s, op)
  {
    if op.Done? {
      OpsBalance(op.counter, s, p, op);
      Counted(op.counter, s, p);
    } else if op.Send? {
      SendsOpen(s, p, op);
    } else if op.Close? {
      if p.Finisher? {
        assert op == FinishCode(s, s.q.finish);
      } else {
        WorkerOp(s, p);
      }
    }
  }

  // What an operation leaves of the store besides the channels and the state of the process itself.
  lemma BecomeShape(q: Store, p: Process, t: Thing)
    requires Exists(q, p) && Fits(p, t)
    ensures var r := Become(q, p, t);
      && |r.scanners| == |q.scanners| && |r.overlappers| == |q.overlappers|
      && |r.detectors| == |q.detectors| && |r.notifiers| == |q.notifiers|
      && r.source == (if p.Sources? then t.unsent else q.source)
      && r.finish == if p.Finisher? then t.finisher else q.finish
  {
  }

  lemma MovedShape(q: Store, p: Process, op: Op)
    requires Exists(q, p) && !op.Blocked? && Fits(p, op.become)
    requires op.Take? ==> Holds(q, op.from)
    ensures var r := Moved(q, p, op);
      && |r.scanners| == |q.scanners| && |r.overlappers| == |q.overlappers|
      && |r.detectors| == |q.detectors| && |r.notifiers| == |q.notifiers|
      && r.source == (if p.Sources? then op.become.unsent else q.source)
      && r.finish == if p.Finisher? then op.become.finisher else q.finish
  {
    hide Become, Holds;
    var r := match op case Take(c, _) => Tail(q, c) case Send(x, _) => Put(q, x) case _ => q;
    assert Exists(r, p);
    BecomeShape(r, p, op.become);
  }

  lemma PerformCounts(s: State, p: Process, op: Op, c: Counter)
    requires Exists(s.q, p) && !op.Blocked? && Fits(p, op.become)
    requires op.Take? ==> Holds(s.q, op.from)
    ensures var t := Perform(s, p, op);
      t.wg[c] <= s.wg[c] + if op.Add? && op.counter == c then 1 else 0
  {
    hide Moved, Exists, Fits, Holds;
  }

  lemma PerformCloses(s: State, p: Process, op: Op)
    requires Exists(s.q, p) && !op.Blocked? && Fits(p, op.become) && !Crashes(s, op)
    requires op.Take? ==> Holds(s.q, op.from)
    ensures var t := Perform(s, p, op);
      t.q == Moved(s.q, p, op) && t.closed == if op.Close? then s.closed + {op.chan} else s.closed
  {
    hide Moved, Exists, Fits, Holds, Crashes;
  }

  lemma PerformKeepsPhase(s: State, p: Process, op: Op)
    requires Exists(s.q, p) && !op.Blocked? && Fits(p, op.become) && !p.Finisher?
    requires op.Take? ==> Holds(s.q, op.from)
    requires !op.Close? && (op.Add? ==> op.counter.OverlapsOf? || op.counter.DetectsOf?)
    ensures var t := Perform(s, p, op);
      && t.closed == s.closed && t.q.finish == s.q.finish
      && (p.Sources? || t.q.source == s.q.source)
      && t.wg[Scanners] <= s.wg[Scanners] && t.wg[Overlappers] <= s.wg[Overlappers]
      && t.wg[Detectors] <= s.wg[Detectors] && t.wg[Notifiers] <= s.wg[Notifiers]
  {
    MovedShape(s.q, p, op);
    if !Crashes(s, op) { PerformCloses(s, p, op); }
    PerformCounts(s, p, op, Scanners);
    PerformCounts(s, p, op, Overlappers);
    PerformCounts(s, p, op, Detectors);
    PerformCounts(s, p, op, Notifiers);
    CrashStays(s, p, op);
    hide Moved, Exists, Fits, Holds, Perform;
  }

  lemma CrashStays(s: State, p: Process, op: Op)
    requires Exists(s.q, p) && !op.Blocked? && Fits(p, op.become) && (op.Take? ==> Holds(s.q, op.from))
    ensures Crashes(s, op) ==> Perform(s, p, op) == s.(crashed := true)
  {
    hide Moved, Exists, Fits, Holds, Crashes;
  }

  lemma PhasesKept(s: State, p: Process, op: Op)
    requires Exists(s.q, p) && op == Code(s, Self(s.q, p)) && CanRun(s, op) && Fits(p, op.become)
    requires op.Take? ==> Holds(s.q, op.from)
    requires Phased(s) && !Crashes(s, op)
    ensures Phased(Perform(s, p, op))
  {
    if p.Finisher? {
      FinishKeepsPhase(s, op);
    } else {
      WorkerOp(s, p);
      PerformKeepsPhase(s, p, op);
      if p.Sources? { assert s.q.source != []; }
    }
  }

  // Finish closes a channel at its even ranks, after the wait at the odd rank before.
  lemma FinishOp(s: State, op: Op)
    requires op == FinishCode(s, s.q.finish) && CanRun(s, op)
    ensures op.become.AFinisher?
    ensures var r := Rank(s.q.finish);
      && r < 8 && Rank(op.become.finisher) == r + 1 && !op.Add?
      && (if r % 2 == 0 then op.Close? else op.Wait?)
      && (r == 0 ==> op.chan == Chunks && s.q.source == []) && (r == 2 ==> op.chan == Overlaps)
      && (r == 4 ==> op.chan == Detects) && (r == 6 ==> op.chan == Results)
      && (r == 1 ==> s.wg[Scanners] == 0) && (r == 3 ==> s.wg[Overlappers] == 0)
      && (r == 5 ==> s.wg[Detectors] == 0) && (r == 7 ==> s.wg[Notifiers] == 0)
  {
  }

  lemma FinishKeepsPhase(s: State, op: Op)
    requires Phased(s) && op == FinishCode(s, s.q.finish) && CanRun(s, op) && Fits(Finisher, op.become)
    requires !Crashes(s, op)
    ensures Phased(Perform(s, Finisher, op))
  {
    FinishOp(s, op);
    MovedShape(s.q, Finisher, op);
    PerformCloses(s, Finisher, op);
    PerformCounts(s, Finisher, op, Scanners);
    PerformCounts(s, Finisher, op, Overlappers);
    PerformCounts(s, Finisher, op, Detectors);
    PerformCounts(s, Finisher, op, Notifiers);
    hide Moved, Exists, Fits, Holds, Perform, Crashes, FinishCode, CanRun, Rank;
  }

  lemma OthersStay(q: Store, p: Process, op: Op, other: Process)
    requires Exists(q, p) && !op.Blocked? && Fits(p, op.become)
    requires op.Take? ==> Holds(q, op.from)
    ensures var r := Moved(q, p, op);
      && (Exists(r, other) <==> Exists(q, other))
      && (Exists(q, other) ==> Self(r, other) == if other == p then op.become else Self(q, other))
  {
  }

  lemma LeavesDrained(s: State, p: Process, op: Op, c: Channel)
    requires Exists(s.q, p) && op == Code(s, Self(s.q, p)) && !op.Blocked?
    ensures Left(op.become, c) ==> Left(Self(s.q, p), c) || (c in s.closed && !Holds(s.q, c))
  {
  }

  lemma StaysEmpty(q: Store, p: Process, op: Op, c: Channel)
    requires Exists(q, p) && !op.Blocked? && Fits(p, op.become) && !Holds(q, c)
    requires op.Take? ==> Holds(q, op.from)
    requires op.Send? ==> ChannelOf(op.item) != c
    ensures !Holds(Moved(q, p, op), c)
  {
  }

  lemma DrainedKept(s: State, p: Process, op: Op)
    requires Exists(s.q, p) && op == Code(s, Self(s.q, p)) && !op.Blocked? && Fits(p, op.become)
    requires op.Take? ==> Holds(s.q, op.from)
    requires Drained(s) && !Crashes(s, op)
    ensures Drained(Perform(s, p, op))
  {
    hide Code, Moved, Left, Holds, Fits, Self;
    var t := Perform(s, p, op);
    forall other, c | Exists(t.q, other) && Left(Self(t.q, other), c)
      ensures c in t.closed && !Holds(t.q, c)
    {
      OthersStay(s.q, p, op, other);
      LeavesDrained(s, p, op, c);
      assert c in s.closed && !Holds(s.q, c);
      StaysEmpty(s.q, p, op, c);
    }
  }

  // A worker counts items in under its own name, and only while it is still sending; it passes a
  // wait only at zero.
  lemma CountsOwn(s: State, p: Process, op: Op, c: Counter)
    requires Exists(s.q, p) && op == Code(s, Self(s.q, p)) && !op.Blocked? && CanRun(s, op) && Named(s)
    requires c.OverlapsOf? || c.DetectsOf?
    ensures op.Add? && op.counter == c ==> Home(c) == p && !Spent(op.become, c)
    ensures Home(c) == p && Spent(op.become, c) ==> Spent(Self(s.q, p), c) || s.wg[c] == 0
  {
  }

  lemma SettledKept(s: State, p: Process, op: Op)
    requires Exists(s.q, p) && op == Code(s, Self(s.q, p)) && !op.Blocked? && Fits(p, op.become)
    requires op.Take? ==> Holds(s.q, op.from)
    requires Settled(s) && Named(s) && CanRun(s, op) && !Crashes(s, op)
    ensures Settled(Perform(s, p, op))
  {
    var t := Perform(s, p, op);
    forall c: Counter | (c.OverlapsOf? || c.DetectsOf?) &&
        (!Exists(t.q, Home(c)) || Spent(Self(t.q, Home(c)), c))
      ensures t.wg[c] == 0
    {
      OthersStay(s.q, p, op, Home(c));
      CountsOwn(s, p, op, c);
    }
  }

  lemma KeepsName(s: State, p: Process, op: Op)
    requires Exists(s.q, p) && op == Code(s, Self(s.q, p)) && !op.Blocked? && Fits(p, op.become)
    ensures p.ScannerP? ==> op.become.scanner.id == s.q.scanners[p.i].id
    ensures p.OverlapperP? ==> op.become.overlapper.id == s.q.overlappers[p.j].id
  {
  }

  lemma NamedKept(s: State, p: Process, op: Op)
    requires Exists(s.q, p) && op == Code(s, Self(s.q, p)) && !op.Blocked? && Fits(p, op.become)
    requires op.Take? ==> Holds(s.q, op.from)
    requires Named(s)
    ensures Named(Perform(s, p, op))
  {
    KeepsName(s, p, op);
    var t := Perform(s, p, op);
    forall i | 0 <= i < |t.q.scanners| ensures t.q.scanners[i].id == i {
      OthersStay(s.q, p, op, ScannerP(i));
    }
    forall j | 0 <= j < |t.q.overlappers| ensures t.q.overlappers[j].id == j {
      OthersStay(s.q, p, op, OverlapperP(j));
    }
  }

  lemma MissedKept(s: State, p: Process, op: Op)
    requires Exists(s.q, p) && op == Code(s, Self(s.q, p)) && !op.Blocked? && Fits(p, op.become)
    requires op.Take? ==> Holds(s.q, op.from)
    requires Missed(s) && !Crashes(s, op)
    ensures Missed(Perform(s, p, op))
  {
    var t := Perform(s, p, op);
    forall j | 0 <= j < |t.q.overlappers| && Dead(t.q.overlappers[j].pc) ensures OverlapLeaked(t) {
      OthersStay(s.q, p, op, OverlapperP(j));
      if Dead(s.q.overlappers[j].pc) {
        var i :| OverlapsOf(i) in s.leaked;
        assert OverlapsOf(i) in t.leaked;
      } else {
        assert op.Leak? && op.counter.OverlapsOf? && op.counter in t.leaked;
        assert OverlapsOf(op.counter.scanner) in t.leaked;
      }
    }
  }

  lemma SizedKept(s: State, p: Process, op: Op)
    requires Exists(s.q, p) && !op.Blocked? && Fits(p, op.become) && Sized(s)
    requires op.Take? ==> Holds(s.q, op.from)
    ensures Sized(Perform(s, p, op))
  {
    MovedShape(s.q, p, op);
    hide Moved, Exists, Fits, Holds;
  }

  // Every step of every process keeps the invariant.
  lemma StepKeepsInv(s: State, p: Process)
    requires Enabled(s, p) && Inv(s)
    ensures Inv(Next(s, p))
  {
    var op := Code(s, Self(s.q, p));
    CodeFits(s, p);
    NoCrash(s, p, op);
    OpKeepsInv(s, p, op);
  }

  lemma OpKeepsInv(s: State, p: Process, op: Op)
    requires Exists(s.q, p) && op == Code(s, Self(s.q, p)) && CanRun(s, op) && Fits(p, op.become)
    requires op.Take? ==> Holds(s.q, op.from)
    requires Inv(s) && !Crashes(s, op)
    ensures Inv(Perform(s, p, op))
  {
    SizedKept(s, p, op);
    BalanceKept(s, p, op);
    PhasesKept(s, p, op);
    DrainedKept(s, p, op);
    SettledKept(s, p, op);
    NamedKept(s, p, op);
    MissedKept(s, p, op);
  }

  // ---------------------------------------------------------------- progress

  ghost function Level(c: Channel): nat {
    match c case Results => 0 case Detects => 1 case Overlaps => 2 case Chunks => 3
  }

  // A process with something to do that is not a wait can do it, or what it sends on is full, and
  // then the readers of that channel can move.
  lemma BusyMoves(s: State, p: Process) returns (r: Process)
    requires Inv(s) && s.leaked == multiset{} && Exists(s.q, p)
    requires var op := Code(s, Self(s.q, p)); !op.Blocked? && !op.Wait?
    ensures Enabled(s, r)
    decreases var op := Code(s, Self(s.q, p)); if op.Send? then Level(ChannelOf(op.item)) + 1 else 0, 1
  {
    var op := Code(s, Self(s.q, p));
    if CanRun(s, op) {
      r := p;
    } else {
      assert op.Send? && !HasRoom(s, ChannelOf(op.item));
      r := ReadersMove(s, ChannelOf(op.item));
    }
  }

  ghost function FirstReader(c: Channel): Process {
    match c
    case Results => NotifierP(0)
    case Detects => DetectorP(0)
    case Overlaps => OverlapperP(0)
    case Chunks => ScannerP(0)
  }

  // While a channel holds items its readers are in their loops, and send only on channels below it.
  lemma ReaderBusy(s: State, c: Channel)
    requires Inv(s) && s.leaked == multiset{} && Holds(s.q, c)
    ensures Exists(s.q, FirstReader(c))
    ensures var op := Code(s, Self(s.q, FirstReader(c)));
      !op.Blocked? && !op.Wait? && (op.Send? ==> Level(ChannelOf(op.item)) < Level(c))
  {
    hide Balanced, Phased, Named, Settled;
    assert !OverlapLeaked(s) && !Dead(s.q.overlappers[0].pc);
    assert Exists(s.q, FirstReader(c)) && !Left(Self(s.q, FirstReader(c)), c);
    hide Missed, Drained, OverlapLeaked;
  }

  lemma ReadersMove(s: State, c: Channel) returns (r: Process)
    requires Inv(s) && s.leaked == multiset{} && Holds(s.q, c)
    ensures Enabled(s, r)
    decreases Level(c) + 1, 0
  {
    ReaderBusy(s, c);
    r := BusyMoves(s, FirstReader(c));
  }

  // A positive total comes from an item on a channel or from a process.
  lemma TotalPositive(w: Weight, q: Store) returns (t: Thing, p: Process)
    requires Total(w, q) > 0
    ensures w(t) > 0
    ensures if t.AChunk? || t.AnOverlap? || t.ADetect? || t.AResult? then Holds(q, ChannelOf(t))
            else Exists(q, p) && t == Self(q, p)
  {
    p := Sources;
    if w(ASource(q.source)) > 0 {
      t := ASource(q.source);
    } else if w(AFinisher(q.finish)) > 0 {
      t, p := AFinisher(q.finish), Finisher;
    } else if Sum((x: Chunk) => w(AChunk(x)), q.chunks) > 0 {
      var i := SumPositive((x: Chunk) => w(AChunk(x)), q.chunks);
      t := AChunk(q.chunks[i]);
    } else if Sum((x: Scanner) => w(AScanner(x)), q.scanners) > 0 {
      var i := SumPositive((x: Scanner) => w(AScanner(x)), q.scanners);
      t, p := AScanner(q.scanners[i]), ScannerP(i);
    } else if Sum((x: OverlapItem) => w(AnOverlap(x)), q.overlaps) > 0 {
      var i := SumPositive((x: OverlapItem) => w(AnOverlap(x)), q.overlaps);
      t := AnOverlap(q.overlaps[i]);
    } else if Sum((x: Overlapper) => w(AnOverlapper(x)), q.overlappers) > 0 {
      var i := SumPositive((x: Overlapper) => w(AnOverlapper(x)), q.overlappers);
      t, p := AnOverlapper(q.overlappers[i]), OverlapperP(i);
    } else if Sum((x: DetectItem) => w(ADetect(x)), q.detects) > 0 {
      var i := SumPositive((x: DetectItem) => w(ADetect(x)), q.detects);
      t := ADetect(q.detects[i]);
    } else if Sum((x: DetectorPc) => w(ADetector(x)), q.detectors) > 0 {
      var i := SumPositive((x: DetectorPc) => w(ADetector(x)), q.detectors);
      t, p := ADetector(q.detectors[i]), DetectorP(i);
    } else if Sum((x: Result) => w(AResult(x)), q.results) > 0 {
      var i := SumPositive((x: Result) => w(AResult(x)), q.results);
      t := AResult(q.results[i]);
    } else {
      var i := SumPositive((x: NotifierPc) => w(ANotifier(x)), q.notifiers);
      t, p := ANotifier(q.notifiers[i]), NotifierP(i);
    }
  }

  ghost predicate PoolClosed(s: State, c: Counter) {
    match c
    case Scanners => Chunks in s.closed
    case Overlappers => Overlaps in s.closed
    case Detectors => Detects in s.closed
    case Notifiers => Results in s.closed
    case _ => true
  }

  // A process that keeps a counter up is not blocked, and waits only if that counter is its pool's.
  lemma OwerBusy(s: State, c: Counter, p: Process)
    requires Exists(s.q, p) && Owes(c, Self(s.q, p)) > 0 && PoolClosed(s, c)
    ensures var op := Code(s, Self(s.q, p));
      && !op.Blocked?
      && (op.Wait? ==> !c.OverlapsOf? && !c.DetectsOf? && (op.counter.OverlapsOf? || op.counter.DetectsOf?))
  {
  }

  // With nothing leaked, a counter above zero means that some process can move.
  lemma OwersMove(s: State, c: Counter) returns (r: Process)
    requires Inv(s) && s.leaked == multiset{} && s.wg[c] > 0 && PoolClosed(s, c)
    ensures Enabled(s, r)
    decreases if c.OverlapsOf? || c.DetectsOf? then 0 else 1
  {
    assert s.wg[c] == Total(Owed(c), s.q) + s.leaked[c];
    var t, p := TotalPositive(Owed(c), s.q);
    if t.AChunk? || t.AnOverlap? || t.ADetect? || t.AResult? {
      r := ReadersMove(s, ChannelOf(t));
    } else {
      OwerBusy(s, c, p);
      var op := Code(s, Self(s.q, p));
      if !op.Wait? {
        r := BusyMoves(s, p);
      } else if s.wg[op.counter] == 0 {
        r := p;
      } else {
        r := OwersMove(s, op.counter);
      }
    }
  }

  // While Finish is blocked, the sources still have a chunk to send.
  lemma SourcesBusy(s: State)
    requires s.q.finish != Finished && FinishCode(s, s.q.finish).Blocked?
    ensures var op := Code(s, Self(s.q, Sources)); !op.Blocked? && !op.Wait?
  {
  }

  // Otherwise it can step, or waits for a pool whose channel it has closed.
  lemma FinishWaits(s: State, op: Op)
    requires Inv(s) && op == FinishCode(s, s.q.finish) && !op.Blocked? && !CanRun(s, op)
    ensures op.Wait? && s.wg[op.counter] > 0 && PoolClosed(s, op.counter)
  {
    hide Balanced, Drained, Settled, Named, Sized;
  }

  lemma FinisherEnabled(s: State)
    requires Inv(s) && CanRun(s, FinishCode(s, s.q.finish))
    ensures Enabled(s, Finisher)
  {
    hide FinishCode, CanRun, Phased, Balanced, Drained, Settled, Named, Sized;
  }

  // Until Finish returns some process can step, as long as no detector has panicked.
  lemma NoDeadlock(s: State) returns (r: Process)
    requires Inv(s) && s.leaked == multiset{} && s.q.finish != Finished
    ensures Enabled(s, r)
  {
    hide FinishCode, Code, CanRun, Inv, PoolClosed, Enabled;
    var op := FinishCode(s, s.q.finish);
    if op.Blocked? {
      SourcesBusy(s);
      r := BusyMoves(s, Sources);
    } else if CanRun(s, op) {
      FinisherEnabled(s);
      r := Finisher;
    } else {
      FinishWaits(s, op);
      r := OwersMove(s, op.counter);
    }
  }

  // ---------------------------------------------------------------- conservation

  // What is charged for a result, for a panicking detection, and for each step still to be made.
  datatype Tariff = Tariff(result: Result -> nat, panic: nat, hop: nat)

  // A result not yet sent: send, receive, deliver.
  ghost function ResultCost(t: Tariff, r: Result): nat {
    t.result(r) + 3 * t.hop
  }

  ghost function ResultsCost(t: Tariff, rs: seq<Result>): nat {
    Sum((r: Result) => ResultCost(t, r), rs)
  }

  ghost function DetectionCost(t: Tariff, d: Detection): nat {
    ResultsCost(t, d.results) + (if d.panics then t.panic else 0)
  }

  // A detection not yet announced: add, send, receive, finish.
  ghost function PendingCost(t: Tariff, d: Detection): nat {
    DetectionCost(t, d) + 4 * t.hop
  }

  ghost function PendingsCost(t: Tariff, ds: seq<Detection>): nat {
    Sum((d: Detection) => PendingCost(t, d), ds)
  }

  // What an overlap worker has to do after its own results: nothing but to panic, or the detections.
  ghost function HandlingCost(t: Tariff, ds: seq<Detection>, panics: bool): nat {
    if panics then t.panic else PendingsCost(t, ds)
  }

  ghost function MessageCost(t: Tariff, m: Message): nat {
    match m
    case ToDetector(d) => PendingCost(t, d)
    case ToOverlap(own, ds, panics) => ResultsCost(t, own) + HandlingCost(t, ds, panics) + 4 * t.hop
  }

  ghost function ChunkCost(t: Tariff, c: Chunk): nat {
    Sum((m: Message) => MessageCost(t, m), c)
  }

  // A chunk not yet sent: send, receive, return to the loop.
  ghost function UnsentCost(t: Tariff, c: Chunk): nat {
    ChunkCost(t, c) + 3 * t.hop
  }

  ghost function WorkCost(t: Tariff, work: seq<Chunk>): nat {
    Sum((c: Chunk) => UnsentCost(t, c), work)
  }

  // An announced item has made its first step.
  ghost function Announced(t: Tariff, added: bool, some: bool): nat {
    if added && some then t.hop else 0
  }

  ghost function ScannerCost(t: Tariff, pc: ScannerPc): int {
    match pc
    case Ranging => 4 * t.hop
    case Emitting(todo, added) => 5 * t.hop + ChunkCost(t, todo) - Announced(t, added, todo != [])
    case AwaitingOverlaps => 3 * t.hop
    case AwaitingDetections => 2 * t.hop
    case ScannerExits => t.hop
    case ScannerGone => 0
  }

  ghost function OverlapperCost(t: Tariff, pc: OverlapPc): int {
    match pc
    case AwaitingItem => 3 * t.hop
    case Handling(_, own, todo, added, panics) =>
      4 * t.hop + ResultsCost(t, own) + HandlingCost(t, todo, panics) - Announced(t, added, !panics && todo != [])
    case AwaitingOwn => 2 * t.hop
    case OverlapExits => t.hop
    case OverlapGone => 0
    case OverlapDies => 3 * t.hop
    case OverlapDead => 2 * t.hop    // two steps never made
  }

  ghost function DetectorCost(t: Tariff, pc: DetectorPc): nat {
    match pc
    case Idle => 2 * t.hop
    case Detecting(_, results, panics) => 3 * t.hop + ResultsCost(t, results) + (if panics then t.panic else 0)
    case DetectorExits => t.hop
    case DetectorGone => 0
  }

  ghost function NotifierCost(t: Tariff, pc: NotifierPc): nat {
    match pc
    case Listening => 2 * t.hop
    case Notifying(r) => 3 * t.hop + t.result(r)
    case NotifierExits => t.hop
    case NotifierGone => 0
  }

  ghost function CostOf(t: Tariff, x: Thing): nat {
    match x
    case ASource(unsent) => WorkCost(t, unsent)
    case AChunk(c) => ChunkCost(t, c) + 2 * t.hop
    case AScanner(w) => ScannerCost(t, w.pc)
    case AnOverlap(m) => ResultsCost(t, m.own) + HandlingCost(t, m.detections, m.panics) + 2 * t.hop
    case AnOverlapper(w) => OverlapperCost(t, w.pc)
    case ADetect(m) => DetectionCost(t, m.detection) + 2 * t.hop
    case ADetector(pc) => DetectorCost(t, pc)
    case AResult(r) => t.result(r) + 2 * t.hop
    case ANotifier(pc) => NotifierCost(t, pc)
    case AFinisher(pc) => (8 - Rank(pc)) * t.hop
  }

  ghost function Cost(t: Tariff): Weight {
    x => CostOf(t, x)
  }

  // Every step pays one hop; a delivery also pays for its result, a leak for its panic.
  ghost function Paid(t: Tariff, op: Op): nat {
    t.hop + (if op.Deliver? then t.result(op.result) else 0) + (if op.Leak? then t.panic else 0)
  }

  lemma StepPays(t: Tariff, s: State, p: Process, op: Op)
    requires Exists(s.q, p) && op == Code(s, Self(s.q, p)) && !op.Blocked?
    requires op.Take? ==> Holds(s.q, op.from)
    ensures Gain(Cost(t), s, p, op) == -(Paid(t, op) as int)
  {
    match p
    case Sources =>
    case ScannerP(i) => ScannerPays(t, s, i, op);
    case OverlapperP(j) => OverlapperPays(t, s, j, op);
    case DetectorP(k) => DetectorPays(t, s, k, op);
    case NotifierP(n) => NotifierPays(t, s, n, op);
    case Finisher =>
  }

  lemma ScannerPays(t: Tariff, s: State, i: nat, op: Op)
    requires i < |s.q.scanners| && op == ScannerCode(s, s.q.scanners[i]) && !op.Blocked?
    requires op.Take? ==> Holds(s.q, op.from)
    ensures Gain(Cost(t), s, ScannerP(i), op) == -(Paid(t, op) as int)
  {
  }

  lemma OverlapperPays(t: Tariff, s: State, i: nat, op: Op)
    requires i < |s.q.overlappers| && op == OverlapperCode(s, s.q.overlappers[i]) && !op.Blocked?
    requires op.Take? ==> Holds(s.q, op.from)
    ensures Gain(Cost(t), s, OverlapperP(i), op) == -(Paid(t, op) as int)
  {
    if s.q.overlappers[i].pc.Handling? { HandlingPays(t, s, i, op); }
  }

  lemma HandlingPays(t: Tariff, s: State, i: nat, op: Op)
    requires i < |s.q.overlappers| && s.q.overlappers[i].pc.Handling? && op == OverlapperCode(s, s.q.overlappers[i])
    ensures !op.Take? && !op.Blocked?
    ensures Gain(Cost(t), s, OverlapperP(i), op) == -(Paid(t, op) as int)
  {
  }

  lemma DetectorPays(t: Tariff, s: State, i: nat, op: Op)
    requires i < |s.q.detectors| && op == DetectorCode(s, s.q.detectors[i]) && !op.Blocked?
    requires op.Take? ==> Holds(s.q, op.from)
    ensures Gain(Cost(t), s, DetectorP(i), op) == -(Paid(t, op) as int)
  {
  }

  lemma NotifierPays(t: Tariff, s: State, i: nat, op: Op)
    requires i < |s.q.notifiers| && op == NotifierCode(s, s.q.notifiers[i]) && !op.Blocked?
    requires op.Take? ==> Holds(s.q, op.from)
    ensures Gain(Cost(t), s, NotifierP(i), op) == -(Paid(t, op) as int)
  {
  }

  // ---------------------------------------------------------------- runs

  // One interleaving: the processes ps, each stepping once in turn, take s to t.
  ghost predicate Run(s: State, ps: seq<Process>, t: State)
    decreases |ps|
  {
    if ps == [] then s == t
    else Enabled(s, ps[0]) && Run(Next(s, ps[0]), ps[1..], t)
  }

  ghost function CopiesOf(r: Result): Tariff {
    Tariff((x: Result) => One(x == r), 0, 0)
  }

  ghost function Panics(): Tariff {
    Tariff((x: Result) => 0, 1, 0)
  }

  ghost function Hops(): Tariff {
    Tariff((x: Result) => 0, 0, 1)
  }

  ghost function PanicsIn(work: seq<Chunk>): nat {
    WorkCost(Panics(), work)
  }

  // How often result r is put on the results channel when the work is done without the pipeline.
  ghost function Copies(r: Result, work: seq<Chunk>): nat {
    WorkCost(CopiesOf(r), work)
  }

  // What is left in the store together with what has left it.
  ghost predicate Conserved(s: State, t: State, steps: nat) {
    && Total(Cost(Hops()), t.q) + steps == Total(Cost(Hops()), s.q)
    && Total(Cost(Panics()), t.q) + |t.leaked| == Total(Cost(Panics()), s.q) + |s.leaked|
    && forall r :: Total(Cost(CopiesOf(r)), t.q) + t.notified[r] == Total(Cost(CopiesOf(r)), s.q) + s.notified[r]
  }

  lemma StepCost(t: Tariff, s: State, p: Process, op: Op)
    requires Enabled(s, p) && Inv(s) && op == Code(s, Self(s.q, p))
    ensures Total(Cost(t), Next(s, p).q) + Paid(t, op) == Total(Cost(t), s.q)
  {
    StepKeepsInv(s, p);
    var _ := StepGain(Cost(t), s, p);
    StepPays(t, s, p, op);
  }

  lemma StepHistory(s: State, p: Process, op: Op)
    requires Exists(s.q, p) && !op.Blocked? && Fits(p, op.become) && !Crashes(s, op)
    requires op.Take? ==> Holds(s.q, op.from)
    ensures |Perform(s, p, op).leaked| == |s.leaked| + One(op.Leak?)
    ensures forall r :: Perform(s, p, op).notified[r] == s.notified[r] + One(op.Deliver? && op.result == r)
  {
  }

  lemma StepDelivers(r: Result, s: State, p: Process, op: Op)
    requires Enabled(s, p) && Inv(s) && op == Code(s, Self(s.q, p))
    requires Next(s, p).notified[r] == s.notified[r] + One(op.Deliver? && op.result == r)
    ensures Total(Cost(CopiesOf(r)), Next(s, p).q) + Next(s, p).notified[r] ==
            Total(Cost(CopiesOf(r)), s.q) + s.notified[r]
  {
    StepCost(CopiesOf(r), s, p, op);
    assert Paid(CopiesOf(r), op) == One(op.Deliver? && op.result == r);
  }

  lemma PaidIs(op: Op)
    ensures Paid(Hops(), op) == 1 && Paid(Panics(), op) == One(op.Leak?)
  {
  }

  // The history a step adds is what its operation says.
  lemma NextHistory(s: State, p: Process, op: Op)
    requires Enabled(s, p) && Inv(s) && op == Code(s, Self(s.q, p))
    ensures |Next(s, p).leaked| == |s.leaked| + One(op.Leak?)
    ensures forall r :: Next(s, p).notified[r] == s.notified[r] + One(op.Deliver? && op.result == r)
  {
    hide Perform, Code, Phased, Balanced, Drained, Settled, Named, Sized, Crashes;
    CodeFits(s, p);
    NoCrash(s, p, op);
    StepHistory(s, p, op);
  }

  lemma StepsConserve(s: State, p: Process)
    requires Enabled(s, p) && Inv(s)
    ensures Inv(Next(s, p)) && Conserved(s, Next(s, p), 1)
  {
    hide Inv, Code, Perform, Enabled, Next, Total, Cost, Hops, Panics, CopiesOf, Paid, One;
    ExistsIfEnabled(s, p);
    var op := Code(s, Self(s.q, p));
    StepKeepsInv(s, p);
    NextHistory(s, p, op);
    PaidIs(op);
    StepCost(Hops(), s, p, op);
    StepCost(Panics(), s, p, op);
    forall r ensures Total(Cost(CopiesOf(r)), Next(s, p).q) + Next(s, p).notified[r] == Total(Cost(CopiesOf(r)), s.q) + s.notified[r] {
      StepDelivers(r, s, p, op);
    }
  }

  lemma ExistsIfEnabled(s: State, p: Process)
    requires Enabled(s, p)
    ensures Exists(s.q, p)
  {
  }

  lemma {:induction false} RunConserves(s: State, ps: seq<Process>, t: State)
    requires Run(s, ps, t) && Inv(s)
    ensures Inv(t) && Conserved(s, t, |ps|)
    decreases |ps|
  {
    if ps != [] {
      StepsConserve(s, ps[0]);
      RunConserves(Next(s, ps[0]), ps[1..], t);
    }
  }

  // ---------------------------------------------------------------- the first and the last state

  // Every worker of the start weighs the same as the others of its pool.
  lemma StartTotal(w: Weight, c: Config, work: seq<Chunk>, ws: nat, wo: nat)
    requires forall i: nat :: w(AScanner(Scanner(i, Ranging))) == ws
    requires forall j: nat :: w(AnOverlapper(Overlapper(j, AwaitingItem))) == wo
    ensures Total(w, Start(c, work).q) == w(ASource(work)) + w(AFinisher(WaitSources)) +
      Repeat(c.scanners, ws) + Repeat(c.overlappers, wo) +
      Repeat(c.detectors, w(ADetector(Idle))) + Repeat(c.notifiers, w(ANotifier(Listening)))
  {
    var q := Start(c, work).q;
    SumConstant((x: Scanner) => w(AScanner(x)), q.scanners, ws);
    SumConstant((x: Overlapper) => w(AnOverlapper(x)), q.overlappers, wo);
    SumConstant((x: DetectorPc) => w(ADetector(x)), q.detectors, w(ADetector(Idle)));
    SumConstant((x: NotifierPc) => w(ANotifier(x)), q.notifiers, w(ANotifier(Listening)));
  }

  lemma StartOwed(x: Counter, c: Config, work: seq<Chunk>)
    ensures Start(c, work).wg[x] == Total(Owed(x), Start(c, work).q)
  {
    OwedAtStart(x);
    CountedAtStart(Owed(x), x, c, work);
  }

  lemma OwedAtStart(x: Counter)
    ensures forall i: nat :: Owed(x)(AScanner(Scanner(i, Ranging))) == One(x == Scanners)
    ensures forall j: nat :: Owed(x)(AnOverlapper(Overlapper(j, AwaitingItem))) == One(x == Overlappers)
    ensures Owed(x)(ADetector(Idle)) == One(x == Detectors) && Owed(x)(ANotifier(Listening)) == One(x == Notifiers)
    ensures Owed(x)(AFinisher(WaitSources)) == 0 && forall work :: Owed(x)(ASource(work)) == 0
  {
  }

  lemma CountedAtStart(w: Weight, x: Counter, c: Config, work: seq<Chunk>)
    requires forall i: nat :: w(AScanner(Scanner(i, Ranging))) == One(x == Scanners)
    requires forall j: nat :: w(AnOverlapper(Overlapper(j, AwaitingItem))) == One(x == Overlappers)
    requires w(ADetector(Idle)) == One(x == Detectors) && w(ANotifier(Listening)) == One(x == Notifiers)
    requires w(AFinisher(WaitSources)) == 0 && w(ASource(work)) == 0
    ensures Start(c, work).wg[x] == Total(w, Start(c, work).q)
  {
    StartTotal(w, c, work, One(x == Scanners), One(x == Overlappers));
    CountedPools(x, c);
  }

  lemma StartBalanced(c: Config, work: seq<Chunk>)
    ensures Balanced(Start(c, work))
  {
    forall x ensures Start(c, work).wg[x] == Total(Owed(x), Start(c, work).q) {
      StartOwed(x, c, work);
    }
  }

  lemma CountedPools(x: Counter, c: Config)
    ensures Start(c, []).wg[x] == Repeat(c.scanners, One(x == Scanners)) + Repeat(c.overlappers, One(x == Overlappers)) +
      Repeat(c.detectors, One(x == Detectors)) + Repeat(c.notifiers, One(x == Notifiers))
  {
    RepeatIsProduct(c.scanners, One(x == Scanners));
    RepeatIsProduct(c.overlappers, One(x == Overlappers));
    RepeatIsProduct(c.detectors, One(x == Detectors));
    RepeatIsProduct(c.notifiers, One(x == Notifiers));
  }

  lemma StartWorkers(c: Config, work: seq<Chunk>, p: Process)
    requires Exists(Start(c, work).q, p)
    ensures Self(Start(c, work).q, p) ==
      match p
      case Sources => ASource(work)
      case ScannerP(i) => AScanner(Scanner(i, Ranging))
      case OverlapperP(j) => AnOverlapper(Overlapper(j, AwaitingItem))
      case DetectorP(_) => ADetector(Idle)
      case NotifierP(_) => ANotifier(Listening)
      case Finisher => AFinisher(WaitSources)
  {
  }

  lemma StartInv(c: Config, work: seq<Chunk>)
    requires ValidConfig(c)
    ensures Inv(Start(c, work))
  {
    StartBalanced(c, work);
    StartDrained(c, work);
    StartSettled(c, work);
    hide Start, Balanced, Drained, Phased, Named, Settled, Sized, Missed;
  }

  lemma StartDrained(c: Config, work: seq<Chunk>)
    ensures Drained(Start(c, work))
  {
    var s := Start(c, work);
    forall p, x | Exists(s.q, p) ensures !Left(Self(s.q, p), x) {
      StartWorkers(c, work, p);
    }
  }

  lemma StartSettled(c: Config, work: seq<Chunk>)
    requires ValidConfig(c)
    ensures var s := Start(c, work); !s.crashed && Phased(s) && Named(s) && Settled(s) && Sized(s) && Missed(s)
  {
  }

  ghost function InitialCost(t: Tariff, c: Config, work: seq<Chunk>): nat {
    WorkCost(t, work) + 8 * t.hop +
    Repeat(c.scanners, 4 * t.hop) + Repeat(c.overlappers, 3 * t.hop) +
    Repeat(c.detectors, 2 * t.hop) + Repeat(c.notifiers, 2 * t.hop)
  }

  // How many steps a run that finishes takes, whatever the interleaving.
  ghost function StepsFor(c: Config, work: seq<Chunk>): nat {
    InitialCost(Hops(), c, work)
  }

  lemma CostAtStart(t: Tariff)
    ensures forall i: nat :: Cost(t)(AScanner(Scanner(i, Ranging))) == 4 * t.hop
    ensures forall j: nat :: Cost(t)(AnOverlapper(Overlapper(j, AwaitingItem))) == 3 * t.hop
    ensures Cost(t)(ADetector(Idle)) == 2 * t.hop && Cost(t)(ANotifier(Listening)) == 2 * t.hop
    ensures Cost(t)(AFinisher(WaitSources)) == 8 * t.hop
  {
  }

  lemma ChargedAtStart(w: Weight, t: Tariff, c: Config, work: seq<Chunk>)
    requires forall i: nat :: w(AScanner(Scanner(i, Ranging))) == 4 * t.hop
    requires forall j: nat :: w(AnOverlapper(Overlapper(j, AwaitingItem))) == 3 * t.hop
    requires w(ADetector(Idle)) == 2 * t.hop && w(ANotifier(Listening)) == 2 * t.hop
    requires w(AFinisher(WaitSources)) == 8 * t.hop && w(ASource(work)) == WorkCost(t, work)
    ensures Total(w, Start(c, work).q) == InitialCost(t, c, work)
  {
    StartTotal(w, c, work, 4 * t.hop, 3 * t.hop);
  }

  lemma StartCost(t: Tariff, c: Config, work: seq<Chunk>)
    ensures Total(Cost(t), Start(c, work).q) == InitialCost(t, c, work)
  {
    CostAtStart(t);
    ChargedAtStart(Cost(t), t, c, work);
  }

  lemma FreeOfHops(t: Tariff, c: Config, work: seq<Chunk>)
    requires t.hop == 0
    ensures InitialCost(t, c, work) == WorkCost(t, work)
  {
    RepeatIsProduct(c.scanners, 0);
    RepeatIsProduct(c.overlappers, 0);
    RepeatIsProduct(c.detectors, 0);
    RepeatIsProduct(c.notifiers, 0);
  }

  // A state with nothing done yet and all of the work ahead.
  ghost predicate Fresh(s: State, c: Config, work: seq<Chunk>) {
    Inv(s) && s.leaked == multiset{} && s.notified == multiset{} &&
    forall t :: Total(Cost(t), s.q) == InitialCost(t, c, work)
  }

  lemma StartFresh(c: Config, work: seq<Chunk>)
    requires ValidConfig(c)
    ensures Fresh(Start(c, work), c, work)
  {
    StartInv(c, work);
    forall t ensures Total(Cost(t), Start(c, work).q) == InitialCost(t, c, work) {
      StartCost(t, c, work);
    }
  }

  // Nothing is left once Finish has returned.
  ghost predicate Quiet(s: State) {
    && s.q.source == [] && s.q.chunks == [] && s.q.overlaps == [] && s.q.detects == [] && s.q.results == []
    && (forall i :: 0 <= i < |s.q.scanners| ==> s.q.scanners[i].pc == ScannerGone)
    && (forall j :: 0 <= j < |s.q.overlappers| ==> s.q.overlappers[j].pc == OverlapGone)
    && (forall k :: 0 <= k < |s.q.detectors| ==> s.q.detectors[k] == DetectorGone)
    && (forall n :: 0 <= n < |s.q.notifiers| ==> s.q.notifiers[n] == NotifierGone)
    && s.wg == multiset{}
    && s.closed == {Chunks, Overlaps, Detects, Results}
  }

  lemma QuietCosts(t: Tariff, s: State)
    requires Quiet(s) && s.q.finish == Finished
    ensures Total(Cost(t), s.q) == 0
  {
    var w := Cost(t);
    SumZero((x: Scanner) => w(AScanner(x)), s.q.scanners);
    SumZero((x: Overlapper) => w(AnOverlapper(x)), s.q.overlappers);
    SumZero((x: DetectorPc) => w(ADetector(x)), s.q.detectors);
    SumZero((x: NotifierPc) => w(ANotifier(x)), s.q.notifiers);
  }

  // Once its pool's counter is zero a worker has exited.
  lemma ScannerGoneAt(s: State, i: nat)
    requires Balanced(s) && i < |s.q.scanners| && s.wg[Scanners] == 0
    ensures s.q.scanners[i].pc == ScannerGone
  {
    Counted(Scanners, s, ScannerP(i));
  }

  lemma OverlapperGoneAt(s: State, j: nat)
    requires Balanced(s) && Missed(s) && !OverlapLeaked(s) && j < |s.q.overlappers| && s.wg[Overlappers] == 0
    ensures s.q.overlappers[j].pc == OverlapGone
  {
    Counted(Overlappers, s, OverlapperP(j));
  }

  // When every scanner has waited for its items, none of them was lost to a panic.
  lemma NoOverlapLeaked(s: State)
    requires Balanced(s) && Settled(s) && forall i :: 0 <= i < |s.q.scanners| ==> s.q.scanners[i].pc == ScannerGone
    ensures !OverlapLeaked(s)
  {
    forall i ensures OverlapsOf(i) !in s.leaked {
      var c := OverlapsOf(i);
      assert Exists(s.q, Home(c)) ==> Spent(Self(s.q, Home(c)), c);
      assert s.wg[c] == 0 == Total(Owed(c), s.q) + s.leaked[c];
    }
  }

  lemma DetectorGoneAt(s: State, k: nat)
    requires Balanced(s) && k < |s.q.detectors| && s.wg[Detectors] == 0
    ensures s.q.detectors[k] == DetectorGone
  {
    Counted(Detectors, s, DetectorP(k));
  }

  lemma NotifierGoneAt(s: State, n: nat)
    requires Balanced(s) && n < |s.q.notifiers| && s.wg[Notifiers] == 0
    ensures s.q.notifiers[n] == NotifierGone
  {
    Counted(Notifiers, s, NotifierP(n));
  }

  lemma AllGone(s: State)
    requires Balanced(s) && Settled(s) && Missed(s)
    requires s.wg[Scanners] == 0 && s.wg[Overlappers] == 0 && s.wg[Detectors] == 0 && s.wg[Notifiers] == 0
    ensures forall i :: 0 <= i < |s.q.scanners| ==> s.q.scanners[i].pc == ScannerGone
    ensures forall j :: 0 <= j < |s.q.overlappers| ==> s.q.overlappers[j].pc == OverlapGone
    ensures forall k :: 0 <= k < |s.q.detectors| ==> s.q.detectors[k] == DetectorGone
    ensures forall n :: 0 <= n < |s.q.notifiers| ==> s.q.notifiers[n] == NotifierGone
  {
    forall i | 0 <= i < |s.q.scanners| ensures s.q.scanners[i].pc == ScannerGone {
      ScannerGoneAt(s, i);
    }
    NoOverlapLeaked(s);
    forall j | 0 <= j < |s.q.overlappers| ensures s.q.overlappers[j].pc == OverlapGone {
      OverlapperGoneAt(s, j);
    }
    forall k | 0 <= k < |s.q.detectors| ensures s.q.detectors[k] == DetectorGone {
      DetectorGoneAt(s, k);
    }
    forall n | 0 <= n < |s.q.notifiers| ensures s.q.notifiers[n] == NotifierGone {
      NotifierGoneAt(s, n);
    }
  }

  lemma DrainedAt(s: State, p: Process, c: Channel)
    requires Drained(s) && Exists(s.q, p) && Left(Self(s.q, p), c)
    ensures c in s.closed && !Holds(s.q, c)
  {
  }

  lemma AllEmpty(s: State)
    requires Sized(s) && Drained(s)
    requires s.q.scanners[0].pc == ScannerGone && s.q.overlappers[0].pc == OverlapGone
    requires s.q.detectors[0] == DetectorGone && s.q.notifiers[0] == NotifierGone
    ensures s.q.chunks == [] && s.q.overlaps == [] && s.q.detects == [] && s.q.results == []
    ensures s.closed == {Chunks, Overlaps, Detects, Results}
  {
    DrainedAt(s, ScannerP(0), Chunks);
    DrainedAt(s, OverlapperP(0), Overlaps);
    DrainedAt(s, DetectorP(0), Detects);
    DrainedAt(s, NotifierP(0), Results);
  }

  lemma AllZero(s: State)
    requires Settled(s)
    requires forall i :: 0 <= i < |s.q.scanners| ==> s.q.scanners[i].pc == ScannerGone
    requires forall j :: 0 <= j < |s.q.overlappers| ==> s.q.overlappers[j].pc == OverlapGone
    requires s.wg[Scanners] == 0 && s.wg[Overlappers] == 0 && s.wg[Detectors] == 0 && s.wg[Notifiers] == 0
    ensures s.wg == multiset{}
  {
    forall c: Counter ensures s.wg[c] == 0 {
      if c.OverlapsOf? || c.DetectsOf? {
        assert Exists(s.q, Home(c)) ==> Spent(Self(s.q, Home(c)), c);
      }
    }
  }

  lemma FinishedIsQuiet(s: State)
    requires Inv(s) && s.q.finish == Finished
    ensures Quiet(s)
  {
    AllGone(s);
    AllEmpty(s);
    AllZero(s);
  }

  // ---------------------------------------------------------------- the work, without the pipeline

  function DetectionsResults(ds: seq<Detection>): seq<Result> {
    if ds == [] then [] else ds[0].results + DetectionsResults(ds[1..])
  }

  function MessageDetections(m: Message): seq<Detection> {
    match m
    case ToDetector(d) => [d]
    case ToOverlap(_, ds, panics) => if panics then [] else ds
  }

  function MessageResults(m: Message): seq<Result> {
    (if m.ToOverlap? then m.own else []) + DetectionsResults(MessageDetections(m))
  }

  function ChunkResults(c: Chunk): seq<Result> {
    if c == [] then [] else MessageResults(c[0]) + ChunkResults(c[1..])
  }

  // Every result of the work, in order, as one worker doing everything would put them out.
  function ResultsOf(work: seq<Chunk>): seq<Result> {
    if work == [] then [] else ChunkResults(work[0]) + ResultsOf(work[1..])
  }

  // No detector panics on the message, in the overlap stage or after it.
  predicate MessagePanics(m: Message) {
    (m.ToOverlap? && m.panics) || exists d :: d in MessageDetections(m) && d.panics
  }

  predicate PanicFree(work: seq<Chunk>) {
    forall c, m :: c in work && m in c ==> !MessagePanics(m)
  }

  lemma {:induction false} ResultsCopies(r: Result, rs: seq<Result>)
    ensures ResultsCost(CopiesOf(r), rs) == multiset(rs)[r]
  {
    if rs != [] {
      ResultsCopies(r, rs[1..]);
      assert rs == [rs[0]] + rs[1..];
      assert multiset(rs)[r] == One(rs[0] == r) + multiset(rs[1..])[r];
      assert ResultCost(CopiesOf(r), rs[0]) == One(rs[0] == r);
    }
  }

  lemma {:induction false} DetectionsCopies(r: Result, ds: seq<Detection>)
    ensures PendingsCost(CopiesOf(r), ds) == multiset(DetectionsResults(ds))[r]
  {
    if ds != [] {
      ResultsCopies(r, ds[0].results);
      DetectionsCopies(r, ds[1..]);
    }
  }

  lemma {:induction false} ChunkCopies(r: Result, c: Chunk)
    ensures ChunkCost(CopiesOf(r), c) == multiset(ChunkResults(c))[r]
  {
    if c != [] {
      var ds := MessageDetections(c[0]);
      DetectionsCopies(r, ds);
      assert ds[..] == ds;
      if c[0].ToOverlap? {
        ResultsCopies(r, c[0].own);
      } else {
        assert ds[1..] == [];
        assert PendingsCost(CopiesOf(r), ds) == PendingCost(CopiesOf(r), ds[0]) + PendingsCost(CopiesOf(r), ds[1..]);
      }
      ChunkCopies(r, c[1..]);
    }
  }

  lemma {:induction false} WorkCopies(r: Result, work: seq<Chunk>)
    ensures Copies(r, work) == multiset(ResultsOf(work))[r]
  {
    if work != [] {
      ChunkCopies(r, work[0]);
      WorkCopies(r, work[1..]);
    }
  }

  lemma {:induction false} ResultsPanics(rs: seq<Result>)
    ensures ResultsCost(Panics(), rs) == 0
  {
    SumZero((r: Result) => ResultCost(Panics(), r), rs);
  }

  lemma {:induction false} DetectionsPanics(ds: seq<Detection>)
    ensures PendingsCost(Panics(), ds) == 0 <==> forall d :: d in ds ==> !d.panics
  {
    if ds != [] {
      ResultsPanics(ds[0].results);
      DetectionsPanics(ds[1..]);
      assert ds == [ds[0]] + ds[1..];
    }
  }

  lemma MessagePanicsIff(m: Message)
    ensures MessageCost(Panics(), m) == 0 <==> !MessagePanics(m)
  {
    DetectionsPanics(MessageDetections(m));
    if m.ToOverlap? {
      ResultsPanics(m.own);
    } else {
      ResultsPanics(m.detection.results);
      assert m.detection in MessageDetections(m);
    }
  }

  lemma {:induction false} ChunkPanics(c: Chunk)
    ensures ChunkCost(Panics(), c) == 0 <==> forall m :: m in c ==> !MessagePanics(m)
  {
    if c != [] {
      MessagePanicsIff(c[0]);
      ChunkPanics(c[1..]);
      assert c == [c[0]] + c[1..];
      hide MessagePanics, MessageCost;
    }
  }

  lemma {:induction false} WorkPanics(work: seq<Chunk>)
    ensures PanicsIn(work) == 0 <==> PanicFree(work)
  {
    if work != [] {
      ChunkPanics(work[0]);
      WorkPanics(work[1..]);
      assert work == [work[0]] + work[1..];
    }
  }

  // ---------------------------------------------------------------- main results

  lemma DeliveredAll(r: Result, c: Config, work: seq<Chunk>, s0: State, s: State, steps: nat)
    requires Fresh(s0, c, work) && Conserved(s0, s, steps) && Quiet(s) && s.q.finish == Finished
    ensures s.notified[r] == multiset(ResultsOf(work))[r]
  {
    hide Total, Cost, Quiet, ResultsOf, CopiesOf, InitialCost, Inv;
    assert Total(Cost(CopiesOf(r)), s0.q) == InitialCost(CopiesOf(r), c, work);
    DeliveredAt(r, c, work, s0, s);
  }

  lemma CountedSteps(c: Config, work: seq<Chunk>, s0: State, s: State, steps: nat)
    requires Fresh(s0, c, work) && Conserved(s0, s, steps) && Quiet(s) && s.q.finish == Finished && Balanced(s)
    ensures steps == StepsFor(c, work) && PanicFree(work)
  {
    QuietCosts(Hops(), s);
    hide Total, Cost, Quiet, PanicFree, InitialCost, Inv, Balanced;
    assert Total(Cost(Hops()), s0.q) == InitialCost(Hops(), c, work);
    assert Total(Cost(Panics()), s0.q) == InitialCost(Panics(), c, work);
    NoPanicHappened(c, work, s0, s);
  }

  lemma InvIsBalanced(s: State)
    requires Inv(s)
    ensures Balanced(s)
  {
  }

  lemma FinishedRun(c: Config, work: seq<Chunk>, s0: State, ps: seq<Process>, s: State)
    requires Fresh(s0, c, work) && Inv(s) && Conserved(s0, s, |ps|) && s.q.finish == Finished
    ensures Quiet(s) && |ps| == StepsFor(c, work)
    ensures s.notified == multiset(ResultsOf(work)) && PanicFree(work)
  {
    hide Inv, Quiet, Fresh, Conserved, ResultsOf, PanicFree, StepsFor, Balanced;
    FinishedIsQuiet(s);
    InvIsBalanced(s);
    CountedSteps(c, work, s0, s, |ps|);
    forall r: Result ensures s.notified[r] == multiset(ResultsOf(work))[r] {
      DeliveredAll(r, c, work, s0, s, |ps|);
    }
    assert s.notified == multiset(ResultsOf(work));
  }

  lemma DeliveredAt(r: Result, c: Config, work: seq<Chunk>, s0: State, s: State)
    requires s0.notified == multiset{} && Quiet(s) && s.q.finish == Finished
    requires Total(Cost(CopiesOf(r)), s0.q) == InitialCost(CopiesOf(r), c, work)
    requires Total(Cost(CopiesOf(r)), s.q) + s.notified[r] == Total(Cost(CopiesOf(r)), s0.q) + s0.notified[r]
    ensures s.notified[r] == multiset(ResultsOf(work))[r]
  {
    QuietCosts(CopiesOf(r), s);
    FreeOfHops(CopiesOf(r), c, work);
    WorkCopies(r, work);
  }

  lemma NoPanicHappened(c: Config, work: seq<Chunk>, s0: State, s: State)
    requires s0.leaked == multiset{} && Quiet(s) && s.q.finish == Finished && Balanced(s)
    requires Total(Cost(Panics()), s0.q) == InitialCost(Panics(), c, work)
    requires Total(Cost(Panics()), s.q) + |s.leaked| == Total(Cost(Panics()), s0.q) + |s0.leaked|
    ensures PanicFree(work)
  {
    QuietCosts(Panics(), s);
    NothingLeaked(s);
    FreeOfHops(Panics(), c, work);
    WorkPanics(work);
  }

  lemma NothingLeaked(s: State)
    requires Balanced(s) && s.wg == multiset{}
    ensures s.leaked == multiset{}
  {
    forall c: Counter ensures s.leaked[c] == 0 {
      assert s.wg[c] == Total(Owed(c), s.q) + s.leaked[c];
    }
  }

  lemma StuckRun(c: Config, work: seq<Chunk>, s0: State, ps: seq<Process>, s: State)
    requires Fresh(s0, c, work) && Inv(s) && Conserved(s0, s, |ps|) && PanicFree(work)
    requires forall p :: !Enabled(s, p)
    ensures s.q.finish == Finished
  {
    WorkPanics(work);
    FreeOfHops(Panics(), c, work);
    assert Total(Cost(Panics()), s0.q) == InitialCost(Panics(), c, work);
    assert |s.leaked| == 0;
    if s.q.finish != Finished {
      var p := NoDeadlock(s);
    }
  }

  // In every interleaving: no panic on a channel or a WaitGroup; every counter equals its
  // outstanding items; the run is no longer than StepsFor; and once Finish has returned every
  // worker has exited, every channel is closed and empty, exactly the results of the work have
  // been handled, each as often as it was produced, and the run took StepsFor steps.
  lemma EveryRunIsSafe(c: Config, work: seq<Chunk>, ps: seq<Process>, s: State)
    requires ValidConfig(c) && Run(Start(c, work), ps, s)
    ensures !s.crashed && Balanced(s)
    ensures |ps| <= StepsFor(c, work)
    ensures s.q.finish == Finished ==> Quiet(s) && |ps| == StepsFor(c, work) && s.notified == multiset(ResultsOf(work))
  {
    var s0 := Start(c, work);
    StartFresh(c, work);
    RunConserves(s0, ps, s);
    assert Total(Cost(Hops()), s0.q) == StepsFor(c, work);
    if s.q.finish == Finished {
      FinishedRun(c, work, s0, ps, s);
    }
  }

  // A run that cannot go on has returned from Finish exactly when no detector panics: one recovered
  // panic leaves a wgDetect, or a wgVerificationOverlap, above zero for good.
  lemma FinishReturnsIffNoPanic(c: Config, work: seq<Chunk>, ps: seq<Process>, s: State)
    requires ValidConfig(c) && Run(Start(c, work), ps, s)
    requires forall p :: !Enabled(s, p)
    ensures s.q.finish == Finished <==> PanicFree(work)
  {
    var s0 := Start(c, work);
    StartFresh(c, work);
    RunConserves(s0, ps, s);
    if s.q.finish == Finished {
      FinishedRun(c, work, s0, ps, s);
    } else if PanicFree(work) {
      StuckRun(c, work, s0, ps, s);
    }
  }
}
