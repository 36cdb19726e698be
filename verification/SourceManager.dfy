/**
 The source manager: jobs that run a source with units (runWithUnits), and Wait.

 Per job there is an enumerating goroutine, the job's own goroutine, and a chunking and a
 forwarding goroutine per unit, joined by the unit channel, a chunk channel per unit, a WaitGroup,
 the bounded unit pool and the one-slot fatalErr channel. What Enumerate and ChunkUnit do is data:
 the units reported, the chunks handed to the reporter, and whether the call fails or panics. A unit
 or chunk whose CancellableWrite is refused by a cancelled context is reported but not sent.

 A step is one action of one goroutine. A send on a closed channel, a second close and a WaitGroup
 going below zero set `crashed`.
 */
module SourceManager {
  import opened Sums

  type Chunk = nat

  datatype Outcome = Succeeds | Fails | Panics

  // The chunks a unit's reporter accepts, and how ChunkUnit ends.
  datatype Unit = Unit(chunks: seq<Chunk>, outcome: Outcome)

  // A unit Enumerate reports; `sent` unless the context is cancelled at the write.
  datatype Event = Event(reported: Unit, sent: bool)

  datatype Work = Work(events: seq<Event>, outcome: Outcome)

  datatype EnumPc =
    | Enumerating(todo: seq<Event>, outcome: Outcome)
    | Sending(unit: Unit, todo: seq<Event>, outcome: Outcome)  // counted in TotalUnits, not yet sent
    | ClosesUnits
    | EndsEnumerating
    | EnumGone

  datatype ChunkerPc =
    | Chunking(todo: seq<Chunk>, outcome: Outcome)
    | ClosesChunks
    | ReleasesSlot
    | ChunkerGone

  datatype ForwarderPc =
    | NotStarted
    | Receiving
    | Forwarding(chunk: Chunk)
    | EndsUnit          // EndUnitChunking
    | LeavesGroup       // the deferred wg.Done
    | ForwarderGone

  datatype Worker = Worker(chunker: ChunkerPc, ch: seq<Chunk>, closed: bool, forwarder: ForwarderPc)

  datatype MainPc =
    | TakesUnits
    | Spawns(unit: Unit)     // in unitPool.Go
    | StartsForwarder
    | WaitsWorkers
    | ReadsFatal
    | Returned(err: bool)    // runWithUnits has returned
    | Finishing(err: bool)   // firstErr offered, the deferred calls up to wg.Done
    | MainGone(err: bool)

  datatype Job = Job(
    enum: EnumPc,
    unitCh: seq<Unit>, unitsClosed: bool,
    main: MainPc,
    workers: seq<Worker>,
    fatal: bool,             // fatalErr holds an error
    wg: nat,
    slots: nat,              // goroutines in the unit pool
    total: nat, finished: nat,
    crashed: bool,
    forwarded: multiset<Chunk>,  // history: chunks sent on outputChunks
    recorded: nat)               // history: failures offered to fatalErr

  // unitRoom is 1 and chunkRoom 64 in the source; limit 0 is no limit on the unit pool.
  datatype Config = Config(limit: nat, unitRoom: nat, chunkRoom: nat)

  predicate ValidConfig(c: Config) { c.unitRoom > 0 && c.chunkRoom > 0 }

  function StartJob(w: Work): Job {
    Job(Enumerating(w.events, w.outcome), [], false, TakesUnits, [], false, 0, 0, 0, 0, false, multiset{}, 0)
  }

  datatype Action = Enum | Main | Chunker(k: nat) | Forwarder(k: nat)

  // ---------------------------------------------------------------- the steps of a job

  predicate Enabled(c: Config, j: Job, a: Action, outRoom: bool) {
    !j.crashed &&
    match a
    case Enum =>
      (match j.enum
       case Sending(_, _, _) => |j.unitCh| < c.unitRoom || j.unitsClosed
       case EnumGone => false
       case _ => true)
    case Main =>
      (match j.main
       case TakesUnits => j.unitCh != [] || j.unitsClosed
       case Spawns(_) => c.limit == 0 || j.slots < c.limit
       case WaitsWorkers => j.wg == 0
       case Returned(_) => false
       case Finishing(_) => false
       case MainGone(_) => false
       case _ => true)
    case Chunker(k) => k < |j.workers| && ChunkerEnabled(c, j.workers[k])
    case Forwarder(k) => k < |j.workers| && ForwarderEnabled(j.workers[k], outRoom)
  }

  predicate ChunkerEnabled(c: Config, w: Worker) {
    match w.chunker
    case Chunking(todo, _) => todo == [] || |w.ch| < c.chunkRoom || w.closed
    case ChunkerGone => false
    case _ => true
  }

  predicate ForwarderEnabled(w: Worker, outRoom: bool) {
    match w.forwarder
    case NotStarted => false
    case Receiving => w.ch != [] || w.closed
    case Forwarding(_) => outRoom
    case ForwarderGone => false
    case _ => true
  }

  // catchFirstFatal: the first error fills the slot, later ones are discarded.
  function Record(j: Job, o: Outcome): Job {
    if o == Succeeds then j else j.(fatal := true, recorded := j.recorded + 1)
  }

  function StepEnum(c: Config, j: Job): Job
    requires Enabled(c, j, Enum, false)
  {
    match j.enum
    case Enumerating(todo, outcome) =>
      if todo == [] then Record(j, outcome).(enum := ClosesUnits)
      else if todo[0].sent then j.(enum := Sending(todo[0].reported, todo[1..], outcome), total := j.total + 1)
      else j.(enum := Enumerating(todo[1..], outcome), total := j.total + 1)
    case Sending(u, todo, outcome) =>
      if j.unitsClosed then j.(crashed := true)
      else j.(enum := Enumerating(todo, outcome), unitCh := j.unitCh + [u])
    case ClosesUnits =>
      if j.unitsClosed then j.(crashed := true) else j.(enum := EndsEnumerating, unitsClosed := true)
    case EndsEnumerating => j.(enum := EnumGone)
  }

  function StepMain(c: Config, j: Job): Job
    requires Enabled(c, j, Main, false)
  {
    match j.main
    case TakesUnits =>
      if j.unitCh != [] then j.(main := Spawns(j.unitCh[0]), unitCh := j.unitCh[1..])
      else j.(main := WaitsWorkers)
    case Spawns(u) =>
      j.(main := StartsForwarder, slots := j.slots + 1,
         workers := j.workers + [Worker(Chunking(u.chunks, u.outcome), [], false, NotStarted)])
    case StartsForwarder =>
      if j.workers == [] then j.(crashed := true)
      else
        var k := |j.workers| - 1;
        j.(main := TakesUnits, wg := j.wg + 1, workers := j.workers[k := j.workers[k].(forwarder := Receiving)])
    case WaitsWorkers => j.(main := ReadsFatal)
    case ReadsFatal => j.(main := Returned(j.fatal))
  }

  function SetWorker(j: Job, k: nat, w: Worker): Job
    requires k < |j.workers|
  {
    j.(workers := j.workers[k := w])
  }

  function StepChunker(c: Config, j: Job, k: nat): Job
    requires Enabled(c, j, Chunker(k), false)
  {
    var w := j.workers[k];
    match w.chunker
    case Chunking(todo, outcome) =>
      if todo == [] then SetWorker(Record(j, outcome), k, w.(chunker := ClosesChunks))
      else if w.closed then j.(crashed := true)
      else SetWorker(j, k, w.(chunker := Chunking(todo[1..], outcome), ch := w.ch + [todo[0]]))
    case ClosesChunks =>
      if w.closed then j.(crashed := true) else SetWorker(j, k, w.(chunker := ReleasesSlot, closed := true))
    case ReleasesSlot =>
      if j.slots == 0 then j.(crashed := true)
      else SetWorker(j, k, w.(chunker := ChunkerGone)).(slots := j.slots - 1)
  }

  function StepForwarder(c: Config, j: Job, k: nat): Job
    requires Enabled(c, j, Forwarder(k), true)
  {
    var w := j.workers[k];
    match w.forwarder
    case Receiving =>
      if w.ch != [] then SetWorker(j, k, w.(forwarder := Forwarding(w.ch[0]), ch := w.ch[1..]))
      else SetWorker(j, k, w.(forwarder := EndsUnit))
    case Forwarding(x) => SetWorker(j, k, w.(forwarder := Receiving)).(forwarded := j.forwarded + multiset{x})
    case EndsUnit => SetWorker(j, k, w.(forwarder := LeavesGroup)).(finished := j.finished + 1)
    case LeavesGroup =>
      if j.wg == 0 then j.(crashed := true) else SetWorker(j, k, w.(forwarder := ForwarderGone)).(wg := j.wg - 1)
  }

  function Next(c: Config, j: Job, a: Action): Job
    requires Enabled(c, j, a, true)
  {
    match a
    case Enum => StepEnum(c, j)
    case Main => StepMain(c, j)
    case Chunker(k) => StepChunker(c, j, k)
    case Forwarder(k) => StepForwarder(c, j, k)
  }

  // ---------------------------------------------------------------- invariant of a job

  ghost function One(b: bool): nat { if b then 1 else 0 }

  ghost function InGroup(w: Worker): nat { One(!w.forwarder.NotStarted? && !w.forwarder.ForwarderGone?) }
  ghost function InPool(w: Worker): nat { One(!w.chunker.ChunkerGone?) }
  ghost function Ended(w: Worker): nat { One(w.forwarder.LeavesGroup? || w.forwarder.ForwarderGone?) }

  ghost predicate Drained(w: Worker) {
    && (w.closed <==> w.chunker.ReleasesSlot? || w.chunker.ChunkerGone?)
    && (w.forwarder.EndsUnit? || w.forwarder.LeavesGroup? || w.forwarder.ForwarderGone? ==> w.closed && w.ch == [])
  }

  predicate PastUnits(m: MainPc) {
    m.WaitsWorkers? || m.ReadsFatal? || m.Returned? || m.Finishing? || m.MainGone?
  }

  predicate PastWorkers(m: MainPc) {
    m.ReadsFatal? || m.Returned? || m.Finishing? || m.MainGone?
  }

  ghost predicate Counted(j: Job) {
    && j.wg == Sum(InGroup, j.workers)
    && j.slots == Sum(InPool, j.workers)
    && j.finished == Sum(Ended, j.workers)
    && j.total >= |j.workers| + |j.unitCh| + One(j.main.Spawns?) + One(j.enum.Sending?)
  }

  ghost predicate Staged(j: Job) {
    && (j.unitsClosed <==> j.enum.EndsEnumerating? || j.enum.EnumGone?)
    && (PastUnits(j.main) ==> j.unitsClosed && j.unitCh == [])
    && (PastWorkers(j.main) ==> j.wg == 0)
    && (j.main.StartsForwarder? ==> j.workers != [])
    && (j.fatal <==> j.recorded > 0)
    && (j.main.Returned? || j.main.Finishing? || j.main.MainGone? ==> j.main.err == j.fatal)
  }

  ghost predicate AllDrained(j: Job) {
    forall k :: 0 <= k < |j.workers| ==> Drained(j.workers[k])
  }

  ghost predicate Started(j: Job) {
    forall k :: 0 <= k < |j.workers| ==> (j.workers[k].forwarder.NotStarted? <==> j.main.StartsForwarder? && k == |j.workers| - 1)
  }

  ghost predicate JobInv(j: Job) {
    !j.crashed && Counted(j) && Staged(j) && AllDrained(j) && Started(j)
  }

  // Once the job's own goroutine has waited for its workers, every unit's chunks have been
  // forwarded and its failure, if any, recorded.
  lemma WorkersQuiet(j: Job, k: nat)
    requires JobInv(j) && PastWorkers(j.main) && k < |j.workers|
    ensures var w := j.workers[k];
      w.forwarder.ForwarderGone? && w.ch == [] && (w.chunker.ReleasesSlot? || w.chunker.ChunkerGone?)
  {
    SumUpdate(InGroup, j.workers, k, j.workers[k]);
  }

  lemma NoCrash(c: Config, j: Job, a: Action)
    requires Enabled(c, j, a, true) && JobInv(j)
    ensures !Next(c, j, a).crashed
  {
    match a
    case Chunker(k) => SumUpdate(InPool, j.workers, k, j.workers[k]);
    case Forwarder(k) => SumUpdate(InGroup, j.workers, k, j.workers[k]);
    case _ =>
  }

  // The worker after a chunker or forwarder step; the rest of the job changes as follows.
  lemma ChunkerEffect(c: Config, j: Job, k: nat)
    requires Enabled(c, j, Chunker(k), true) && !StepChunker(c, j, k).crashed
    ensures var t, w := StepChunker(c, j, k), j.workers[k]; var w' := t.workers[k];
      && t.workers == j.workers[k := w'] && w'.forwarder == w.forwarder && (Drained(w) ==> Drained(w'))
      && t.enum == j.enum && t.unitCh == j.unitCh && t.unitsClosed == j.unitsClosed && t.main == j.main
      && t.wg == j.wg && t.total == j.total && t.finished == j.finished
      && t.slots + InPool(w) == j.slots + InPool(w')
      && (if w.chunker.Chunking? && w.chunker.todo == []
          then t.fatal == Record(j, w.chunker.outcome).fatal && t.recorded == Record(j, w.chunker.outcome).recorded
          else t.fatal == j.fatal && t.recorded == j.recorded)
  {
  }

  lemma ForwarderEffect(c: Config, j: Job, k: nat)
    requires Enabled(c, j, Forwarder(k), true) && !StepForwarder(c, j, k).crashed
    ensures var t, w := StepForwarder(c, j, k), j.workers[k]; var w' := t.workers[k];
      && t.workers == j.workers[k := w'] && w'.chunker == w.chunker && (Drained(w) ==> Drained(w'))
      && !w.forwarder.NotStarted? && !w'.forwarder.NotStarted?
      && t.enum == j.enum && t.unitCh == j.unitCh && t.unitsClosed == j.unitsClosed && t.main == j.main
      && t.fatal == j.fatal && t.recorded == j.recorded && t.slots == j.slots && t.total == j.total
      && t.wg + InGroup(w) == j.wg + InGroup(w') && t.finished + Ended(w) == j.finished + Ended(w')
  {
    hide Drained;
    ForwarderDrains(c, j, k);
  }

  lemma ForwarderDrains(c: Config, j: Job, k: nat)
    requires Enabled(c, j, Forwarder(k), true) && !StepForwarder(c, j, k).crashed
    ensures k < |StepForwarder(c, j, k).workers|
    ensures (Drained(j.workers[k]) ==> Drained(StepForwarder(c, j, k).workers[k]))
  {
  }

  lemma ChunkerKeeps(c: Config, j: Job, k: nat)
    requires Enabled(c, j, Chunker(k), true) && JobInv(j)
    ensures JobInv(StepChunker(c, j, k))
  {
    NoCrash(c, j, Chunker(k));
    ChunkerEffect(c, j, k);
    if PastWorkers(j.main) { WorkersQuiet(j, k); }
    hide Enabled, StepChunker, Sum;
    var t := StepChunker(c, j, k);
    SumUpdate(InGroup, j.workers, k, t.workers[k]);
    SumUpdate(InPool, j.workers, k, t.workers[k]);
    SumUpdate(Ended, j.workers, k, t.workers[k]);
  }

  lemma ForwarderKeeps(c: Config, j: Job, k: nat)
    requires Enabled(c, j, Forwarder(k), true) && JobInv(j)
    ensures JobInv(StepForwarder(c, j, k))
  {
    NoCrash(c, j, Forwarder(k));
    ForwarderEffect(c, j, k);
    if PastWorkers(j.main) { WorkersQuiet(j, k); }
    hide Enabled, StepForwarder, Sum;
    var t := StepForwarder(c, j, k);
    SumUpdate(InGroup, j.workers, k, t.workers[k]);
    SumUpdate(InPool, j.workers, k, t.workers[k]);
    SumUpdate(Ended, j.workers, k, t.workers[k]);
  }

  lemma EnumKeeps(c: Config, j: Job)
    requires Enabled(c, j, Enum, true) && JobInv(j)
    ensures JobInv(StepEnum(c, j))
  {
    hide Sum, Drained;
    NoCrash(c, j, Enum);
  }

  lemma SpawnKeeps(c: Config, j: Job)
    requires Enabled(c, j, Main, true) && JobInv(j) && j.main.Spawns?
    ensures JobInv(StepMain(c, j))
  {
    hide Sum, InGroup, InPool, Ended;
    var w := Worker(Chunking(j.main.unit.chunks, j.main.unit.outcome), [], false, NotStarted);
    SumPush(InGroup, j.workers, w);
    SumPush(InPool, j.workers, w);
    SumPush(Ended, j.workers, w);
    NewWorker(j.main.unit);
    hide Enabled;
  }

  lemma NewWorker(u: Unit)
    ensures var w := Worker(Chunking(u.chunks, u.outcome), [], false, NotStarted);
      InGroup(w) == 0 && InPool(w) == 1 && Ended(w) == 0 && Drained(w)
  {
  }

  lemma ForwarderStartKeeps(c: Config, j: Job)
    requires Enabled(c, j, Main, true) && JobInv(j) && j.main.StartsForwarder?
    ensures JobInv(StepMain(c, j))
  {
    hide Sum;
    var k := |j.workers| - 1;
    var w := j.workers[k].(forwarder := Receiving);
    SumUpdate(InGroup, j.workers, k, w);
    SumUpdate(InPool, j.workers, k, w);
    SumUpdate(Ended, j.workers, k, w);
    hide Enabled;
  }

  lemma MainKeeps(c: Config, j: Job)
    requires Enabled(c, j, Main, true) && JobInv(j)
    ensures JobInv(StepMain(c, j))
  {
    match j.main
    case Spawns(u) => SpawnKeeps(c, j); hide StepMain, JobInv;
    case StartsForwarder => ForwarderStartKeeps(c, j); hide StepMain, JobInv;
    case _ => hide Sum, Drained;
  }

  lemma StepKeepsInv(c: Config, j: Job, a: Action)
    requires Enabled(c, j, a, true) && JobInv(j)
    ensures JobInv(Next(c, j, a))
  {
    match a
    case Enum => EnumKeeps(c, j);
    case Main => MainKeeps(c, j);
    case Chunker(k) => ChunkerKeeps(c, j, k);
    case Forwarder(k) => ForwarderKeeps(c, j, k);
  }

  // ---------------------------------------------------------------- conservation in a job

  // What is charged for a chunk to forward, a failure to record and a step to make.
  datatype Tariff = Tariff(chunk: Chunk -> nat, fail: nat, hop: nat)

  ghost function FailCost(t: Tariff, o: Outcome): nat { if o == Succeeds then 0 else t.fail }

  ghost function ToSend(t: Tariff, x: Chunk): nat { t.chunk(x) + 3 * t.hop }
  ghost function ToTake(t: Tariff, x: Chunk): nat { t.chunk(x) + 2 * t.hop }

  ghost function ToSendAll(t: Tariff, xs: seq<Chunk>): nat { Sum((x: Chunk) => ToSend(t, x), xs) }
  ghost function ToTakeAll(t: Tariff, xs: seq<Chunk>): nat { Sum((x: Chunk) => ToTake(t, x), xs) }

  ghost function UnitCost(t: Tariff, u: Unit): nat { ToSendAll(t, u.chunks) + FailCost(t, u.outcome) + 8 * t.hop }
  ghost function QueuedCost(t: Tariff, u: Unit): nat { UnitCost(t, u) + t.hop }
  ghost function EventCost(t: Tariff, e: Event): nat { if e.sent then UnitCost(t, e.reported) + 3 * t.hop else t.hop }
  ghost function EventsCost(t: Tariff, es: seq<Event>): nat { Sum((e: Event) => EventCost(t, e), es) }

  ghost function EnumCost(t: Tariff, pc: EnumPc): nat {
    match pc
    case Enumerating(todo, o) => EventsCost(t, todo) + FailCost(t, o) + 3 * t.hop
    case Sending(u, todo, o) => UnitCost(t, u) + 2 * t.hop + EventsCost(t, todo) + FailCost(t, o) + 3 * t.hop
    case ClosesUnits => 2 * t.hop
    case EndsEnumerating => t.hop
    case EnumGone => 0
  }

  ghost function MainCost(t: Tariff, pc: MainPc): nat {
    match pc
    case TakesUnits => 5 * t.hop
    case Spawns(u) => UnitCost(t, u) + 5 * t.hop
    case StartsForwarder => 6 * t.hop
    case WaitsWorkers => 4 * t.hop
    case ReadsFatal => 3 * t.hop
    case Returned(_) => 2 * t.hop
    case Finishing(_) => t.hop
    case MainGone(_) => 0
  }

  ghost function ChunkerCost(t: Tariff, pc: ChunkerPc): nat {
    match pc
    case Chunking(todo, o) => ToSendAll(t, todo) + FailCost(t, o) + 3 * t.hop
    case ClosesChunks => 2 * t.hop
    case ReleasesSlot => t.hop
    case ChunkerGone => 0
  }

  ghost function ForwarderCost(t: Tariff, pc: ForwarderPc): nat {
    match pc
    case NotStarted => 3 * t.hop
    case Receiving => 3 * t.hop
    case Forwarding(x) => t.chunk(x) + 4 * t.hop
    case EndsUnit => 2 * t.hop
    case LeavesGroup => t.hop
    case ForwarderGone => 0
  }

  ghost function WorkerCost(t: Tariff, w: Worker): nat {
    ChunkerCost(t, w.chunker) + ToTakeAll(t, w.ch) + ForwarderCost(t, w.forwarder)
  }

  ghost function QueueCost(t: Tariff, us: seq<Unit>): nat { Sum((u: Unit) => QueuedCost(t, u), us) }
  ghost function WorkersCost(t: Tariff, ws: seq<Worker>): nat { Sum((w: Worker) => WorkerCost(t, w), ws) }

  ghost function JobCost(t: Tariff, j: Job): nat {
    EnumCost(t, j.enum) + QueueCost(t, j.unitCh) + MainCost(t, j.main) + WorkersCost(t, j.workers)
  }

  // The chunk the action sends on the output channel, if any.
  function Emitted(j: Job, a: Action): seq<Chunk> {
    if a.Forwarder? && a.k < |j.workers| && j.workers[a.k].forwarder.Forwarding? then [j.workers[a.k].forwarder.chunk] else []
  }

  ghost function EmitCost(t: Tariff, j: Job, a: Action): nat {
    if Emitted(j, a) == [] then 0 else t.chunk(Emitted(j, a)[0])
  }

  // A step pays one hop, for the chunk it forwards, and for the failure it records.
  ghost predicate Pays(t: Tariff, j: Job, j': Job, a: Action) {
    JobCost(t, j') + t.hop + EmitCost(t, j, a) + (if j'.recorded > j.recorded then t.fail else 0) == JobCost(t, j)
  }

  lemma WorkerPays(t: Tariff, workers: seq<Worker>, k: nat, w: Worker)
    requires k < |workers|
    ensures WorkersCost(t, workers[k := w]) + WorkerCost(t, workers[k]) == WorkersCost(t, workers) + WorkerCost(t, w)
  {
    SumUpdate((w: Worker) => WorkerCost(t, w), workers, k, w);
  }

  lemma EnumStepPays(t: Tariff, todo: seq<Event>, o: Outcome)
    requires todo != []
    ensures EnumCost(t, Enumerating(todo, o)) == t.hop +
      if todo[0].sent then EnumCost(t, Sending(todo[0].reported, todo[1..], o)) else EnumCost(t, Enumerating(todo[1..], o))
  {
    hide UnitCost;
  }

  lemma EnumPays(c: Config, t: Tariff, j: Job)
    requires Enabled(c, j, Enum, true) && !StepEnum(c, j).crashed
    ensures Pays(t, j, StepEnum(c, j), Enum)
  {
    hide UnitCost, MainCost, WorkersCost;
    match j.enum
    case Enumerating(todo, o) =>
      hide QueueCost;
      if todo != [] {
        EnumStepPays(t, todo, o);
        hide EnumCost;
      }
    case Sending(u, _, _) =>
      hide EventsCost;
      SumPush((u: Unit) => QueuedCost(t, u), j.unitCh, u);
    case _ => hide QueueCost, EventsCost;
  }

  lemma SpawnPays(c: Config, t: Tariff, j: Job)
    requires Enabled(c, j, Main, true) && j.main.Spawns?
    ensures Pays(t, j, StepMain(c, j), Main)
  {
    hide UnitCost, EnumCost, QueueCost;
    var u := j.main.unit;
    var w := Worker(Chunking(u.chunks, u.outcome), [], false, NotStarted);
    SumPush((w: Worker) => WorkerCost(t, w), j.workers, w);
    assert WorkersCost(t, j.workers + [w]) == WorkersCost(t, j.workers) + WorkerCost(t, w);
    NewWorkerCost(t, u);
    hide WorkersCost, WorkerCost;
  }

  lemma NewWorkerCost(t: Tariff, u: Unit)
    ensures WorkerCost(t, Worker(Chunking(u.chunks, u.outcome), [], false, NotStarted)) + 2 * t.hop == UnitCost(t, u)
  {
  }

  lemma MainPays(c: Config, t: Tariff, j: Job)
    requires Enabled(c, j, Main, true) && !StepMain(c, j).crashed && Started(j)
    ensures Pays(t, j, StepMain(c, j), Main)
  {
    hide UnitCost, EnumCost;
    match j.main
    case Spawns(u) => SpawnPays(c, t, j);
    case StartsForwarder =>
      var k := |j.workers| - 1;
      WorkerPays(t, j.workers, k, j.workers[k].(forwarder := Receiving));
    case _ => hide WorkersCost;
  }

  lemma ChunkerStepCost(c: Config, t: Tariff, j: Job, k: nat)
    requires Enabled(c, j, Chunker(k), true) && !StepChunker(c, j, k).crashed
    ensures var j' := StepChunker(c, j, k);
      WorkerCost(t, j'.workers[k]) + t.hop + (if j'.recorded > j.recorded then t.fail else 0) == WorkerCost(t, j.workers[k])
  {
    var w := j.workers[k];
    if w.chunker.Chunking? && w.chunker.todo != [] {
      SumPush((x: Chunk) => ToTake(t, x), w.ch, w.chunker.todo[0]);
    }
  }

  lemma ForwarderStepCost(c: Config, t: Tariff, j: Job, k: nat)
    requires Enabled(c, j, Forwarder(k), true) && !StepForwarder(c, j, k).crashed
    ensures var j' := StepForwarder(c, j, k);
      WorkerCost(t, j'.workers[k]) + t.hop + EmitCost(t, j, Forwarder(k)) == WorkerCost(t, j.workers[k])
  {
  }

  lemma ChunkerPays(c: Config, t: Tariff, j: Job, k: nat)
    requires Enabled(c, j, Chunker(k), true) && !StepChunker(c, j, k).crashed
    ensures Pays(t, j, StepChunker(c, j, k), Chunker(k))
  {
    ChunkerEffect(c, j, k);
    ChunkerStepCost(c, t, j, k);
    hide StepChunker, Enabled, WorkerCost, WorkersCost, EnumCost, MainCost, QueueCost, Drained, Record;
    WorkerPays(t, j.workers, k, StepChunker(c, j, k).workers[k]);
  }

  lemma ForwarderPays(c: Config, t: Tariff, j: Job, k: nat)
    requires Enabled(c, j, Forwarder(k), true) && !StepForwarder(c, j, k).crashed
    ensures Pays(t, j, StepForwarder(c, j, k), Forwarder(k))
  {
    ForwarderEffect(c, j, k);
    ForwarderStepCost(c, t, j, k);
    hide StepForwarder, Enabled, WorkerCost, WorkersCost, EnumCost, MainCost, QueueCost, Drained, EmitCost;
    WorkerPays(t, j.workers, k, StepForwarder(c, j, k).workers[k]);
  }

  lemma StepPays(c: Config, t: Tariff, j: Job, a: Action)
    requires Enabled(c, j, a, true) && !Next(c, j, a).crashed && Started(j)
    ensures Pays(t, j, Next(c, j, a), a)
  {
    match a
    case Enum => EnumPays(c, t, j);
    case Main => MainPays(c, t, j);
    case Chunker(k) => ChunkerPays(c, t, j, k);
    case Forwarder(k) => ForwarderPays(c, t, j, k);
  }

  // ---------------------------------------------------------------- progress of a job

  lemma WorkerProgress(c: Config, j: Job, k: nat) returns (a: Action)
    requires ValidConfig(c) && JobInv(j) && k < |j.workers| && !j.main.StartsForwarder?
    requires InPool(j.workers[k]) > 0 || InGroup(j.workers[k]) > 0
    ensures Enabled(c, j, a, true) && !a.Enum?
  {
    hide Sum;
    var w := j.workers[k];
    a := if ChunkerEnabled(c, w) then Chunker(k) else Forwarder(k);
  }

  // The step is not a deferred EndEnumerating.
  predicate PutsOff(j: Job, a: Action) { !a.Enum? || !j.enum.EndsEnumerating? }

  // As long as its own goroutine has not returned from runWithUnits, some goroutine of a job can
  // step, given room on the output channel, and other than by a deferred EndEnumerating.
  lemma JobCanStep(c: Config, j: Job) returns (a: Action)
    requires ValidConfig(c) && JobInv(j) && !j.main.Returned? && !j.main.Finishing? && !j.main.MainGone?
    ensures Enabled(c, j, a, true) && PutsOff(j, a)
  {
    if Enabled(c, j, Main, true) {
      a := Main;
    } else {
      match j.main
      case TakesUnits => a := Enum;
      case Spawns(_) =>
        var k := SumPositive(InPool, j.workers);
        a := WorkerProgress(c, j, k);
      case WaitsWorkers =>
        var k := SumPositive(InGroup, j.workers);
        a := WorkerProgress(c, j, k);
    }
  }

  // ---------------------------------------------------------------- the manager

  datatype WaiterPc = WaitsJobs | ReadsFirstErr | ClosesOutput | WaitReturned(err: bool)

  datatype Manager = Manager(
    cfg: Config, outRoom: nat,
    jobs: seq<Job>,
    wg: nat,
    firstErr: bool,          // firstErr holds an error
    waitErr: bool,
    out: seq<Chunk>, outClosed: bool,
    waiter: WaiterPc,
    crashed: bool,
    consumed: multiset<Chunk>)

  datatype Step = InJob(i: nat, a: Action) | Offers(i: nat) | Leaves(i: nat) | Waits | Consumes

  // Every job has been started before Wait is called.
  function Start(c: Config, outRoom: nat, works: seq<Work>): Manager {
    Manager(c, outRoom, seq(|works|, i requires 0 <= i < |works| => StartJob(works[i])), |works|,
            false, false, [], false, WaitsJobs, false, multiset{})
  }

  predicate OutRoom(m: Manager) { |m.out| < m.outRoom || m.outClosed }

  predicate CanStep(m: Manager, p: Step) {
    !m.crashed &&
    match p
    case InJob(i, a) => i < |m.jobs| && Enabled(m.cfg, m.jobs[i], a, OutRoom(m))
    case Offers(i) => i < |m.jobs| && m.jobs[i].main.Returned?
    case Leaves(i) => i < |m.jobs| && m.jobs[i].main.Finishing?
    case Waits => !m.waiter.WaitReturned? && (m.waiter.WaitsJobs? ==> m.wg == 0)
    case Consumes => m.out != []
  }

  function SetJob(m: Manager, i: nat, j: Job): Manager
    requires i < |m.jobs|
  {
    m.(jobs := m.jobs[i := j])
  }

  function Do(m: Manager, p: Step): Manager
    requires CanStep(m, p)
  {
    match p
    case InJob(i, a) =>
      var j, sent := Next(m.cfg, m.jobs[i], a), Emitted(m.jobs[i], a);
      if j.crashed || (sent != [] && m.outClosed) then m.(crashed := true)
      else SetJob(m, i, j).(out := m.out + sent)
    case Offers(i) =>
      var err := m.jobs[i].main.err;
      SetJob(m, i, m.jobs[i].(main := Finishing(err))).(firstErr := m.firstErr || err)
    case Leaves(i) =>
      if m.wg == 0 then m.(crashed := true)
      else SetJob(m, i, m.jobs[i].(main := MainGone(m.jobs[i].main.err))).(wg := m.wg - 1)
    case Waits =>
      (match m.waiter
       case WaitsJobs => m.(waiter := ReadsFirstErr)
       case ReadsFirstErr => m.(waiter := ClosesOutput, waitErr := m.firstErr)
       case ClosesOutput =>
         if m.outClosed then m.(crashed := true) else m.(waiter := WaitReturned(m.waitErr), outClosed := true))
    case Consumes => m.(out := m.out[1..], consumed := m.consumed + multiset{m.out[0]})
  }

  // ---------------------------------------------------------------- invariant of the manager

  ghost function Running(j: Job): nat { One(!j.main.MainGone?) }

  ghost predicate Offered(j: Job) { (j.main.Finishing? || j.main.MainGone?) && j.main.err }

  ghost predicate AllJobs(m: Manager) {
    forall i :: 0 <= i < |m.jobs| ==> JobInv(m.jobs[i])
  }

  ghost predicate Waiting(m: Manager) {
    && m.wg == Sum(Running, m.jobs)
    && (!m.waiter.WaitsJobs? ==> m.wg == 0)
    && (m.outClosed <==> m.waiter.WaitReturned?)
    && (m.firstErr <==> AnyOffered(m.jobs))
    && (m.waiter.ClosesOutput? || m.waiter.WaitReturned? ==> m.waitErr == m.firstErr)
    && (m.waiter.WaitReturned? ==> m.waiter.err == m.firstErr)
  }

  ghost predicate Inv(m: Manager) {
    !m.crashed && ValidConfig(m.cfg) && m.outRoom > 0 && AllJobs(m) && Waiting(m)
  }

  lemma JobCounted(m: Manager, i: nat)
    requires Waiting(m) && i < |m.jobs| && !m.jobs[i].main.MainGone?
    ensures m.wg > 0 && m.waiter.WaitsJobs? && !m.outClosed
  {
    SumUpdate(Running, m.jobs, i, m.jobs[i]);
  }

  // A goroutine that can still forward belongs to a job that has not returned.
  lemma ForwardersCounted(m: Manager, i: nat, a: Action)
    requires Inv(m) && i < |m.jobs| && Emitted(m.jobs[i], a) != []
    ensures !m.outClosed
  {
    if PastWorkers(m.jobs[i].main) {
      WorkersQuiet(m.jobs[i], a.k);
    }
    JobCounted(m, i);
  }

  lemma MainStays(c: Config, j: Job, a: Action)
    requires Enabled(c, j, a, true)
    ensures Next(c, j, a).main.MainGone? ==> Next(c, j, a).main == j.main
    ensures j.main.MainGone? ==> Next(c, j, a).main == j.main
    ensures Next(c, j, a).main.Finishing? <==> j.main.Finishing?
    ensures j.main.Finishing? ==> Next(c, j, a).main == j.main
    ensures j.main.Returned? ==> Next(c, j, a).main == j.main
  {
  }

  ghost predicate AnyOffered(jobs: seq<Job>) {
    exists i :: 0 <= i < |jobs| && Offered(jobs[i])
  }

  lemma OfferedAfter(jobs: seq<Job>, i: nat, j: Job)
    requires i < |jobs| && (Offered(jobs[i]) ==> Offered(j))
    ensures AnyOffered(jobs[i := j]) <==> AnyOffered(jobs) || Offered(j)
  {
    hide Offered;
    var after := jobs[i := j];
    assert after[i] == j;
    if AnyOffered(jobs) {
      var k :| 0 <= k < |jobs| && Offered(jobs[k]);
      assert Offered(after[k]);
    }
  }

  // What one goroutine's step leaves in the manager's view of the job.
  lemma InJobEffect(m: Manager, i: nat, a: Action)
    requires CanStep(m, InJob(i, a)) && Inv(m)
    ensures var j, t := m.jobs[i], Do(m, InJob(i, a));
      && !t.crashed && JobInv(Next(m.cfg, j, a))
      && t == m.(jobs := m.jobs[i := Next(m.cfg, j, a)], out := m.out + Emitted(j, a))
      && Running(Next(m.cfg, j, a)) == Running(j) && Offered(Next(m.cfg, j, a)) == Offered(j)
  {
    StepKeepsInv(m.cfg, m.jobs[i], a);
    MainStays(m.cfg, m.jobs[i], a);
    if Emitted(m.jobs[i], a) != [] {
      ForwardersCounted(m, i, a);
    }
    hide Next, Enabled, Sum, Counted, Staged, AllDrained, Started;
  }

  lemma InJobKeeps(m: Manager, i: nat, a: Action)
    requires CanStep(m, InJob(i, a)) && Inv(m)
    ensures Inv(Do(m, InJob(i, a)))
  {
    InJobEffect(m, i, a);
    var j := Next(m.cfg, m.jobs[i], a);
    SumUpdate(Running, m.jobs, i, j);
    OfferedAfter(m.jobs, i, j);
    hide CanStep, Do, Next, JobInv, Sum, Running, Offered;
  }

  lemma MainStepInv(j: Job, pc: MainPc)
    requires JobInv(j)
    requires ((j.main.Returned? && pc == Finishing(j.main.err)) || (j.main.Finishing? && pc == MainGone(j.main.err)))
    ensures JobInv(j.(main := pc))
  {
    hide Sum, Drained;
  }

  lemma OffersKeeps(m: Manager, i: nat)
    requires CanStep(m, Offers(i)) && Inv(m)
    ensures Inv(Do(m, Offers(i)))
  {
    hide JobInv, Sum, AnyOffered;
    JobCounted(m, i);
    var j := m.jobs[i].(main := Finishing(m.jobs[i].main.err));
    MainStepInv(m.jobs[i], j.main);
    SumUpdate(Running, m.jobs, i, j);
    OfferedAfter(m.jobs, i, j);
    hide Enabled;
  }

  lemma LeavesKeeps(m: Manager, i: nat)
    requires CanStep(m, Leaves(i)) && Inv(m)
    ensures Inv(Do(m, Leaves(i)))
  {
    assert Offered(m.jobs[i]) ==> AnyOffered(m.jobs);
    hide JobInv, Sum, AnyOffered;
    JobCounted(m, i);
    var j := m.jobs[i].(main := MainGone(m.jobs[i].main.err));
    MainStepInv(m.jobs[i], j.main);
    SumUpdate(Running, m.jobs, i, j);
    OfferedAfter(m.jobs, i, j);
    hide Enabled;
  }

  lemma DoKeepsInv(m: Manager, p: Step)
    requires CanStep(m, p) && Inv(m)
    ensures Inv(Do(m, p))
  {
    match p
    case InJob(i, a) => InJobKeeps(m, i, a);
    case Offers(i) => OffersKeeps(m, i);
    case Leaves(i) => LeavesKeeps(m, i);
    case _ => hide Sum, JobInv;
  }

  // ---------------------------------------------------------------- what happens to the work

  // The chunks of every unit sent, in the order of the units.
  function SentChunks(es: seq<Event>): seq<Chunk> {
    if es == [] then [] else (if es[0].sent then es[0].reported.chunks else []) + SentChunks(es[1..])
  }

  // Enumerate or a ChunkUnit of a sent unit returns an error or panics.
  predicate WorkFails(w: Work) {
    w.outcome != Succeeds || exists e :: e in w.events && e.sent && e.reported.outcome != Succeeds
  }

  ghost function ForChunk(x: Chunk): Tariff { Tariff((y: Chunk) => One(y == x), 0, 0) }
  ghost function ForFailures(): Tariff { Tariff((y: Chunk) => 0, 1, 0) }
  ghost function ForSteps(): Tariff { Tariff((y: Chunk) => 1, 0, 1) }

  ghost function StartCost(t: Tariff, w: Work): nat { JobCost(t, StartJob(w)) }

  // Nothing of the job's work is lost or repeated.
  ghost predicate Accounted(w: Work, j: Job) {
    (forall x: Chunk :: AccountedChunk(w, j, x)) && AccountedFailures(w, j)
  }

  ghost predicate AccountedChunk(w: Work, j: Job, x: Chunk) {
    j.forwarded[x] + JobCost(ForChunk(x), j) == StartCost(ForChunk(x), w)
  }

  ghost predicate AccountedFailures(w: Work, j: Job) {
    j.recorded + JobCost(ForFailures(), j) == StartCost(ForFailures(), w)
  }

  lemma History(c: Config, j: Job, a: Action)
    requires Enabled(c, j, a, true)
    ensures Next(c, j, a).forwarded == j.forwarded + multiset(Emitted(j, a))
    ensures j.recorded <= Next(c, j, a).recorded <= j.recorded + 1
  {
  }

  lemma ForwardsEmitted(c: Config, j: Job, a: Action, x: Chunk)
    requires Enabled(c, j, a, true)
    ensures Next(c, j, a).forwarded[x] == j.forwarded[x] + EmitCost(ForChunk(x), j, a)
  {
    History(c, j, a);
    hide Next, Enabled;
    var e := Emitted(j, a);
    assert e == [] || e == [e[0]];
    assert EmitCost(ForChunk(x), j, a) == if e == [] then 0 else One(e[0] == x);
  }

  lemma ChunkPays(t: Tariff, j: Job, j': Job, a: Action)
    requires Pays(t, j, j', a) && t.hop == 0 && t.fail == 0
    ensures JobCost(t, j') + EmitCost(t, j, a) == JobCost(t, j)
  {
    hide JobCost, EmitCost;
  }

  lemma ChunkStaysAccounted(c: Config, w: Work, j: Job, a: Action, x: Chunk)
    requires Enabled(c, j, a, true) && !Next(c, j, a).crashed && Started(j) && AccountedChunk(w, j, x)
    ensures AccountedChunk(w, Next(c, j, a), x)
  {
    ForwardsEmitted(c, j, a, x);
    StepPays(c, ForChunk(x), j, a);
    ChunkPays(ForChunk(x), j, Next(c, j, a), a);
    hide Enabled, Next, JobCost, Started, StartCost, Pays, ForChunk, EmitCost;
  }

  lemma StaysAccounted(c: Config, w: Work, j: Job, a: Action)
    requires Enabled(c, j, a, true) && JobInv(j) && Accounted(w, j)
    ensures Accounted(w, Next(c, j, a))
  {
    NoCrash(c, j, a);
    History(c, j, a);
    StepPays(c, ForFailures(), j, a);
    hide Enabled, Next, JobCost, Counted, Staged, AllDrained, AccountedChunk, StartCost, Emitted;
    forall x: Chunk ensures AccountedChunk(w, Next(c, j, a), x) {
      ChunkStaysAccounted(c, w, j, a, x);
    }
  }

  lemma {:induction false} ChunksCost(x: Chunk, xs: seq<Chunk>)
    ensures ToSendAll(ForChunk(x), xs) == multiset(xs)[x]
  {
    if xs != [] {
      ChunksCost(x, xs[1..]);
      assert xs == [xs[0]] + xs[1..];
      assert ToSendAll(ForChunk(x), xs) == One(xs[0] == x) + ToSendAll(ForChunk(x), xs[1..]);
    }
  }

  lemma {:induction false} EventsForChunk(x: Chunk, es: seq<Event>)
    ensures EventsCost(ForChunk(x), es) == multiset(SentChunks(es))[x]
  {
    if es != [] {
      EventsForChunk(x, es[1..]);
      ChunksCost(x, es[0].reported.chunks);
    }
  }

  lemma {:induction false} EventsForFailures(es: seq<Event>)
    ensures EventsCost(ForFailures(), es) > 0 <==> exists e :: e in es && e.sent && e.reported.outcome != Succeeds
  {
    if es != [] {
      EventsForFailures(es[1..]);
      NoChunkCost(es[0].reported.chunks);
      assert forall e :: e in es <==> e == es[0] || e in es[1..];
    }
  }

  lemma {:induction false} NoChunkCost(xs: seq<Chunk>)
    ensures ToSendAll(ForFailures(), xs) == 0
  {
    if xs != [] { NoChunkCost(xs[1..]); }
  }

  lemma StartCosts(w: Work)
    ensures forall x: Chunk :: StartCost(ForChunk(x), w) == multiset(SentChunks(w.events))[x]
    ensures StartCost(ForFailures(), w) > 0 <==> WorkFails(w)
  {
    forall x: Chunk ensures StartCost(ForChunk(x), w) == multiset(SentChunks(w.events))[x] {
      EventsForChunk(x, w.events);
    }
    EventsForFailures(w.events);
  }

  lemma {:induction false} NothingLeft(t: Tariff, ws: seq<Worker>)
    requires t.hop == 0
    requires forall w :: w in ws ==> w.forwarder.ForwarderGone? && w.ch == [] && (w.chunker.ReleasesSlot? || w.chunker.ChunkerGone?)
    ensures WorkersCost(t, ws) == 0
  {
    if ws != [] { NothingLeft(t, ws[1..]); }
  }

  lemma ReturnedCost(t: Tariff, j: Job)
    requires JobInv(j) && t.hop == 0 && (j.main.Returned? || j.main.Finishing? || j.main.MainGone?)
    ensures JobCost(t, j) == 0
  {
    forall k: nat | k < |j.workers|
      ensures j.workers[k].forwarder.ForwarderGone? && j.workers[k].ch == [] &&
              (j.workers[k].chunker.ReleasesSlot? || j.workers[k].chunker.ChunkerGone?) {
      WorkersQuiet(j, k);
    }
    NothingLeft(t, j.workers);
  }

  lemma ReturnedChunk(w: Work, j: Job, x: Chunk)
    requires JobInv(j) && AccountedChunk(w, j, x) && (j.main.Returned? || j.main.Finishing? || j.main.MainGone?)
    ensures j.forwarded[x] == multiset(SentChunks(w.events))[x]
  {
    StartCosts(w);
    ReturnedCost(ForChunk(x), j);
    hide JobCost, StartCost, JobInv;
  }

  /** runWithUnits returns an error exactly when Enumerate or a ChunkUnit of a sent unit failed or
      panicked, and by then exactly the chunks of the sent units are on the output channel. */
  lemma ReturnsWithAll(w: Work, j: Job)
    requires JobInv(j) && Accounted(w, j) && (j.main.Returned? || j.main.Finishing? || j.main.MainGone?)
    ensures j.main.err <==> WorkFails(w)
    ensures j.forwarded == multiset(SentChunks(w.events))
  {
    StartCosts(w);
    ReturnedCost(ForFailures(), j);
    assert j.main.err <==> WorkFails(w) by {
      hide JobCost, StartCost, WorkFails, Counted, AllDrained, Started, AccountedChunk;
    }
    hide JobInv, JobCost, StartCost, WorkFails, AccountedChunk;
    forall x: Chunk ensures j.forwarded[x] == multiset(SentChunks(w.events))[x] {
      ReturnedChunk(w, j, x);
    }
  }

  // ---------------------------------------------------------------- runs of the manager

  ghost predicate Faithful(works: seq<Work>, m: Manager) {
    && |m.jobs| == |works|
    && (forall i :: 0 <= i < |works| ==> Accounted(works[i], m.jobs[i]))
    && (forall x: Chunk :: m.consumed[x] + multiset(m.out)[x] == Forwarded(x, m.jobs))
  }

  ghost function Forwarded(x: Chunk, jobs: seq<Job>): nat { Sum((j: Job) => j.forwarded[x], jobs) }

  lemma ForwardedAfter(m: Manager, i: nat, j: Job, sent: seq<Chunk>, x: Chunk)
    requires i < |m.jobs| && j.forwarded == m.jobs[i].forwarded + multiset(sent)
    requires m.consumed[x] + multiset(m.out)[x] == Forwarded(x, m.jobs)
    ensures m.consumed[x] + multiset(m.out + sent)[x] == Forwarded(x, m.jobs[i := j])
  {
    SumUpdate((j: Job) => j.forwarded[x], m.jobs, i, j);
    hide Sum;
  }

  lemma InJobFaithful(works: seq<Work>, m: Manager, i: nat, a: Action)
    requires CanStep(m, InJob(i, a)) && Inv(m) && Faithful(works, m)
    ensures Faithful(works, Do(m, InJob(i, a)))
  {
    InJobEffect(m, i, a);
    assert JobInv(m.jobs[i]);
    var j := Next(m.cfg, m.jobs[i], a);
    hide JobInv, Accounted, Emitted, Next, Forwarded, Waiting, Do;
    StaysAccounted(m.cfg, works[i], m.jobs[i], a);
    History(m.cfg, m.jobs[i], a);
    hide CanStep, Inv;
    forall x: Chunk ensures m.consumed[x] + multiset(m.out + Emitted(m.jobs[i], a))[x] == Forwarded(x, m.jobs[i := j]) {
      assert m.consumed[x] + multiset(m.out)[x] == Forwarded(x, m.jobs);
      ForwardedAfter(m, i, j, Emitted(m.jobs[i], a), x);
    }
  }

  lemma MainStepAccounted(w: Work, j: Job, pc: MainPc)
    requires Accounted(w, j)
    requires (j.main.Returned? && pc.Finishing?) || (j.main.Finishing? && pc.MainGone?)
    ensures Accounted(w, j.(main := pc))
  {
    hide StartCost, EnumCost, QueueCost, WorkersCost;
    forall x: Chunk ensures AccountedChunk(w, j.(main := pc), x) {
      assert AccountedChunk(w, j, x);
    }
  }

  lemma MainStepFaithful(works: seq<Work>, m: Manager, i: nat, pc: MainPc)
    requires Faithful(works, m) && i < |m.jobs|
    requires (m.jobs[i].main.Returned? && pc.Finishing?) || (m.jobs[i].main.Finishing? && pc.MainGone?)
    ensures forall k :: 0 <= k < |works| ==> Accounted(works[k], m.jobs[i := m.jobs[i].(main := pc)][k])
    ensures forall x: Chunk :: m.consumed[x] + multiset(m.out)[x] == Forwarded(x, m.jobs[i := m.jobs[i].(main := pc)])
  {
    var j := m.jobs[i].(main := pc);
    MainStepAccounted(works[i], m.jobs[i], pc);
    hide Accounted;
    forall x: Chunk ensures m.consumed[x] + multiset(m.out)[x] == Forwarded(x, m.jobs[i := j]) {
      SumUpdate((j: Job) => j.forwarded[x], m.jobs, i, j);
      assert m.consumed[x] + multiset(m.out)[x] == Forwarded(x, m.jobs);
    }
  }

  lemma ConsumeFaithful(works: seq<Work>, m: Manager)
    requires CanStep(m, Consumes) && Faithful(works, m)
    ensures Faithful(works, Do(m, Consumes))
  {
    hide Accounted, Forwarded;
    assert m.out == [m.out[0]] + m.out[1..];
    forall x: Chunk ensures Do(m, Consumes).consumed[x] + multiset(m.out[1..])[x] == Forwarded(x, m.jobs) {
      assert m.consumed[x] + multiset(m.out)[x] == Forwarded(x, m.jobs);
    }
  }

  lemma DoStaysFaithful(works: seq<Work>, m: Manager, p: Step)
    requires CanStep(m, p) && Inv(m) && Faithful(works, m)
    ensures Faithful(works, Do(m, p))
  {
    hide Accounted, Forwarded, Counted, Staged, AllDrained, Started;
    match p
    case InJob(i, a) => InJobFaithful(works, m, i, a);
    case Offers(i) => MainStepFaithful(works, m, i, Finishing(m.jobs[i].main.err));
    case Leaves(i) =>
      JobCounted(m, i);
      MainStepFaithful(works, m, i, MainGone(m.jobs[i].main.err));
    case Waits =>
    case Consumes => ConsumeFaithful(works, m);
  }

  // How many steps a state can still make.
  ghost function WaiterRank(pc: WaiterPc): nat {
    match pc case WaitsJobs => 3 case ReadsFirstErr => 2 case ClosesOutput => 1 case WaitReturned(_) => 0
  }

  ghost function JobsCost(jobs: seq<Job>): nat { Sum((j: Job) => JobCost(ForSteps(), j), jobs) }

  ghost function StepsLeft(m: Manager): nat { JobsCost(m.jobs) + |m.out| + WaiterRank(m.waiter) }

  lemma EmitsAtMostOne(j: Job, a: Action)
    ensures EmitCost(ForSteps(), j, a) == |Emitted(j, a)|
  {
  }

  lemma InJobUsesStep(m: Manager, i: nat, a: Action)
    requires CanStep(m, InJob(i, a)) && Inv(m)
    ensures StepsLeft(Do(m, InJob(i, a))) + 1 == StepsLeft(m)
  {
    InJobEffect(m, i, a);
    var j := m.jobs[i];
    StepPays(m.cfg, ForSteps(), j, a);
    EmitsAtMostOne(j, a);
    hide CanStep, Do, Next, JobInv, Sum, JobCost, Emitted, EmitCost;
    SumUpdate((j: Job) => JobCost(ForSteps(), j), m.jobs, i, Next(m.cfg, j, a));
  }

  lemma MainUsesStep(m: Manager, i: nat, pc: MainPc)
    requires i < |m.jobs|
    requires (m.jobs[i].main.Returned? && pc.Finishing?) || (m.jobs[i].main.Finishing? && pc.MainGone?)
    ensures JobsCost(m.jobs[i := m.jobs[i].(main := pc)]) + 1 == JobsCost(m.jobs)
  {
    hide EnumCost, QueueCost, WorkersCost, Sum;
    SumUpdate((j: Job) => JobCost(ForSteps(), j), m.jobs, i, m.jobs[i].(main := pc));
  }

  lemma DoUsesStep(m: Manager, p: Step)
    requires CanStep(m, p) && Inv(m)
    ensures StepsLeft(Do(m, p)) + 1 == StepsLeft(m)
  {
    match p
    case InJob(i, a) => InJobUsesStep(m, i, a);
    case Offers(i) => MainUsesStep(m, i, Finishing(m.jobs[i].main.err)); hide JobsCost;
    case Leaves(i) =>
      JobCounted(m, i);
      MainUsesStep(m, i, MainGone(m.jobs[i].main.err));
      hide JobsCost;
    case _ => DoKeepsInv(m, p); hide JobsCost;
  }

  ghost predicate Run(start: Manager, steps: seq<Step>, end: Manager)
    decreases |steps|
  {
    if steps == [] then start == end
    else CanStep(start, steps[0]) && Run(Do(start, steps[0]), steps[1..], end)
  }

  lemma {:induction false} RunKeeps(works: seq<Work>, start: Manager, steps: seq<Step>, end: Manager)
    requires Inv(start) && Faithful(works, start) && Run(start, steps, end)
    ensures Inv(end) && Faithful(works, end) && |steps| + StepsLeft(end) == StepsLeft(start)
    decreases |steps|
  {
    if steps != [] {
      DoKeepsInv(start, steps[0]);
      DoStaysFaithful(works, start, steps[0]);
      DoUsesStep(start, steps[0]);
      RunKeeps(works, Do(start, steps[0]), steps[1..], end);
    }
  }

  lemma {:induction false} FreshJobs(jobs: seq<Job>)
    requires forall j :: j in jobs ==> j.main.TakesUnits? && j.forwarded == multiset{}
    ensures Sum(Running, jobs) == |jobs|
    ensures forall x: Chunk :: Forwarded(x, jobs) == 0
  {
    if jobs != [] {
      FreshJobs(jobs[1..]);
      forall x: Chunk ensures Forwarded(x, jobs) == 0 {
        assert Forwarded(x, jobs) == jobs[0].forwarded[x] + Forwarded(x, jobs[1..]);
      }
    }
  }

  lemma StartInv(c: Config, outRoom: nat, works: seq<Work>)
    requires ValidConfig(c) && outRoom > 0
    ensures Inv(Start(c, outRoom, works)) && Faithful(works, Start(c, outRoom, works))
  {
    var jobs := Start(c, outRoom, works).jobs;
    FreshJobs(jobs);
    forall i | 0 <= i < |works| ensures JobInv(jobs[i]) && Accounted(works[i], jobs[i]) {
      FreshJob(works[i]);
    }
    hide JobInv, Accounted, Forwarded, Sum, StartJob;
    assert !AnyOffered(jobs) by { NoneOffered(jobs); }
  }

  lemma FreshJob(w: Work)
    ensures JobInv(StartJob(w)) && Accounted(w, StartJob(w)) && StartJob(w).main.TakesUnits?
  {
  }

  lemma NoneOffered(jobs: seq<Job>)
    requires forall j :: j in jobs ==> j.main.TakesUnits?
    ensures !AnyOffered(jobs)
  {
  }

  // ---------------------------------------------------------------- main results

  ghost predicate Reachable(c: Config, outRoom: nat, works: seq<Work>, m: Manager) {
    exists steps :: Run(Start(c, outRoom, works), steps, m)
  }

  ghost predicate Done(m: Manager) {
    && m.waiter.WaitReturned? && m.outClosed && m.out == []
    && forall i :: 0 <= i < |m.jobs| ==> JobDone(m.jobs[i])
  }

  ghost predicate JobDone(j: Job) {
    && j.enum.EnumGone? && j.main.MainGone?
    && forall k :: 0 <= k < |j.workers| ==> j.workers[k].chunker.ChunkerGone? && j.workers[k].forwarder.ForwarderGone?
  }

  /** In every run, and after every step of it: no send or close hits a closed channel and no
      WaitGroup goes negative; a job's finished units never exceed its total; a job that has
      returned from runWithUnits failed exactly when its work did and has forwarded exactly the chunks
      of its sent units. Once Wait has returned, every job is gone, its error says whether any
      job failed, and all those chunks, and no others, went out. */
  lemma EveryRunIsSafe(c: Config, outRoom: nat, works: seq<Work>, steps: seq<Step>, m: Manager)
    requires ValidConfig(c) && outRoom > 0 && Run(Start(c, outRoom, works), steps, m)
    ensures !m.crashed && |m.jobs| == |works|
    ensures forall i :: 0 <= i < |works| ==> m.jobs[i].finished <= m.jobs[i].total
    ensures forall i :: 0 <= i < |works| && (m.jobs[i].main.Returned? || m.jobs[i].main.Finishing? || m.jobs[i].main.MainGone?) ==>
      (m.jobs[i].main.err <==> WorkFails(works[i])) && m.jobs[i].forwarded == multiset(SentChunks(works[i].events))
    ensures m.waiter.WaitReturned? ==> forall i :: 0 <= i < |works| ==> m.jobs[i].main.MainGone?
    ensures m.waiter.WaitReturned? ==> (m.waiter.err <==> exists w :: w in works && WorkFails(w))
    ensures m.waiter.WaitReturned? ==> forall x: Chunk :: m.consumed[x] + multiset(m.out)[x] == Forwarded(x, m.jobs)
    ensures |steps| + StepsLeft(m) == StepsLeft(Start(c, outRoom, works))
  {
    StartInv(c, outRoom, works);
    RunKeeps(works, Start(c, outRoom, works), steps, m);
    hide Start, Accounted, Counted, Staged, AllDrained, Started;
    forall i: nat | i < |works|
      ensures m.jobs[i].finished <= m.jobs[i].total
      ensures m.jobs[i].main.Returned? || m.jobs[i].main.Finishing? || m.jobs[i].main.MainGone? ==>
        (m.jobs[i].main.err <==> WorkFails(works[i])) && m.jobs[i].forwarded == multiset(SentChunks(works[i].events)) {
      FinishedWithinTotal(m.jobs[i]);
      if m.jobs[i].main.Returned? || m.jobs[i].main.Finishing? || m.jobs[i].main.MainGone? {
        ReturnsWithAll(works[i], m.jobs[i]);
      }
    }
    if m.waiter.WaitReturned? {
      WaitSeesErrors(works, m);
    }
  }

  lemma FinishedWithinTotal(j: Job)
    requires JobInv(j)
    ensures j.finished <= j.total
  {
    SumAtMost(j.workers);
  }

  lemma {:induction false} SumAtMost(ws: seq<Worker>)
    ensures Sum(Ended, ws) <= |ws|
  {
    if ws != [] { SumAtMost(ws[1..]); }
  }

  lemma AllGone(m: Manager)
    requires Waiting(m) && m.wg == 0
    ensures forall i :: 0 <= i < |m.jobs| ==> m.jobs[i].main.MainGone?
  {
    forall i: nat | i < |m.jobs| ensures m.jobs[i].main.MainGone? {
      if !m.jobs[i].main.MainGone? { JobCounted(m, i); }
    }
  }

  lemma WaitSeesErrors(works: seq<Work>, m: Manager)
    requires Inv(m) && Faithful(works, m) && m.waiter.WaitReturned?
    ensures forall i :: 0 <= i < |works| ==> m.jobs[i].main.MainGone?
    ensures m.waiter.err <==> exists w :: w in works && WorkFails(w)
  {
    AllGone(m);
    hide Accounted, JobInv, WorkFails;
    forall i: nat | i < |works| ensures Offered(m.jobs[i]) <==> WorkFails(works[i]) {
      ReturnsWithAll(works[i], m.jobs[i]);
    }
    if AnyOffered(m.jobs) {
      var i :| 0 <= i < |m.jobs| && Offered(m.jobs[i]);
      assert works[i] in works;
    }
    if w :| w in works && WorkFails(w) {
      var i :| 0 <= i < |works| && works[i] == w;
      assert Offered(m.jobs[i]);
    }
  }

  lemma JobFinishes(c: Config, j: Job)
    requires ValidConfig(c) && JobInv(j) && j.main.MainGone?
    requires forall a :: !Enabled(c, j, a, true)
    ensures JobDone(j)
  {
    assert !Enabled(c, j, Enum, true);
    forall k: nat | k < |j.workers| ensures j.workers[k].chunker.ChunkerGone? && j.workers[k].forwarder.ForwarderGone? {
      WorkersQuiet(j, k);
      assert !Enabled(c, j, Chunker(k), true);
    }
  }

  predicate AllPutOff(m: Manager, p: Step) { p.InJob? && p.i < |m.jobs| ==> PutsOff(m.jobs[p.i], p.a) }

  lemma ManagerProgress(m: Manager, i: nat) returns (p: Step)
    requires Inv(m) && i < |m.jobs| && !m.jobs[i].main.MainGone?
    ensures CanStep(m, p) && AllPutOff(m, p)
  {
    if m.out != [] {
      p := Consumes;
    } else if m.jobs[i].main.Returned? {
      p := Offers(i);
    } else if m.jobs[i].main.Finishing? {
      p := Leaves(i);
    } else {
      var a := JobCanStep(m.cfg, m.jobs[i]);
      p := InJob(i, a);
    }
  }

  lemma WaitProgress(m: Manager) returns (p: Step)
    requires Inv(m) && !m.waiter.WaitReturned?
    ensures CanStep(m, p) && AllPutOff(m, p)
  {
    if m.wg > 0 {
      var i := SumPositive(Running, m.jobs);
      p := ManagerProgress(m, i);
    } else {
      p := Waits;
    }
  }

  lemma JobStuck(m: Manager, i: nat)
    requires Inv(m) && i < |m.jobs| && OutRoom(m) && m.jobs[i].main.MainGone?
    requires forall p :: !CanStep(m, p)
    ensures JobDone(m.jobs[i])
  {
    hide JobInv, JobDone, Enabled;
    forall a ensures !Enabled(m.cfg, m.jobs[i], a, true) {
      assert !CanStep(m, InJob(i, a));
    }
    JobFinishes(m.cfg, m.jobs[i]);
  }

  lemma StuckIsDone(m: Manager)
    requires Inv(m) && forall p :: !CanStep(m, p)
    ensures Done(m)
  {
    hide JobInv, JobDone, AnyOffered, Enabled;
    if !m.waiter.WaitReturned? {
      var p := WaitProgress(m);
    }
    assert !CanStep(m, Consumes);
    AllGone(m);
    forall i: nat | i < |m.jobs| ensures JobDone(m.jobs[i]) {
      JobStuck(m, i);
    }
  }

  /** No run gets stuck early: with a consumer on the other end, a state no goroutine can leave is
      one where Wait has returned, the output channel is closed and drained, and every goroutine of
      every job is gone. */
  lemma NoDeadlock(c: Config, outRoom: nat, works: seq<Work>, m: Manager)
    requires ValidConfig(c) && outRoom > 0 && Reachable(c, outRoom, works, m)
    requires forall p :: !CanStep(m, p)
    ensures Done(m)
  {
    hide JobInv, JobDone, Faithful, Start, Run, AnyOffered;
    var steps :| Run(Start(c, outRoom, works), steps, m);
    StartInv(c, outRoom, works);
    RunKeeps(works, Start(c, outRoom, works), steps, m);
    StuckIsDone(m);
  }

  // ---------------------------------------------------------------- progress reports

  const TWO_64: nat := 0x1_0000_0000_0000_0000

  // PercentComplete: the product is a uint64 product.
  function PercentComplete(finished: nat, total: nat, sourcePercent: int): int {
    if finished == 0 && total == 0 then sourcePercent
    else if total == 0 then -1
    else finished * 100 % TWO_64 / total
  }

  lemma Grows(d: nat, q: int)
    requires q > 100
    ensures d * q >= 101 * d
  {
    assert d * q == 101 * d + d * (q - 101);
  }

  lemma Quotient(n: nat, d: nat, q: int, r: nat)
    requires 0 < d && n <= 100 * d && n == d * q + r && r < d
    ensures q <= 100
  {
    if q > 100 { Grows(d, q); }
  }

  lemma WithinHundred(n: nat, d: nat)
    requires 0 < d && n <= 100 * d
    ensures 0 <= n / d <= 100
  {
    Quotient(n, d, n / d, n % d);
  }

  lemma WrappedBelow(n: nat)
    ensures 0 <= n % TWO_64 <= n
  {
  }

  /** Unit-based progress stays within 0 to 100 and never takes the branch returning -1, even where
      the product wraps around. */
  lemma PercentInRange(j: Job, sourcePercent: int)
    requires JobInv(j)
    ensures var p := PercentComplete(j.finished, j.total, sourcePercent);
      if j.total == 0 then p == sourcePercent else 0 <= p <= 100
  {
    FinishedWithinTotal(j);
    hide JobInv;
    WrappedBelow(j.finished * 100);
    if j.total > 0 { WithinHundred(j.finished * 100 % TWO_64, j.total); }
  }

  // ---------------------------------------------------------------- hooks after Wait

  // Some goroutine of the job has yet to call a progress hook.
  predicate HookPending(j: Job) {
    || !j.enum.EnumGone?
    || !j.main.MainGone?
    || exists k :: 0 <= k < |j.workers| && (j.workers[k].chunker.Chunking? || !j.workers[k].forwarder.ForwarderGone?)
  }

  // The only hook that can be left is the deferred EndEnumerating, which comes after the close of the
  // unit channel that the job's own goroutine waits for.
  lemma EndEnumeratingLeft(c: Config, outRoom: nat, works: seq<Work>, m: Manager, i: nat)
    requires ValidConfig(c) && outRoom > 0 && Reachable(c, outRoom, works, m)
    requires m.waiter.WaitReturned? && i < |m.jobs|
    ensures HookPending(m.jobs[i]) <==> m.jobs[i].enum.EndsEnumerating?
  {
    var steps :| Run(Start(c, outRoom, works), steps, m);
    StartInv(c, outRoom, works);
    RunKeeps(works, Start(c, outRoom, works), steps, m);
    AllGone(m);
    forall k: nat | k < |m.jobs[i].workers|
      ensures m.jobs[i].workers[k].forwarder.ForwarderGone? && !m.jobs[i].workers[k].chunker.Chunking? {
      WorkersQuiet(m.jobs[i], k);
    }
  }

  lemma {:induction false} RunPush(start: Manager, steps: seq<Step>, m: Manager, p: Step)
    requires Run(start, steps, m) && CanStep(m, p)
    ensures Run(start, steps + [p], Do(m, p))
    decreases |steps|
  {
    if steps != [] {
      RunPush(Do(start, steps[0]), steps[1..], m, p);
      assert (steps + [p])[1..] == steps[1..] + [p];
    }
  }

  // No deferred EndEnumerating has run yet.
  predicate AllHeld(m: Manager) { forall i :: 0 <= i < |m.jobs| ==> !m.jobs[i].enum.EnumGone? }

  lemma HeldInJob(c: Config, j: Job, a: Action)
    requires Enabled(c, j, a, true) && PutsOff(j, a) && !j.enum.EnumGone?
    ensures !Next(c, j, a).enum.EnumGone?
  {
  }

  lemma StaysHeld(m: Manager, p: Step)
    requires CanStep(m, p) && Inv(m) && AllHeld(m) && AllPutOff(m, p)
    ensures AllHeld(Do(m, p)) && |Do(m, p).jobs| == |m.jobs|
  {
    if p.InJob? {
      InJobEffect(m, p.i, p.a);
      HeldInJob(m.cfg, m.jobs[p.i], p.a);
    }
    hide Next, Inv, Emitted;
  }

  // From any state of a run Wait can be made to return with every EndEnumerating put off.
  lemma {:induction false} WaitReturnsFirst(start: Manager, steps: seq<Step>, m: Manager)
    returns (steps': seq<Step>, m': Manager)
    requires Run(start, steps, m) && Inv(m) && AllHeld(m)
    ensures Run(start, steps', m') && Inv(m') && AllHeld(m') && m'.waiter.WaitReturned? && |m'.jobs| == |m.jobs|
    decreases StepsLeft(m)
  {
    hide Inv, CanStep, Do, StepsLeft, AllPutOff, AllHeld;
    if m.waiter.WaitReturned? {
      steps', m' := steps, m;
    } else {
      var p := WaitProgress(m);
      StaysHeld(m, p);
      DoKeepsInv(m, p);
      DoUsesStep(m, p);
      RunPush(start, steps, m, p);
      steps', m' := WaitReturnsFirst(start, steps + [p], Do(m, p));
    }
  }

  // Once Wait has returned a job's units are closed, so its enumerating goroutine is at its last step.
  lemma LastStepLeft(m: Manager, i: nat)
    requires Inv(m) && AllHeld(m) && m.waiter.WaitReturned? && i < |m.jobs|
    ensures m.jobs[i].enum.EndsEnumerating? && CanStep(m, InJob(i, Enum))
  {
    AllGone(m);
    assert JobInv(m.jobs[i]);
    hide Counted, AllDrained, Started;
  }

  /** Whatever the jobs do, there is a run in which Wait has returned and every one of them has its
      EndEnumerating still to call. */
  lemma HooksFireAfterWait(c: Config, outRoom: nat, works: seq<Work>) returns (m: Manager)
    requires ValidConfig(c) && outRoom > 0
    ensures Reachable(c, outRoom, works, m) && m.waiter.WaitReturned? && |m.jobs| == |works|
    ensures forall i :: 0 <= i < |works| ==> m.jobs[i].enum.EndsEnumerating? && CanStep(m, InJob(i, Enum))
  {
    var start := Start(c, outRoom, works);
    StartInv(c, outRoom, works);
    assert AllHeld(start) && |start.jobs| == |works|;
    hide Start, Inv, Faithful, AllHeld, CanStep;
    var steps: seq<Step> := [];
    steps, m := WaitReturnsFirst(start, steps, start);
    forall i: nat | i < |works| ensures m.jobs[i].enum.EndsEnumerating? && CanStep(m, InJob(i, Enum)) {
      LastStepLeft(m, i);
    }
  }

  // Wait has returned, and a hook of job i is still to be called.
  ghost predicate HookLate(c: Config, outRoom: nat, works: seq<Work>, m: Manager, i: nat) {
    Reachable(c, outRoom, works, m) && m.waiter.WaitReturned? && i < |m.jobs| && HookPending(m.jobs[i])
  }

  /** Wait closes the hooks, so no hook may fire once it has returned. Some run violates that if and only
      if there is a job at all. */
  lemma HooksAfterWait(c: Config, outRoom: nat, works: seq<Work>)
    requires ValidConfig(c) && outRoom > 0
    ensures (exists m, i :: HookLate(c, outRoom, works, m, i)) <==> works != []
  {
    var m := HooksFireAfterWait(c, outRoom, works);
    if works != [] {
      assert HookLate(c, outRoom, works, m, 0);
    } else {
      forall m, i ensures !HookLate(c, outRoom, works, m, i) {
        if HookLate(c, outRoom, works, m, i) { JobsStay(c, outRoom, works, m); }
      }
    }
  }

  lemma JobsStay(c: Config, outRoom: nat, works: seq<Work>, m: Manager)
    requires ValidConfig(c) && outRoom > 0 && Reachable(c, outRoom, works, m)
    ensures |m.jobs| == |works|
  {
    var steps :| Run(Start(c, outRoom, works), steps, m);
    EveryRunIsSafe(c, outRoom, works, steps, m);
  }
}
