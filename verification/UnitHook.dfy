/**
 The unit hook's hand-over of finished metrics: ejectFinishedMetrics, called by job goroutines,
 against any number of concurrent calls of Close, with a consumer that may stop reading.

 A step is one atomic action of one goroutine: taking or releasing closeMu, reading or writing a
 guarded field, a WaitGroup or channel operation. Sender i hands over metric i. A send on a closed
 channel, a second close and a WaitGroup going below zero set `crashed`.
 */
module UnitHook {
  import opened Sums

  type Metric = nat

  datatype SenderPc =
    | SenderStarts
    | SenderLocked       // holds closeMu, about to read closed
    | SenderAdded        // holds closeMu, inflight incremented
    | SenderRefused      // holds closeMu, closed was set
    | TrySend            // the select with a default branch
    | SendOrDone         // the select between the send and the done channel
    | SenderFinishes     // the deferred inflight.Done
    | SenderGone

  datatype CloserPc =
    | CloserStarts
    | CloserLocked       // holds closeMu, about to read closed
    | CloserSet          // holds closeMu, closed set, done not yet closed
    | CloserUnlocks      // holds closeMu, done closed
    | CloserRefused      // holds closeMu, closed was already set
    | WaitInflight
    | ClosesChannel
    | CloserReturned

  datatype Consumer = Away | Receiving

  datatype Holder = Nobody | BySender(i: nat) | ByCloser(j: nat)

  datatype State = State(
    room: nat,                     // capacity of finishedMetrics
    senders: seq<SenderPc>,
    closers: seq<CloserPc>,
    consumer: Consumer,
    mu: Holder,
    closed: bool,
    doneClosed: bool,
    inflight: nat,
    buffer: seq<Metric>,
    channelClosed: bool,
    crashed: bool,
    delivered: multiset<Metric>,   // history: received by the consumer
    dropped: multiset<Metric>)     // history: given up because of Close

  datatype Action = Sender(i: nat) | SenderDrops(i: nat) | Closer(j: nat) | Consume

  function Start(room: nat, senders: nat, closers: nat): State {
    State(room, seq(senders, _ => SenderStarts), seq(closers, _ => CloserStarts), Away, Nobody,
          false, false, 0, [], false, false, multiset{}, multiset{})
  }

  // ---------------------------------------------------------------- steps

  // A send proceeds into free room, or straight to a waiting consumer; on a closed channel it
  // proceeds by panicking.
  predicate CanSend(s: State) {
    |s.buffer| < s.room || (s.consumer.Receiving? && s.buffer == []) || s.channelClosed
  }

  predicate Enabled(s: State, a: Action) {
    !s.crashed &&
    match a
    case Sender(i) => i < |s.senders| && (
      match s.senders[i]
      case SenderStarts => s.mu == Nobody
      case SendOrDone => CanSend(s)
      case SenderGone => false
      case _ => true)
    case SenderDrops(i) => i < |s.senders| && s.senders[i].SendOrDone? && s.doneClosed
    case Closer(j) => j < |s.closers| && (
      match s.closers[j]
      case CloserStarts => s.mu == Nobody
      case WaitInflight => s.inflight == 0
      case CloserReturned => false
      case _ => true)
    case Consume => s.consumer.Away? || s.buffer != []
  }

  function At(s: State, i: nat, pc: SenderPc): State
    requires i < |s.senders|
  {
    s.(senders := s.senders[i := pc])
  }

  function Send(s: State, i: nat): State
    requires i < |s.senders|
  {
    if s.channelClosed then s.(crashed := true)
    else if |s.buffer| < s.room then At(s, i, SenderFinishes).(buffer := s.buffer + [i])
    else At(s, i, SenderFinishes).(consumer := Away, delivered := s.delivered + multiset{i})
  }

  function StepSender(s: State, i: nat): State
    requires Enabled(s, Sender(i))
  {
    match s.senders[i]
    case SenderStarts => At(s, i, SenderLocked).(mu := BySender(i))
    case SenderLocked =>
      if s.closed then At(s, i, SenderRefused) else At(s, i, SenderAdded).(inflight := s.inflight + 1)
    case SenderAdded => At(s, i, TrySend).(mu := Nobody)
    case SenderRefused => At(s, i, SenderGone).(mu := Nobody, dropped := s.dropped + multiset{i})
    case TrySend => if CanSend(s) then Send(s, i) else At(s, i, SendOrDone)
    case SendOrDone => Send(s, i)
    case SenderFinishes =>
      if s.inflight == 0 then s.(crashed := true) else At(s, i, SenderGone).(inflight := s.inflight - 1)
  }

  function SetCloser(s: State, j: nat, pc: CloserPc): State
    requires j < |s.closers|
  {
    s.(closers := s.closers[j := pc])
  }

  function StepCloser(s: State, j: nat): State
    requires Enabled(s, Closer(j))
  {
    match s.closers[j]
    case CloserStarts => SetCloser(s, j, CloserLocked).(mu := ByCloser(j))
    case CloserLocked =>
      if s.closed then SetCloser(s, j, CloserRefused) else SetCloser(s, j, CloserSet).(closed := true)
    case CloserSet =>
      if s.doneClosed then s.(crashed := true) else SetCloser(s, j, CloserUnlocks).(doneClosed := true)
    case CloserUnlocks => SetCloser(s, j, WaitInflight).(mu := Nobody)
    case CloserRefused => SetCloser(s, j, CloserReturned).(mu := Nobody)
    case WaitInflight => SetCloser(s, j, ClosesChannel)
    case ClosesChannel =>
      if s.channelClosed then s.(crashed := true) else SetCloser(s, j, CloserReturned).(channelClosed := true)
  }

  function Next(s: State, a: Action): State
    requires Enabled(s, a)
  {
    match a
    case Sender(i) => StepSender(s, i)
    case SenderDrops(i) => At(s, i, SenderFinishes).(dropped := s.dropped + multiset{i})
    case Closer(j) => StepCloser(s, j)
    case Consume =>
      if s.consumer.Away? then s.(consumer := Receiving)
      else s.(consumer := Away, buffer := s.buffer[1..], delivered := s.delivered + multiset{s.buffer[0]})
  }

  // ---------------------------------------------------------------- invariant

  ghost function One(b: bool): nat { if b then 1 else 0 }

  predicate SenderHolds(pc: SenderPc) { pc.SenderLocked? || pc.SenderAdded? || pc.SenderRefused? }
  predicate CloserHolds(pc: CloserPc) { pc.CloserLocked? || pc.CloserSet? || pc.CloserUnlocks? || pc.CloserRefused? }

  ghost predicate Locked(s: State) {
    && (forall i :: 0 <= i < |s.senders| ==> (SenderHolds(s.senders[i]) <==> s.mu == BySender(i)))
    && (forall j :: 0 <= j < |s.closers| ==> (CloserHolds(s.closers[j]) <==> s.mu == ByCloser(j)))
    && (s.mu.BySender? ==> s.mu.i < |s.senders|) && (s.mu.ByCloser? ==> s.mu.j < |s.closers|)
  }

  // Registered in inflight.
  predicate InFlight(pc: SenderPc) {
    pc.SenderAdded? || pc.TrySend? || pc.SendOrDone? || pc.SenderFinishes?
  }

  ghost function Registered(pc: SenderPc): nat { One(InFlight(pc)) }

  // The one closer that found the hook open.
  predicate Closing(pc: CloserPc) {
    pc.CloserSet? || pc.CloserUnlocks? || pc.WaitInflight? || pc.ClosesChannel?
  }

  ghost function IsClosing(pc: CloserPc): nat { One(Closing(pc)) }

  // A sender whose metric has left it.
  predicate HandedOver(pc: SenderPc) { pc.SenderFinishes? || pc.SenderGone? }

  // Each metric is with its sender, or exactly once in the buffer, delivered or dropped.
  ghost predicate Accounted(s: State) {
    && (forall m: nat :: Fate(s, m) == One(m < |s.senders| && HandedOver(s.senders[m])))
    && (s.dropped != multiset{} ==> s.closed)
  }

  // closed is set by exactly one closer, which is the one that goes on to close the channel; done
  // is closed before that closer releases the lock.
  ghost predicate Phased(s: State) {
    && Sum(IsClosing, s.closers) + One(s.channelClosed) == One(s.closed)
    && (s.doneClosed <==> s.closed && forall j :: 0 <= j < |s.closers| ==> !s.closers[j].CloserSet?)
    && (forall j :: 0 <= j < |s.closers| && (s.closers[j].CloserRefused? || s.closers[j].CloserReturned?) ==> s.closed)
  }

  // No sender registers once closed is set, so inflight stays at zero once it has been seen there.
  ghost predicate Quiesces(s: State) {
    && s.inflight == Sum(Registered, s.senders)
    && (s.channelClosed ==> s.inflight == 0)
    && (forall j :: 0 <= j < |s.closers| && s.closers[j].ClosesChannel? ==> s.inflight == 0)
    && (forall i :: 0 <= i < |s.senders| ==> (s.senders[i].SenderAdded? ==> !s.closed) && (s.senders[i].SenderRefused? ==> s.closed))
  }

  ghost predicate Inv(s: State) {
    !s.crashed && Locked(s) && Accounted(s) && Phased(s) && Quiesces(s)
  }

  lemma SenderCounted(s: State, i: nat)
    requires Quiesces(s) && i < |s.senders| && InFlight(s.senders[i])
    ensures s.inflight > 0 && !s.channelClosed && forall j :: 0 <= j < |s.closers| ==> !s.closers[j].ClosesChannel?
  {
    SumUpdate(Registered, s.senders, i, s.senders[i]);
  }

  lemma CloserCounted(s: State, j: nat)
    requires Phased(s) && j < |s.closers| && Closing(s.closers[j])
    ensures s.closed && !s.channelClosed
  {
    SumUpdate(IsClosing, s.closers, j, s.closers[j]);
  }

  lemma NoCrash(s: State, a: Action)
    requires Enabled(s, a) && Phased(s) && Quiesces(s)
    ensures !Next(s, a).crashed
  {
    match a
    case Sender(i) =>
      if InFlight(s.senders[i]) { SenderCounted(s, i); }
    case Closer(j) =>
      if Closing(s.closers[j]) { CloserCounted(s, j); }
    case _ =>
  }

  // A step moves only the goroutine that makes it.
  lemma OthersStay(s: State, a: Action)
    requires Enabled(s, a) && !Next(s, a).crashed
    ensures var t := Next(s, a);
      && |t.senders| == |s.senders| && |t.closers| == |s.closers|
      && SenderOf(a) < |s.senders| && (a.Closer? ==> a.j < |s.closers|)
      && (forall i :: 0 <= i < |s.senders| && i != SenderOf(a) ==> t.senders[i] == s.senders[i])
      && (forall j :: 0 <= j < |s.closers| && a != Closer(j) ==> t.closers[j] == s.closers[j])
  {
    match a
    case Sender(i) => SenderDecreases(s, i);
    case Closer(j) => CloserDecreases(s, j);
    case _ =>
  }

  lemma SenderLockMoves(s: State, i: nat)
    requires Enabled(s, Sender(i)) && Locked(s) && !StepSender(s, i).crashed
    ensures var t := StepSender(s, i);
      && |t.senders| == |s.senders|
      && t.mu == (if SenderHolds(t.senders[i]) then BySender(i) else if SenderHolds(s.senders[i]) then Nobody else s.mu)
      && (SenderHolds(t.senders[i]) && !SenderHolds(s.senders[i]) ==> s.mu == Nobody)
  {
  }

  lemma CloserLockMoves(s: State, j: nat)
    requires Enabled(s, Closer(j)) && Locked(s) && !StepCloser(s, j).crashed
    ensures var t := StepCloser(s, j);
      && |t.closers| == |s.closers|
      && t.mu == (if CloserHolds(t.closers[j]) then ByCloser(j) else if CloserHolds(s.closers[j]) then Nobody else s.mu)
      && (CloserHolds(t.closers[j]) && !CloserHolds(s.closers[j]) ==> s.mu == Nobody)
  {
  }

  // The lock is taken only when free, and released only by its holder.
  lemma LockMoves(s: State, a: Action)
    requires Enabled(s, a) && Locked(s) && !Next(s, a).crashed
    ensures var t := Next(s, a);
      && (a.Sender? ==> t.mu == if SenderHolds(t.senders[a.i]) then BySender(a.i) else if SenderHolds(s.senders[a.i]) then Nobody else s.mu)
      && (a.Sender? && SenderHolds(t.senders[a.i]) && !SenderHolds(s.senders[a.i]) ==> s.mu == Nobody)
      && (a.SenderDrops? ==> t.mu == s.mu && !SenderHolds(t.senders[a.i]) && !SenderHolds(s.senders[a.i]))
      && (a.Closer? ==> t.mu == if CloserHolds(t.closers[a.j]) then ByCloser(a.j) else if CloserHolds(s.closers[a.j]) then Nobody else s.mu)
      && (a.Closer? && CloserHolds(t.closers[a.j]) && !CloserHolds(s.closers[a.j]) ==> s.mu == Nobody)
      && (a.Consume? ==> t.mu == s.mu)
  {
    match a
    case Sender(i) => SenderLockMoves(s, i); hide StepSender, StepCloser, Locked, SenderHolds;
    case Closer(j) => CloserLockMoves(s, j); hide StepSender, StepCloser, Locked, CloserHolds;
    case _ => hide StepSender, StepCloser, Locked;
  }

  lemma LockedKept(s: State, a: Action)
    requires Enabled(s, a) && Locked(s) && !Next(s, a).crashed
    ensures Locked(Next(s, a))
  {
    hide Enabled, Next;
    OthersStay(s, a);
    LockMoves(s, a);
  }

  // The sender that acts, and whether its metric leaves it.
  ghost function SenderOf(a: Action): int {
    match a case Sender(i) => i case SenderDrops(i) => i case _ => -1
  }

  ghost predicate Hands(s: State, a: Action)
    requires Enabled(s, a)
  {
    match a
    case Sender(i) =>
      s.senders[i].SenderRefused? || s.senders[i].SendOrDone? || (s.senders[i].TrySend? && CanSend(s))
    case SenderDrops(_) => true
    case _ => false
  }

  ghost function Fate(s: State, m: Metric): nat {
    multiset(s.buffer)[m] + s.delivered[m] + s.dropped[m]
  }

  lemma HandOver(s: State, a: Action, m: Metric)
    requires Enabled(s, a) && !Next(s, a).crashed
    ensures Fate(Next(s, a), m) == Fate(s, m) + One(Hands(s, a) && m == SenderOf(a))
  {
    match a
    case Sender(i) => SendOver(s, i, m);
    case Consume =>
      if s.buffer != [] {
        ConsumeOver(s.buffer, m);
      }
    case _ =>
  }

  lemma SendOver(s: State, i: nat, m: Metric)
    requires Enabled(s, Sender(i)) && !StepSender(s, i).crashed
    ensures Fate(StepSender(s, i), m) == Fate(s, m) + One(Hands(s, Sender(i)) && m == i)
  {
    match s.senders[i]
    case TrySend => if CanSend(s) { SendFate(s, i, m); }
    case SendOrDone => SendFate(s, i, m);
    case _ =>
  }

  lemma SendFate(s: State, i: nat, m: Metric)
    requires i < |s.senders| && !s.channelClosed
    ensures Fate(Send(s, i), m) == Fate(s, m) + One(m == i)
  {
    assert multiset(s.buffer + [i])[m] == multiset(s.buffer)[m] + One(m == i);
  }

  lemma ConsumeOver(buffer: seq<Metric>, m: Metric)
    requires buffer != []
    ensures multiset(buffer)[m] == multiset(buffer[1..])[m] + One(m == buffer[0])
  {
    assert buffer == [buffer[0]] + buffer[1..];
  }

  lemma HandedWhenHanding(s: State, a: Action)
    requires Enabled(s, a) && !Next(s, a).crashed && SenderOf(a) >= 0
    ensures HandedOver(Next(s, a).senders[SenderOf(a)]) <==> HandedOver(s.senders[SenderOf(a)]) || Hands(s, a)
    ensures Hands(s, a) ==> !HandedOver(s.senders[SenderOf(a)])
  {
  }

  lemma DropsAfterClose(s: State, a: Action)
    requires Enabled(s, a) && !Next(s, a).crashed && Phased(s) && Quiesces(s) && (s.dropped != multiset{} ==> s.closed)
    ensures Next(s, a).dropped != multiset{} ==> Next(s, a).closed
  {
    hide Sum;
  }

  lemma AccountedKept(s: State, a: Action)
    requires Enabled(s, a) && Accounted(s) && Phased(s) && Quiesces(s) && !Next(s, a).crashed
    ensures Accounted(Next(s, a))
  {
    DropsAfterClose(s, a);
    hide Enabled, Next, Hands, Sum, Phased, Quiesces;
    OthersStay(s, a);
    if SenderOf(a) >= 0 { HandedWhenHanding(s, a); }
    var t := Next(s, a);
    forall m: nat ensures Fate(t, m) == Fate(s, m) + One(Hands(s, a) && m == SenderOf(a)) {
      HandOver(s, a, m);
    }
  }

  // What a closer's step does to the closing state.
  lemma ClosingStep(s: State, j: nat)
    requires Enabled(s, Closer(j)) && !StepCloser(s, j).crashed
    ensures var t := StepCloser(s, j);
      && IsClosing(t.closers[j]) + One(t.channelClosed) + One(s.closed) == IsClosing(s.closers[j]) + One(s.channelClosed) + One(t.closed)
      && (s.closed ==> t.closed)
      && t.doneClosed == (s.doneClosed || s.closers[j].CloserSet?)
      && (t.closers[j].CloserSet? ==> !s.closed && t.closed)
      && (t.closers[j].CloserRefused? || t.closers[j].CloserReturned? ==> t.closed || s.closers[j].ClosesChannel? || s.closers[j].CloserRefused?)
  {
  }

  lemma PhasedKept(s: State, a: Action)
    requires Enabled(s, a) && Phased(s) && !Next(s, a).crashed
    ensures Phased(Next(s, a))
  {
    if a.Closer? {
      CloserKeepsPhase(s, a.j);
    }
  }

  lemma CloserKeepsPhase(s: State, j: nat)
    requires Enabled(s, Closer(j)) && Phased(s) && !StepCloser(s, j).crashed
    ensures Phased(StepCloser(s, j))
  {
    ClosingStep(s, j);
    OthersStay(s, Closer(j));
    var t := StepCloser(s, j);
    SumUpdate(IsClosing, s.closers, j, t.closers[j]);
    assert t.closers == s.closers[j := t.closers[j]];
    hide Enabled, StepCloser;
    if Closing(s.closers[j]) {
      OneCloser(s, j);
      CloserCounted(s, j);
    }
  }

  // At most one closer is closing.
  lemma OneCloser(s: State, j: nat)
    requires Phased(s) && j < |s.closers| && Closing(s.closers[j])
    ensures forall k :: 0 <= k < |s.closers| && k != j ==> !Closing(s.closers[k])
  {
    forall k | 0 <= k < |s.closers| && k != j ensures !Closing(s.closers[k]) {
      SumUpdate(IsClosing, s.closers, j, CloserReturned);
      SumUpdate(IsClosing, s.closers[j := CloserReturned], k, s.closers[k]);
    }
  }

  // What a sender's step does to inflight.
  lemma RegistersStep(s: State, a: Action)
    requires Enabled(s, a) && SenderOf(a) >= 0 && !Next(s, a).crashed && Quiesces(s)
    ensures var t, i := Next(s, a), SenderOf(a);
      && i < |s.senders| == |t.senders|
      && t.inflight + Registered(s.senders[i]) == s.inflight + Registered(t.senders[i])
      && t.senders == s.senders[i := t.senders[i]]
      && t.closers == s.closers && t.closed == s.closed && t.channelClosed == s.channelClosed
      && (t.inflight > s.inflight ==> s.senders[i].SenderLocked? && !s.closed)
      && (t.senders[i].SenderAdded? ==> !s.closed) && (t.senders[i].SenderRefused? ==> s.closed)
  {
  }

  lemma QuiescesKept(s: State, a: Action)
    requires Enabled(s, a) && Quiesces(s) && Phased(s) && Locked(s) && !Next(s, a).crashed
    ensures Quiesces(Next(s, a))
  {
    if SenderOf(a) >= 0 {
      SenderKeepsQuiet(s, a);
    } else if a.Closer? {
      CloserKeepsQuiet(s, a.j);
    }
  }

  lemma SenderKeepsQuiet(s: State, a: Action)
    requires Enabled(s, a) && SenderOf(a) >= 0 && Quiesces(s) && Phased(s) && !Next(s, a).crashed
    ensures Quiesces(Next(s, a))
  {
    RegistersStep(s, a);
    hide Enabled, Next;
    var t, i := Next(s, a), SenderOf(a);
    SumUpdate(Registered, s.senders, i, t.senders[i]);
    if t.inflight > s.inflight {
      forall j | 0 <= j < |s.closers| ensures !Closing(s.closers[j]) {
        if Closing(s.closers[j]) { CloserCounted(s, j); }
      }
    }
  }

  lemma CloserStep(s: State, j: nat)
    requires Enabled(s, Closer(j)) && !StepCloser(s, j).crashed
    ensures var t := StepCloser(s, j);
      && j < |s.closers|
      && t.senders == s.senders && t.inflight == s.inflight
      && |t.closers| == |s.closers| && (forall k :: 0 <= k < |s.closers| && k != j ==> t.closers[k] == s.closers[k])
      && (t.closed != s.closed ==> s.closers[j].CloserLocked?)
      && (t.closers[j].ClosesChannel? ==> s.inflight == 0)
      && (t.channelClosed ==> s.channelClosed || s.closers[j].ClosesChannel?)
      && (s.closed ==> t.closed)
  {
  }

  lemma CloserKeepsQuiet(s: State, j: nat)
    requires Enabled(s, Closer(j)) && Quiesces(s) && Locked(s) && !StepCloser(s, j).crashed
    ensures Quiesces(StepCloser(s, j))
  {
    CloserStep(s, j);
    hide Sum, Enabled, StepCloser;
    if s.closers[j].CloserLocked? {
      assert CloserHolds(s.closers[j]) && s.mu == ByCloser(j);
      assert forall i :: 0 <= i < |s.senders| ==> !SenderHolds(s.senders[i]);
    }
  }

  // ---------------------------------------------------------------- runs

  ghost predicate Run(s: State, acts: seq<Action>, t: State)
    decreases |acts|
  {
    if acts == [] then s == t else Enabled(s, acts[0]) && Run(Next(s, acts[0]), acts[1..], t)
  }

  ghost function SenderRank(pc: SenderPc): nat {
    match pc
    case SenderStarts => 9
    case SenderLocked => 8
    case SenderAdded => 7
    case TrySend => 6
    case SendOrDone => 5
    case SenderRefused => 1
    case SenderFinishes => 1
    case SenderGone => 0
  }

  ghost function CloserRank(pc: CloserPc): nat {
    match pc
    case CloserStarts => 6
    case CloserLocked => 5
    case CloserSet => 4
    case CloserUnlocks => 3
    case WaitInflight => 2
    case CloserRefused => 1
    case ClosesChannel => 1
    case CloserReturned => 0
  }

  ghost function Measure(s: State): nat {
    Sum(SenderRank, s.senders) + Sum(CloserRank, s.closers) + 2 * |s.buffer| + One(s.consumer.Away?)
  }

  lemma StepDecreases(s: State, a: Action)
    requires Enabled(s, a) && !Next(s, a).crashed
    ensures Measure(Next(s, a)) < Measure(s)
  {
    match a
    case Sender(i) =>
      SumUpdate(SenderRank, s.senders, i, StepSender(s, i).senders[i]);
      SenderDecreases(s, i);
    case SenderDrops(i) => SumUpdate(SenderRank, s.senders, i, SenderFinishes);
    case Closer(j) =>
      SumUpdate(CloserRank, s.closers, j, StepCloser(s, j).closers[j]);
      CloserDecreases(s, j);
    case Consume =>
  }

  lemma SenderDecreases(s: State, i: nat)
    requires Enabled(s, Sender(i)) && !StepSender(s, i).crashed
    ensures var t := StepSender(s, i);
      && t.senders == s.senders[i := t.senders[i]] && t.closers == s.closers
      && SenderRank(t.senders[i]) + 2 * |t.buffer| + One(t.consumer.Away?) <
         SenderRank(s.senders[i]) + 2 * |s.buffer| + One(s.consumer.Away?)
  {
  }

  lemma CloserDecreases(s: State, j: nat)
    requires Enabled(s, Closer(j)) && !StepCloser(s, j).crashed
    ensures var t := StepCloser(s, j);
      && t.closers == s.closers[j := t.closers[j]] && t.senders == s.senders
      && t.buffer == s.buffer && t.consumer == s.consumer
      && CloserRank(t.closers[j]) < CloserRank(s.closers[j])
  {
  }

  lemma {:induction false} RunKeeps(s: State, acts: seq<Action>, t: State)
    requires Run(s, acts, t) && Inv(s)
    ensures Inv(t) && Measure(t) + |acts| <= Measure(s)
    ensures |t.senders| == |s.senders| && |t.closers| == |s.closers|
    decreases |acts|
  {
    if acts != [] {
      var a := acts[0];
      NoCrash(s, a);
      LockedKept(s, a);
      AccountedKept(s, a);
      PhasedKept(s, a);
      QuiescesKept(s, a);
      StepDecreases(s, a);
      OthersStay(s, a);
      RunKeeps(Next(s, a), acts[1..], t);
    }
  }

  lemma StartInv(room: nat, senders: nat, closers: nat)
    ensures Inv(Start(room, senders, closers))
    ensures Measure(Start(room, senders, closers)) == 9 * senders + 6 * closers + 1
  {
    var s := Start(room, senders, closers);
    SumConstant(Registered, s.senders, 0);
    RepeatIsProduct(senders, 0);
    SumConstant(IsClosing, s.closers, 0);
    RepeatIsProduct(closers, 0);
    SumConstant(SenderRank, s.senders, 9);
    RepeatIsProduct(senders, 9);
    SumConstant(CloserRank, s.closers, 6);
    RepeatIsProduct(closers, 6);
  }

  // While some Close call has not returned, some sender or closer can step: no help of a consumer
  // is needed.
  lemma ClosersProgress(s: State, j: nat) returns (a: Action)
    requires Inv(s) && j < |s.closers| && !s.closers[j].CloserReturned?
    ensures Enabled(s, a) && !a.Consume?
  {
    match s.mu
    case BySender(i) => a := Sender(i);
    case ByCloser(k) => a := Closer(k);
    case Nobody =>
      a := Closer(j);
      if s.closers[j].WaitInflight? && s.inflight > 0 {
        var i := SumPositive(Registered, s.senders);
        CloserCounted(s, j);
        a := if s.senders[i].SendOrDone? then SenderDrops(i) else Sender(i);
      }
  }

  // ---------------------------------------------------------------- main results

  // In every interleaving: finishedMetrics is never sent on after it is closed, and neither it nor
  // done is closed twice; every metric is with its sender, or exactly once in the buffer, delivered
  // or dropped, and dropped only after Close; and the run is bounded, so no process spins.
  lemma EveryRunIsSafe(room: nat, senders: nat, closers: nat, acts: seq<Action>, s: State)
    requires Run(Start(room, senders, closers), acts, s)
    ensures !s.crashed && |acts| <= 9 * senders + 6 * closers + 1
    ensures |s.senders| == senders && forall m: nat :: Fate(s, m) == One(m < senders && HandedOver(s.senders[m]))
    ensures s.dropped != multiset{} ==> s.closed
    ensures s.channelClosed ==> forall i :: 0 <= i < senders ==> !InFlight(s.senders[i])
  {
    StartInv(room, senders, closers);
    RunKeeps(Start(room, senders, closers), acts, s);
    if s.channelClosed {
      forall i | 0 <= i < senders ensures !InFlight(s.senders[i]) {
        if InFlight(s.senders[i]) { SenderCounted(s, i); }
      }
    }
  }

  // With at least one Close call, once no sender or closer can step, whatever the consumer does,
  // every call has returned, every sender is done, and the channel is closed.
  lemma CloseReturns(room: nat, senders: nat, closers: nat, acts: seq<Action>, s: State)
    requires closers > 0 && Run(Start(room, senders, closers), acts, s)
    requires forall a :: Enabled(s, a) ==> a.Consume?
    ensures s.channelClosed && s.doneClosed && |s.closers| == closers && |s.senders| == senders
    ensures forall j :: 0 <= j < closers ==> s.closers[j].CloserReturned?
    ensures forall i :: 0 <= i < senders ==> s.senders[i].SenderGone?
  {
    StartInv(room, senders, closers);
    RunKeeps(Start(room, senders, closers), acts, s);
    forall j | 0 <= j < closers ensures s.closers[j].CloserReturned? {
      if !s.closers[j].CloserReturned? {
        var a := ClosersProgress(s, j);
      }
    }
    SumZero(IsClosing, s.closers);
    assert s.closers[0].CloserReturned?;
    if s.mu.BySender? {
      assert Enabled(s, Sender(s.mu.i));
    }
    forall i | 0 <= i < senders ensures s.senders[i].SenderGone? {
      if InFlight(s.senders[i]) {
        SenderCounted(s, i);
      }
      assert !Enabled(s, Sender(i));
    }
  }
}
