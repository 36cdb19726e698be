/**
 The results of a custom detector: FromData starts a goroutine for each combination of matches that it
 does not exclude, each sends at most one result on a channel that nobody receives from until all of
 them are done.

 What becomes of a combination is data. A step is one action of one goroutine; a send on the closed
 channel and a second close set `crashed`.
 */
module ResultChannel {
  import opened Sums
  import opened MatchProducts

  // Excluded in the loop; or createResults comes to its send, or returns before it.
  datatype Fate = Excluded | Sends | Fails

  datatype SenderPc = Working(sends: bool) | AtSend | Done(sent: bool)

  datatype MainPc = Looping(k: nat) | Waiting | Closing | Draining | Returned

  // `cancelled`: the context is done, so that a sender may give up at its send.
  datatype State = State(
    fates: seq<Fate>, cancelled: bool,
    main: MainPc, senders: seq<SenderPc>,
    channel: nat, closed: bool, crashed: bool,
    results: nat)

  datatype Action = Main | Sender(i: nat) | GivesUp(i: nat)

  function Start(fates: seq<Fate>, cancelled: bool): State {
    State(fates, cancelled, Looping(0), [], 0, false, false, 0)
  }

  predicate AllDone(senders: seq<SenderPc>) { forall p :: p in senders ==> p.Done? }

  predicate Enabled(s: State, a: Action) {
    !s.crashed &&
    match a
    case Main => (match s.main case Waiting => AllDone(s.senders) case Returned => false case _ => true)
    case Sender(i) =>
      i < |s.senders| && (match s.senders[i]
                          case Working(_) => true
                          case AtSend => s.channel < MAX_TOTAL_MATCHES || s.closed
                          case Done(_) => false)
    case GivesUp(i) => i < |s.senders| && s.senders[i].AtSend? && s.cancelled
  }

  function StepMain(s: State): State
    requires Enabled(s, Main)
  {
    match s.main
    case Looping(k) =>
      if k >= |s.fates| then s.(main := Waiting)
      else if s.fates[k].Excluded? then s.(main := Looping(k + 1))
      else s.(main := Looping(k + 1), senders := s.senders + [Working(s.fates[k].Sends?)])
    case Waiting => s.(main := Closing)
    case Closing => if s.closed then s.(crashed := true) else s.(main := Draining, closed := true)
    case Draining =>
      if s.channel == 0 then s.(main := Returned) else s.(channel := s.channel - 1, results := s.results + 1)
  }

  function Next(s: State, a: Action): State
    requires Enabled(s, a)
  {
    match a
    case Main => StepMain(s)
    case Sender(i) =>
      (match s.senders[i]
       case Working(sends) => s.(senders := s.senders[i := if sends then AtSend else Done(false)])
       case AtSend =>
         if s.closed then s.(crashed := true)
         else s.(senders := s.senders[i := Done(true)], channel := s.channel + 1))
    case GivesUp(i) => s.(senders := s.senders[i := Done(false)])
  }

  // ---------------------------------------------------------------- invariant

  ghost function One(b: bool): nat { if b then 1 else 0 }

  ghost function HasSent(p: SenderPc): nat { One(p.Done? && p.sent) }

  // Has sent, or will, unless it gives up.
  ghost function ToSend(p: SenderPc): nat { One(p.AtSend? || (p.Working? && p.sends) || (p.Done? && p.sent)) }

  ghost function Wanted(f: Fate): nat { One(f.Sends?) }

  ghost function Seen(s: State): nat { if s.main.Looping? then s.main.k else |s.fates| }

  ghost predicate Inv(s: State) {
    && !s.crashed
    && Seen(s) <= |s.fates| && |s.senders| <= Seen(s)
    && s.channel + s.results == Sum(HasSent, s.senders)
    && (s.closed <==> s.main.Draining? || s.main.Returned?)
    && (s.results > 0 ==> s.closed)
    && (s.main.Closing? || s.closed ==> AllDone(s.senders))
    && (s.main.Returned? ==> s.channel == 0)
    && (!s.cancelled ==> Sum(ToSend, s.senders) == Sum(Wanted, s.fates[..Seen(s)]))
  }

  lemma {:induction false} SentAtMost(senders: seq<SenderPc>, i: nat)
    requires i < |senders| && HasSent(senders[i]) == 0
    ensures Sum(HasSent, senders) < |senders|
  {
    SumUpdate(HasSent, senders, i, Done(true));
    SumBelow(senders[i := Done(true)]);
  }

  lemma {:induction false} SumBelow(senders: seq<SenderPc>)
    ensures Sum(HasSent, senders) <= |senders|
  {
    if senders != [] { SumBelow(senders[1..]); }
  }

  /** A sender at its send finds room: fewer than |fates| others have sent. */
  lemma SendersNeverWait(s: State, i: nat)
    requires Inv(s) && |s.fates| <= MAX_TOTAL_MATCHES && i < |s.senders| && s.senders[i].AtSend?
    ensures s.channel < MAX_TOTAL_MATCHES && !s.closed && Enabled(s, Sender(i))
  {
    SentAtMost(s.senders, i);
    assert s.senders[i] in s.senders;
  }

  lemma NoCrash(s: State, a: Action)
    requires Enabled(s, a) && Inv(s)
    ensures !Next(s, a).crashed
  {
    if a.Sender? { assert s.senders[a.i] in s.senders; }
  }

  lemma MainKeeps(s: State)
    requires Enabled(s, Main) && Inv(s)
    ensures Inv(StepMain(s))
  {
    if s.main.Looping? && s.main.k < |s.fates| {
      var k := s.main.k;
      assert s.fates[..k + 1] == s.fates[..k] + [s.fates[k]];
      SumPush(Wanted, s.fates[..k], s.fates[k]);
      var p := Working(s.fates[k].Sends?);
      SumPush(HasSent, s.senders, p);
      SumPush(ToSend, s.senders, p);
    } else if s.main.Looping? {
      assert s.fates[..|s.fates|] == s.fates;
    }
  }

  lemma SenderKeeps(s: State, a: Action)
    requires Enabled(s, a) && Inv(s) && !a.Main?
    ensures Inv(Next(s, a))
  {
    var i, t := a.i, Next(s, a);
    NoCrash(s, a);
    assert s.senders[i] in s.senders;
    SumUpdate(HasSent, s.senders, i, t.senders[i]);
    SumUpdate(ToSend, s.senders, i, t.senders[i]);
  }

  lemma StepKeepsInv(s: State, a: Action)
    requires Enabled(s, a) && Inv(s)
    ensures Inv(Next(s, a)) && Next(s, a).fates == s.fates && Next(s, a).cancelled == s.cancelled
  {
    if a.Main? { MainKeeps(s); } else { SenderKeeps(s, a); }
  }

  // ---------------------------------------------------------------- runs

  ghost function Left(p: SenderPc): nat { match p case Working(_) => 2 case AtSend => 1 case Done(_) => 0 }

  // Every step uses up some of this: a combination still to come can take a step of the loop, two of its
  // sender and one to receive its result.
  ghost function Measure(s: State): int {
    Sum(Left, s.senders) + 2 * (if s.main.Draining? then s.channel else if s.main.Returned? then 0 else |s.senders|) +
    match s.main
    case Looping(k) => 5 * (|s.fates| - k) + 4
    case Waiting => 3
    case Closing => 2
    case Draining => 1
    case Returned => 0
  }

  lemma StepDecreases(s: State, a: Action)
    requires Enabled(s, a) && Inv(s)
    ensures Measure(Next(s, a)) < Measure(s)
  {
    var t := Next(s, a);
    NoCrash(s, a);
    if a.Main? {
      if s.main.Looping? && s.main.k < |s.fates| { SumPush(Left, s.senders, Working(s.fates[s.main.k].Sends?)); }
      if s.main.Closing? { SumBelow(s.senders); }
    } else {
      assert s.senders[a.i] in s.senders;
      SumUpdate(Left, s.senders, a.i, t.senders[a.i]);
    }
  }

  ghost predicate Run(s: State, acts: seq<Action>, t: State)
    decreases |acts|
  {
    if acts == [] then s == t else Enabled(s, acts[0]) && Run(Next(s, acts[0]), acts[1..], t)
  }

  lemma MeasureNat(s: State)
    requires Inv(s)
    ensures Measure(s) >= 0
  {
  }

  lemma {:induction false} RunKeeps(s: State, acts: seq<Action>, t: State)
    requires Run(s, acts, t) && Inv(s)
    ensures Inv(t) && t.fates == s.fates && t.cancelled == s.cancelled && |acts| + Measure(t) <= Measure(s)
    decreases |acts|
  {
    if acts != [] {
      StepKeepsInv(s, acts[0]);
      StepDecreases(s, acts[0]);
      RunKeeps(Next(s, acts[0]), acts[1..], t);
    }
  }

  lemma Progress(s: State) returns (a: Action)
    requires Inv(s) && |s.fates| <= MAX_TOTAL_MATCHES && !s.main.Returned?
    ensures Enabled(s, a)
  {
    a := Main;
    if s.main.Waiting? && !AllDone(s.senders) {
      var i :| 0 <= i < |s.senders| && !s.senders[i].Done?;
      a := Sender(i);
      if s.senders[i].AtSend? { SendersNeverWait(s, i); }
    }
  }

  lemma AllSent(s: State)
    requires Inv(s) && s.main.Returned?
    ensures !s.cancelled ==> s.results == Sum(Wanted, s.fates)
  {
    forall i | 0 <= i < |s.senders| ensures HasSent(s.senders[i]) == ToSend(s.senders[i]) {
      assert s.senders[i] in s.senders;
    }
    SumEqual(HasSent, ToSend, s.senders);
    assert s.fates[..|s.fates|] == s.fates;
  }

  /** In every interleaving of FromData with the goroutines for the combinations of matches of the given
      numbers: nothing is sent on the closed channel, a sender at its send always finds room, and the run
      is bounded. A run that cannot go on has returned from FromData, and then, unless the context was
      cancelled, with one result for each combination that comes to its send. */
  lemma EveryRunReturns(ls: seq<nat>, fates: seq<Fate>, cancelled: bool, acts: seq<Action>, s: State)
    requires |fates| == Min(Product(ls), MAX_TOTAL_MATCHES) && Run(Start(fates, cancelled), acts, s)
    ensures !s.crashed && |acts| <= 5 * |fates| + 4
    ensures forall i :: 0 <= i < |s.senders| && s.senders[i].AtSend? ==> s.channel < MAX_TOTAL_MATCHES && !s.closed
    ensures (forall a :: !Enabled(s, a)) ==> s.main.Returned?
    ensures s.main.Returned? ==> AllDone(s.senders) && (!cancelled ==> s.results == Sum(Wanted, fates))
  {
    assert fates[..0] == [];
    RunKeeps(Start(fates, cancelled), acts, s);
    MeasureNat(s);
    forall i | 0 <= i < |s.senders| && s.senders[i].AtSend? ensures s.channel < MAX_TOTAL_MATCHES && !s.closed {
      SendersNeverWait(s, i);
    }
    if s.main.Returned? { AllSent(s); } else { var a := Progress(s); }
  }
}
