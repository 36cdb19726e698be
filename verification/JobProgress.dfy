/**
 Why a job ended: the cause protocol of CancelRun, Finish and Err.

 Each event is atomic where it matters: the cause is set through a sync.Once and a context keeps the
 first cause it is cancelled with.
 */
module JobProgress {
  import opened Options

  const CANCELED := "context canceled"
  const ERR_JOB_DONE := "job done"

  // CancelRun with a cause or nil, Finish, or finishWithCause for a job that is turned away.
  datatype Event = CancelRun(given: Option<string>) | Finish | FinishWith(cause: string)

  predicate Finishes(e: Event) { e.Finish? || e.FinishWith? }

  // What an event would report.
  function CauseOf(e: Event): string {
    match e
    case CancelRun(cause) => if cause.Some? then cause.value else "context canceled"
    case Finish => "job done"
    case FinishWith(cause) => cause
  }

  class JobProgress {
    const cancellable: bool             // there is a jobCancel
    var cancelCause: Option<string>
    var ctxCause: Option<string>        // of ctx, the job's lifetime
    var runCause: Option<string>        // of the run's context, cancelled through jobCancel

    constructor (cancellable: bool)
      ensures this.cancellable == cancellable && cancelCause == None && ctxCause == None && runCause == None
    {
      this.cancellable := cancellable;
      cancelCause, ctxCause, runCause := None, None, None;
    }

    method Cancel(cause: Option<string>)
      modifies this
      ensures ctxCause == old(ctxCause)
      ensures !cancellable ==> cancelCause == old(cancelCause) && runCause == old(runCause)
      ensures cancellable ==> cancelCause == if old(cancelCause).Some? then old(cancelCause) else Some(CauseOf(CancelRun(cause)))
      ensures cancellable ==> runCause == if old(runCause).Some? then old(runCause) else cancelCause
    {
      if !cancellable { return; }
      var given := if cause.None? then CANCELED else cause.value;
      if cancelCause.None? { cancelCause := Some(given); }
      if runCause.None? { runCause := cancelCause; }
    }

    method End(cause: string)
      modifies this
      ensures cancelCause == (if old(cancelCause).Some? then old(cancelCause) else Some(cause))
      ensures runCause == old(runCause)
      ensures ctxCause == if old(ctxCause).Some? then old(ctxCause) else cancelCause
    {
      if cancelCause.None? { cancelCause := Some(cause); }
      if ctxCause.None? { ctxCause := cancelCause; }
    }

    // JobProgress.Err
    function Err(): Option<string>
      reads this
    {
      ctxCause
    }

    /** After any events Err is nil until the job finishes, and from then on the first cause given: that of
        the first CancelRun before the end, or else of the end itself. */
    method Run(events: seq<Event>)
      requires cancelCause == None && ctxCause == None
      modifies this
      ensures Err() == Outcome(cancellable, events)
    {
      for i := 0 to |events|
        invariant cancelCause == Cause(cancellable, events[..i])
        invariant ctxCause == Outcome(cancellable, events[..i])
      {
        assert events[..i + 1][..i] == events[..i];
        match events[i]
        case CancelRun(cause) => Cancel(cause);
        case Finish => End(ERR_JOB_DONE);
        case FinishWith(cause) => End(cause);
      }
      assert events[..|events|] == events;
    }
  }

  // The event gives a cause.
  predicate Gives(cancellable: bool, e: Event) { Finishes(e) || cancellable }

  // The first cause given.
  function Cause(cancellable: bool, events: seq<Event>): Option<string> {
    if events == [] then None
    else
      var before := Cause(cancellable, events[..|events| - 1]);
      if before.None? && Gives(cancellable, events[|events| - 1]) then Some(CauseOf(events[|events| - 1])) else before
  }

  // The first cause given, once the job has finished.
  function Outcome(cancellable: bool, events: seq<Event>): Option<string> {
    if events == [] then None
    else
      var before := Outcome(cancellable, events[..|events| - 1]);
      if before.None? && Finishes(events[|events| - 1]) then Cause(cancellable, events) else before
  }

  predicate FirstGiving(cancellable: bool, events: seq<Event>, k: nat)
    requires k < |events|
  {
    Gives(cancellable, events[k]) && forall j :: 0 <= j < k ==> !Gives(cancellable, events[j])
  }

  lemma {:induction false} CauseIsFirst(cancellable: bool, events: seq<Event>)
    ensures match Cause(cancellable, events)
      case None => forall k :: 0 <= k < |events| ==> !Gives(cancellable, events[k])
      case Some(c) => exists k :: 0 <= k < |events| && FirstGiving(cancellable, events, k) && c == CauseOf(events[k])
  {
    if events != [] {
      var last := |events| - 1;
      CauseIsFirst(cancellable, events[..last]);
      assert forall k :: 0 <= k < last ==> events[..last][k] == events[k];
      if Cause(cancellable, events[..last]) == None && Gives(cancellable, events[last]) {
        assert FirstGiving(cancellable, events, last);
      } else if Cause(cancellable, events[..last]).Some? {
        var k :| 0 <= k < last && FirstGiving(cancellable, events[..last], k) &&
          Cause(cancellable, events[..last]).value == CauseOf(events[..last][k]);
        assert FirstGiving(cancellable, events, k);
      }
    }
  }

  lemma {:induction false} OutcomeIff(cancellable: bool, events: seq<Event>)
    ensures Outcome(cancellable, events) == None <==> forall k :: 0 <= k < |events| ==> !Finishes(events[k])
  {
    if events != [] {
      var last := |events| - 1;
      OutcomeIff(cancellable, events[..last]);
      CauseIsFirst(cancellable, events);
      assert forall k :: 0 <= k < last ==> events[..last][k] == events[k];
      if Finishes(events[last]) { assert Gives(cancellable, events[last]); }
      hide Cause, CauseOf;
    }
  }

  /** The outcome is nil exactly while nothing has finished the job, and does not change after that. */
  lemma {:induction false} OutcomeIsFinal(cancellable: bool, events: seq<Event>, more: seq<Event>)
    ensures Outcome(cancellable, events) == None <==> forall k :: 0 <= k < |events| ==> !Finishes(events[k])
    ensures Outcome(cancellable, events).Some? ==> Outcome(cancellable, events + more) == Outcome(cancellable, events)
    decreases |more|
  {
    OutcomeIff(cancellable, events);
    if more != [] {
      hide Cause, CauseOf;
      assert (events + more)[..|events + more| - 1] == events + more[..|more| - 1];
      OutcomeIsFinal(cancellable, events, more[..|more| - 1]);
    } else {
      assert events + more == events;
    }
  }
}
