/** The critical error of a context (nnpiInfContext): recorded by the thread that
    handles the card's events, taken away and put back by threads that query or
    clear the card's errors. */
module CriticalErrors {
  import opened Options

  /** An event code. */
  type Code = x: int | 0 <= x < 128

  const ABORT_REQUEST: Code := 26
  const CONTEXT_FATAL_START: Code := 96
  const EXEC_ERROR: Code := 104
  const CARD_FATAL_START: Code := 112
  const CARD_FATAL_DRV_START: Code := 120
  const CHANNEL_KILLED: Code := 123

  predicate CardFatal(error: Option<Code>) {
    error.Some? && error.value >= CARD_FATAL_DRV_START
  }

  // ----- The sections under the context's mutex -----

  /** Recording an event. Only an abort request replaces an error. */
  function Record(error: Option<Code>, code: Code): Option<Code> {
    if code >= CARD_FATAL_DRV_START then if error.None? then Some(code) else error
    else if code >= CONTEXT_FATAL_START || code == ABORT_REQUEST then
      if error.None? || code == ABORT_REQUEST then Some(code) else error
    else error
  }

  /** Where waitCriticalError reads the error, and takes an execution error away
      for the time of its query. */
  function Take(error: Option<Code>): Option<Code> {
    if error == Some(EXEC_ERROR) then None else error
  }

  function Restore(error: Option<Code>, saved: Code): Option<Code> {
    if error.None? then Some(saved) else error
  }

  datatype RecoverStart = NotBroken | DeviceError | Aborted | Started(saved: Code)

  function RecoverBegin(error: Option<Code>): (RecoverStart, Option<Code>) {
    if error.None? then (NotBroken, error)
    else if CardFatal(error) then (DeviceError, error)
    else if error.value == ABORT_REQUEST then (Aborted, error)
    else (Started(error.value), None)
  }

  function RecoverEnd(error: Option<Code>, saved: Code, ok: bool): Option<Code> {
    if ok then error else Restore(error, saved)
  }

  class CriticalError {
    var error: Option<Code>

    constructor ()
      ensures error == None
    {
      error := None;
    }

    /** The response handler's branches for fatal events; whether it exits. */
    method Report(code: Code) returns (exits: bool)
      modifies this
      ensures error == Record(old(error), code)
      ensures exits == (code >= 120)
      ensures error == if code == 26 || (code >= 96 && old(error) == None) then Some(code) else old(error)
    {
      if code >= CARD_FATAL_DRV_START {
        if error.None? {
          error := Some(code);
        }
        return true;
      }
      if code >= CARD_FATAL_START || CONTEXT_FATAL_START <= code < CARD_FATAL_START || code == ABORT_REQUEST {
        if error.None? || code == ABORT_REQUEST {
          error := Some(code);
        }
      }
      exits := false;
    }

    method Kill()
      modifies this
      ensures error == Some(123)
    {
      error := Some(CHANNEL_KILLED);
    }

    /** The first section of waitCriticalError; `query` if an execution error was
        taken away. */
    method TakeError() returns (found: Option<Code>, query: bool)
      modifies this
      ensures found == old(error) && error == Take(old(error))
      ensures query <==> old(error) == Some(104)
      ensures error == if query then None else old(error)
    {
      found := error;
      query := error == Some(EXEC_ERROR);
      if query {
        error := None;
      }
    }

    method PutBack(saved: Code)
      modifies this
      ensures error == Restore(old(error), saved)
      ensures error == if old(error) == None then Some(saved) else old(error)
    {
      if error.None? {
        error := Some(saved);
      }
    }

    method BeginRecover() returns (start: RecoverStart)
      modifies this
      ensures (start, error) == RecoverBegin(old(error))
      ensures start == NotBroken <==> old(error) == None
      ensures start == DeviceError <==> old(error).Some? && old(error).value >= 120
      ensures start == Aborted <==> old(error) == Some(26)
      ensures if start.Started? then old(error) == Some(start.saved) && error == None else error == old(error)
    {
      if error.None? {
        return NotBroken;
      } else if error.value >= CARD_FATAL_DRV_START {
        return DeviceError;
      } else if error.value == ABORT_REQUEST {
        return Aborted;
      }
      start := Started(error.value);
      error := None;
    }

    method EndRecover(saved: Code, ok: bool)
      modifies this
      ensures error == RecoverEnd(old(error), saved, ok)
      ensures error == if !ok && old(error) == None then Some(saved) else old(error)
    {
      if !ok && error.None? {
        error := Some(saved);
      }
    }
  }

  // ----- Interleavings -----

  datatype Thread = Idle | Querying(saved: Code) | Recovering(saved: Code)

  /** `exited`: the thread that handles the card's events has ended. */
  datatype State = State(error: Option<Code>, exited: bool, killed: bool, threads: seq<Thread>)

  /** `Killed(forked)`: the channel is killed, in a forked child without its
      handler thread. `WaitEnd(t, sent)`: the query is answered, or could not even
      be sent, in which case the saved error is dropped. */
  datatype Event =
    | Reported(code: Code)
    | Killed(forked: bool)
    | WaitBegin(t: nat)
    | WaitEnd(t: nat, sent: bool)
    | RecoverStarts(t: nat)
    | RecoverEnds(t: nat, ok: bool)

  predicate Enabled(s: State, e: Event) {
    match e
    case Reported(_) => !s.exited
    case Killed(forked) => !s.killed && (forked || !s.exited)
    case WaitBegin(t) => t < |s.threads| && s.threads[t].Idle?
    case WaitEnd(t, _) => t < |s.threads| && s.threads[t].Querying?
    case RecoverStarts(t) => t < |s.threads| && s.threads[t].Idle?
    case RecoverEnds(t, _) => t < |s.threads| && s.threads[t].Recovering?
  }

  function Step(s: State, e: Event): State
    requires Enabled(s, e)
  {
    match e
    case Reported(code) => s.(error := Record(s.error, code), exited := code >= CARD_FATAL_DRV_START)
    case Killed(_) => s.(error := Some(CHANNEL_KILLED), exited := true, killed := true)
    case WaitBegin(t) =>
      s.(error := Take(s.error),
         threads := if s.error == Some(EXEC_ERROR) then s.threads[t := Querying(EXEC_ERROR)] else s.threads)
    case WaitEnd(t, sent) =>
      s.(error := if sent then Restore(s.error, s.threads[t].saved) else s.error, threads := s.threads[t := Idle])
    case RecoverStarts(t) =>
      var (start, error) := RecoverBegin(s.error);
      s.(error := error, threads := if start.Started? then s.threads[t := Recovering(start.saved)] else s.threads)
    case RecoverEnds(t, ok) =>
      s.(error := RecoverEnd(s.error, s.threads[t].saved, ok), threads := s.threads[t := Idle])
  }

  /** The events can happen one after the other. */
  predicate Possible(s: State, es: seq<Event>)
    decreases |es|
  {
    es == [] || (Enabled(s, es[0]) && Possible(Step(s, es[0]), es[1..]))
  }

  function Run(s: State, es: seq<Event>): State
    requires Possible(s, es)
    decreases |es|
  {
    if es == [] then s else Run(Step(s, es[0]), es[1..])
  }

  function Start(n: nat): State {
    State(None, false, false, seq(n, _ => Idle))
  }

  // Reachable states satisfy this; the handler having exited is what keeps an
  // abort request from replacing a card-fatal error.
  ghost predicate Inv(s: State) {
    && (CardFatal(s.error) ==> s.exited)
    && (s.killed ==> CardFatal(s.error))
    && (forall t :: 0 <= t < |s.threads| ==>
          && (s.threads[t].Querying? ==> s.threads[t].saved == EXEC_ERROR)
          && (s.threads[t].Recovering? ==> CONTEXT_FATAL_START <= s.threads[t].saved < CARD_FATAL_DRV_START))
    && (s.error.Some? ==> s.error.value == ABORT_REQUEST || s.error.value >= CONTEXT_FATAL_START)
  }

  lemma StepKeepsInv(s: State, e: Event)
    requires Inv(s) && Enabled(s, e)
    ensures Inv(Step(s, e))
    ensures CardFatal(s.error) ==> CardFatal(Step(s, e).error)
  {
  }

  lemma {:induction false} RunKeepsInv(s: State, es: seq<Event>)
    requires Inv(s) && Possible(s, es)
    ensures Inv(Run(s, es))
    ensures CardFatal(s.error) ==> CardFatal(Run(s, es).error)
    decreases |es|
  {
    if es != [] {
      StepKeepsInv(s, es[0]);
      RunKeepsInv(Step(s, es[0]), es[1..]);
    }
  }

  lemma {:induction false} RunConcat(s: State, a: seq<Event>, b: seq<Event>)
    requires Possible(s, a + b)
    ensures Possible(s, a) && Possible(Run(s, a), b) && Run(s, a + b) == Run(Run(s, a), b)
    decreases |a|
  {
    if a == [] {
      assert a + b == b;
    } else {
      assert (a + b)[1..] == a[1..] + b;
      RunConcat(Step(s, a[0]), a[1..], b);
    }
  }

  /** Once a context is card-fatal it stays so, whatever else happens, and can no
      longer be recovered. */
  lemma CardFatalIsAbsorbing(n: nat, before: seq<Event>, after: seq<Event>)
    requires Possible(Start(n), before + after)
    ensures Possible(Start(n), before)
    ensures CardFatal(Run(Start(n), before).error) ==>
      && CardFatal(Run(Start(n), before + after).error)
      && RecoverBegin(Run(Start(n), before + after).error).0 == DeviceError
  {
    RunConcat(Start(n), before, after);
    RunKeepsInv(Start(n), before);
    RunKeepsInv(Run(Start(n), before), after);
  }

  /** A card-fatal event of the driver makes the context card-fatal exactly if no
      other error is pending; either way it is the last event handled. */
  lemma FatalEventIff(n: nat, es: seq<Event>, code: Code)
    requires Possible(Start(n), es) && Enabled(Run(Start(n), es), Reported(code)) && code >= CARD_FATAL_DRV_START
    ensures CardFatal(Step(Run(Start(n), es), Reported(code)).error) <==> Run(Start(n), es).error.None?
    ensures forall c :: !Enabled(Step(Run(Start(n), es), Reported(code)), Reported(c))
  {
    RunKeepsInv(Start(n), es);
  }

  /** Such an event: it finds an execution error pending, and the context never
      becomes card-fatal. */
  lemma FatalEventIsMissed()
    ensures var es := [Reported(EXEC_ERROR), Reported(CARD_FATAL_DRV_START)];
            Possible(Start(1), es) && Run(Start(1), es).error == Some(EXEC_ERROR) && Run(Start(1), es).exited
  {
    var one := Step(Start(1), Reported(EXEC_ERROR));
    RunTwo(Start(1), Reported(EXEC_ERROR), Reported(CARD_FATAL_DRV_START));
    assert one.error == Some(EXEC_ERROR) && !one.exited;
  }

  lemma RunTwo(s: State, a: Event, b: Event)
    requires Enabled(s, a) && Enabled(Step(s, a), b)
    ensures Possible(s, [a, b]) && Run(s, [a, b]) == Step(Step(s, a), b)
  {
    assert [a, b][1..] == [b] && [b][1..] == [];
    assert Run(Step(s, a), [b]) == Step(Step(s, a), b);
  }

  /** An abort request replaces whatever is pending, and then the context can be
      neither recovered nor broken by another error: only the end of the channel
      changes that. */
  lemma {:induction false} AbortStays(s: State, es: seq<Event>)
    requires Possible(s, es) && s.error == Some(ABORT_REQUEST) && forall e :: e in es ==> !e.Killed?
    ensures Run(s, es).error == Some(ABORT_REQUEST) && RecoverBegin(Run(s, es).error).0 == Aborted
    decreases |es|
  {
    if es != [] {
      AbortStays(Step(s, es[0]), es[1..]);
    }
  }

  lemma AbortIsTaken(s: State, es: seq<Event>)
    requires Enabled(s, Reported(ABORT_REQUEST)) && Possible(Step(s, Reported(ABORT_REQUEST)), es)
    requires forall e :: e in es ==> !e.Killed?
    ensures Run(Step(s, Reported(ABORT_REQUEST)), es).error == Some(ABORT_REQUEST)
  {
    AbortStays(Step(s, Reported(ABORT_REQUEST)), es);
  }

  // ----- Errors are not lost -----

  /** A thread other than `t` holds a saved error. */
  ghost predicate HeldBesides(s: State, t: int) {
    exists u :: 0 <= u < |s.threads| && u != t && !s.threads[u].Idle?
  }

  /** The context is broken, or a thread is about to put an error back. */
  ghost predicate Pending(s: State) {
    s.error.Some? || HeldBesides(s, -1)
  }

  ghost predicate Drops(s: State, e: Event) {
    match e
    case WaitEnd(t, sent) => !sent && s.error.None? && !HeldBesides(s, t)
    case RecoverEnds(t, ok) => ok && s.error.None? && !HeldBesides(s, t)
    case _ => false
  }

  /** A pending error goes away in exactly two ways: a recovery succeeds, or the
      query for an execution error cannot be sent. */
  lemma PendingLostIff(s: State, e: Event)
    requires Enabled(s, e) && Pending(s)
    ensures !Pending(Step(s, e)) <==> Drops(s, e)
  {
    var s' := Step(s, e);
    if Drops(s, e) {
      assert forall u :: 0 <= u < |s'.threads| && u != e.t ==> s'.threads[u] == s.threads[u];
    } else if s'.error.None? {
      if u: int :| 0 <= u < |s.threads| && !s.threads[u].Idle? && ((e.WaitEnd? || e.RecoverEnds?) ==> u != e.t) {
        assert !s'.threads[u].Idle?;
      } else {
        assert (e.WaitBegin? || e.RecoverStarts?) && !s'.threads[e.t].Idle?;
      }
    }
  }

  /** Such a loss: an execution error is taken by a thread that cannot send its
      query, and the context counts as sound again. */
  lemma ErrorIsDropped()
    ensures var s := Step(Start(1), Reported(EXEC_ERROR));
            && Enabled(Start(1), Reported(EXEC_ERROR)) && Pending(s)
            && Possible(s, [WaitBegin(0), WaitEnd(0, false)])
            && !Pending(Run(s, [WaitBegin(0), WaitEnd(0, false)]))
  {
    var s := Step(Start(1), Reported(EXEC_ERROR));
    RunTwo(s, WaitBegin(0), WaitEnd(0, false));
    PendingLostIff(Step(s, WaitBegin(0)), WaitEnd(0, false));
    assert !Step(s, WaitBegin(0)).threads[0].Idle?;
  }

  ghost predicate NothingDropped(s: State, es: seq<Event>)
    requires Possible(s, es)
    decreases |es|
  {
    es == [] || (!Drops(s, es[0]) && NothingDropped(Step(s, es[0]), es[1..]))
  }

  /** Over any run without those two events an error stays: when no query is in
      progress any more, the context is broken. */
  lemma {:induction false} ErrorsAreKept(s: State, es: seq<Event>)
    requires Possible(s, es) && NothingDropped(s, es) && Pending(s)
    ensures Pending(Run(s, es))
    ensures (forall t :: 0 <= t < |Run(s, es).threads| ==> Run(s, es).threads[t].Idle?) ==> Run(s, es).error.Some?
    decreases |es|
  {
    if es != [] {
      PendingLostIff(s, es[0]);
      ErrorsAreKept(Step(s, es[0]), es[1..]);
    }
  }

  /** Putting a saved error back never replaces one that has come in since, nor
      does any later event but an abort request or the channel's end: the pending
      error stays until some thread takes it. */
  lemma {:induction false} RestoreKeepsNewer(s: State, es: seq<Event>)
    requires Possible(s, es) && s.error.Some?
    requires forall e :: e in es ==> e.WaitEnd? || e.RecoverEnds? || (e.Reported? && e.code != ABORT_REQUEST)
    ensures Run(s, es).error == s.error
    decreases |es|
  {
    if es != [] {
      RestoreKeepsNewer(Step(s, es[0]), es[1..]);
    }
  }
}
