/** The signal of the peer-event log (subscription.go): any number of callers of NextPeerEvent share a log
  * and a one-slot channel. A caller holds the lock while it looks at the log, and not while it waits.
  */
module Wakeups {

  import opened MessageCache
  import opened PeerEvents

  datatype Caller = Caller(id: int)

  /** A caller is about to look at the log, or it waits for a signal. */
  datatype State = State(log: Log, signalled: bool, checking: set<Caller>, waiting: set<Caller>)

  datatype Step =
    | Called(c: Caller)
    | Notified(evt: PeerEvent)   // sendNotification
    | Took(c: Caller, p: PeerId)    // an event is found: the call returns
    | FoundNone(c: Caller)          // the log is empty: the caller goes to wait
    | Woken(c: Caller)              // the signal is received: the caller looks again
    | GaveUp(c: Caller)             // the context is done

  ghost predicate Next(s: State, e: Step, s': State) {
    match e
    case Called(c) => c !in s.checking && c !in s.waiting && s' == s.(checking := s.checking + {c})
    case Notified(evt) => s' == s.(log := Added(s.log, evt), signalled := s.signalled || evt.peer !in s.log)
    case Took(c, p) =>
      c in s.checking && p in s.log
      && s' == s.(log := s.log - {p}, signalled := s.signalled || s.log - {p} != map[], checking := s.checking - {c})
    case FoundNone(c) =>
      c in s.checking && s.log == map[] && s' == s.(checking := s.checking - {c}, waiting := s.waiting + {c})
    case Woken(c) =>
      c in s.waiting && s.signalled
      && s' == s.(signalled := false, checking := s.checking + {c}, waiting := s.waiting - {c})
    case GaveUp(c) => c in s.waiting && s' == s.(waiting := s.waiting - {c})
  }

  /** The log a subscription starts with was filled without a signal. */
  predicate Begins(s: State) {
    !s.signalled && s.checking == {} && s.waiting == {}
  }

  ghost predicate IsRun(states: seq<State>, steps: seq<Step>) {
    && |states| == |steps| + 1 && Begins(states[0])
    && forall i | 0 <= i < |steps| :: Next(states[i], steps[i], states[i + 1])
  }

  /** Whoever waits while there are events will be woken: by a signal, or by a caller that looks first. */
  predicate NoneStranded(s: State) {
    s.waiting != {} && s.log != map[] ==> s.signalled || s.checking != {}
  }

  predicate Apart(s: State) {
    s.checking !! s.waiting
  }

  lemma {:induction false} NextKeeps(s: State, e: Step, s': State)
    requires NoneStranded(s) && Apart(s) && Next(s, e, s')
    ensures NoneStranded(s') && Apart(s')
  {
    match e
    case Notified(evt) =>
      if evt.peer in s.log && s.log[evt.peer] == evt.kind {
        assert s'.log == s.log;
      }
    case Called(c) => assert c in s'.checking;
    case Woken(c) => assert c in s'.checking;
    case _ =>
  }

  lemma {:induction false} NoLostWakeups(states: seq<State>, steps: seq<Step>, i: nat)
    requires IsRun(states, steps) && i < |states|
    ensures NoneStranded(states[i]) && Apart(states[i])
  {
    hide Next;
    if i > 0 {
      NoLostWakeups(states, steps, i - 1);
      NextKeeps(states[i - 1], steps[i - 1], states[i]);
    }
  }

  // ----- callers make progress -----

  predicate IsCallerStep(e: Step) {
    e.Took? || e.FoundNone? || e.Woken?
  }

  /** Nothing is left for a caller to do. */
  ghost predicate Quiet(s: State) {
    forall e, s' :: Next(s, e, s') ==> !IsCallerStep(e)
  }

  function Remaining(s: State): nat {
    2 * |s.log.Keys| + (if s.signalled then 2 else 0) + |s.checking|
  }

  /** The steps of the callers alone cannot go on for ever: taking an event shortens the log, waking uses
    * the signal up, and finding nothing turns a caller that looks into one that waits. */
  lemma {:induction false} CallerStepsEnd(s: State, e: Step, s': State)
    requires Apart(s) && Next(s, e, s') && IsCallerStep(e)
    ensures Remaining(s') < Remaining(s)
  {
    match e
    case Took(c, p) => assert s'.log.Keys == s.log.Keys - {p};
    case FoundNone(c) =>
    case Woken(c) =>
  }

  lemma {:induction false} CallerRunsEnd(states: seq<State>, steps: seq<Step>, i: nat, j: nat)
    requires IsRun(states, steps) && i <= j < |states| && forall k | i <= k < j :: IsCallerStep(steps[k])
    ensures j - i <= Remaining(states[i]) - Remaining(states[j])
    decreases j
  {
    hide Remaining, Next;
    if i < j {
      CallerRunsEnd(states, steps, i, j - 1);
      NoLostWakeups(states, steps, j - 1);
      CallerStepsEnd(states[j - 1], steps[j - 1], states[j]);
    }
  }

  /** When they have come to an end, either every event has been taken or no one is left to take one. */
  lemma {:induction false} QuietMeansServed(states: seq<State>, steps: seq<Step>, i: nat)
    requires IsRun(states, steps) && i < |states| && Quiet(states[i])
    ensures states[i].log == map[] || (states[i].checking == {} && states[i].waiting == {})
  {
    NoLostWakeups(states, steps, i);
    var s := states[i];
    if s.log != map[] && s.checking != {} {
      var c :| c in s.checking;
      assert s.log.Keys != {};
      var p :| p in s.log;
      var s' := s.(log := s.log - {p}, signalled := s.signalled || s.log - {p} != map[], checking := s.checking - {c});
      assert Next(s, Took(c, p), s');
    } else if s.log != map[] && s.waiting != {} {
      var c :| c in s.waiting;
      var s' := s.(signalled := false, checking := s.checking + {c}, waiting := s.waiting - {c});
      assert Next(s, Woken(c), s');
    }
  }
}
