/**
 * Waiting for a transaction signature to be confirmed. A timer, a websocket callback and any number of
 * overlapping REST polls share `done` and `status` and race to settle one promise.
 */
module Confirmations {
  import opened Wrappers

  /** An on-chain error, truthy by nature. */
  type TxError = string

  datatype SignatureStatus = SignatureStatus(slot: nat, confirmations: Option<nat>, err: Option<TxError>)

  /** `{timeout: true}`, the status built from a websocket error, or the error of a REST status. */
  datatype Rejection = TimedOut | StatusRejected(status: SignatureStatus) | ErrorRejected(err: TxError)

  datatype Outcome = Resolved(status: SignatureStatus) | Rejected(reason: Rejection)

  datatype Event =
    | TimerFires
    | SocketCalls(err: Option<TxError>, slot: nat)
    | LoopIterates                                       // the polling loop wakes up
    | PollAnswers(answer: Option<SignatureStatus>)       // None: no response, or a null status in it
    | PollThrows

  datatype Wait = Wait(
    done: bool,
    status: Option<SignatureStatus>,
    settled: Option<Outcome>,
    armed: bool,        // the timer has not fired
    listening: bool,    // the signature subscription exists
    looping: bool,      // the polling loop has not been left
    inFlight: nat)      // REST requests without an answer

  /** `subscribes` is whether `onSignature` returned instead of throwing. */
  function Start(subscribes: bool): Wait {
    Wait(!subscribes, Some(SignatureStatus(0, Some(0), None)), None, true, subscribes, true, 0)
  }

  predicate Enabled(w: Wait, e: Event) {
    match e
    case TimerFires => w.armed
    case SocketCalls(_, _) => w.listening
    case LoopIterates => w.looping
    case PollAnswers(_) => w.inFlight > 0
    case PollThrows => w.inFlight > 0
  }

  /** A promise keeps its first outcome. */
  function Settle(w: Wait, o: Outcome): Wait {
    if w.settled.None? then w.(settled := Some(o)) else w
  }

  function Step(w: Wait, e: Event): Wait {
    if !Enabled(w, e) then w else
    match e
    case TimerFires =>
      var f := w.(armed := false);
      if w.done then f else Settle(f.(done := true), Rejected(TimedOut))
    case SocketCalls(err, slot) =>
      var s := SignatureStatus(slot, Some(0), err);
      Settle(w.(done := true, status := Some(s)), if err.Some? then Rejected(StatusRejected(s)) else Resolved(s))
    case LoopIterates =>
      if w.done then w.(looping := false) else w.(inFlight := w.inFlight + 1)
    case PollAnswers(answer) =>
      var a := w.(status := answer, inFlight := w.inFlight - 1);
      if w.done || answer.None? then a
      else if answer.value.err.Some? then Settle(a.(done := true), Rejected(ErrorRejected(answer.value.err.value)))
      else if answer.value.confirmations.None? || answer.value.confirmations == Some(0) then a
      else Settle(a.(done := true), Resolved(answer.value))
    case PollThrows => w.(inFlight := w.inFlight - 1)
  }

  function Run(subscribes: bool, events: seq<Event>): Wait
    decreases |events|
  {
    if events == [] then Start(subscribes)
    else Step(Run(subscribes, events[..|events| - 1]), events[|events| - 1])
  }

  /** Each event of the run is possible when it happens. */
  predicate Possible(subscribes: bool, events: seq<Event>)
    decreases |events|
  {
    events == [] ||
    (Possible(subscribes, events[..|events| - 1]) &&
     Enabled(Run(subscribes, events[..|events| - 1]), events[|events| - 1]))
  }

  // ---- the reference: the first deciding event ----

  /** What an event decides, looked at on its own: no shared variable enters. */
  function Decision(e: Event): Option<Outcome> {
    match e
    case TimerFires => Some(Rejected(TimedOut))
    case SocketCalls(Some(err), slot) => Some(Rejected(StatusRejected(SignatureStatus(slot, Some(0), Some(err)))))
    case SocketCalls(None, slot) => Some(Resolved(SignatureStatus(slot, Some(0), None)))
    case PollAnswers(Some(SignatureStatus(_, _, Some(err)))) => Some(Rejected(ErrorRejected(err)))
    case PollAnswers(Some(s)) => if s.confirmations.Some? && s.confirmations.value > 0 then Some(Resolved(s)) else None
    case _ => None
  }

  function FirstDecision(events: seq<Event>): Option<Outcome> {
    if events == [] then None
    else if Decision(events[0]).Some? then Decision(events[0])
    else FirstDecision(events[1..])
  }

  lemma {:induction false} FirstDecisionAppends(events: seq<Event>, e: Event)
    ensures FirstDecision(events + [e]) == if FirstDecision(events).Some? then FirstDecision(events) else Decision(e)
  {
    if events == [] {
      assert [e][1..] == [];
    } else {
      FirstDecisionAppends(events[1..], e);
      assert (events + [e])[1..] == events[1..] + [e];
    }
  }

  /** One event decides if nothing has been decided before it. */
  lemma StepDecides(w: Wait, e: Event)
    requires Enabled(w, e) && w.listening && (w.done <==> w.settled.Some?)
    ensures var r := Step(w, e);
      && r.settled == (if w.settled.Some? then w.settled else Decision(e))
      && (r.done <==> r.settled.Some?) && r.listening
      && (r.armed <==> w.armed && e != TimerFires)
  {
  }

  /**
   * For every order of events, the promise holds exactly what the first deciding event decided, and `done` is
   * set exactly when it is settled.
   */
  lemma {:induction false} FirstDecisionWins(events: seq<Event>)
    requires Possible(true, events)
    ensures var w := Run(true, events);
      && w.settled == FirstDecision(events)
      && (w.done <==> w.settled.Some?)
      && (TimerFires in events <==> !w.armed)
      && w.listening
    decreases |events|
  {
    if events != [] {
      var init, e := events[..|events| - 1], events[|events| - 1];
      FirstDecisionWins(init);
      FirstDecisionAppends(init, e);
      StepDecides(Run(true, init), e);
      assert events == init + [e];
    }
  }

  /** Settled once, settled for good: no later event changes the outcome. */
  lemma OutcomeIsFinal(events: seq<Event>, later: seq<Event>)
    requires Possible(true, events) && Possible(true, events + later) && Run(true, events).settled.Some?
    ensures Run(true, events + later).settled == Run(true, events).settled
  {
    FirstDecisionWins(events);
    FirstDecisionWins(events + later);
    DecisionIsStable(events, later);
  }

  lemma {:induction false} DecisionIsStable(events: seq<Event>, later: seq<Event>)
    requires FirstDecision(events).Some?
    ensures FirstDecision(events + later) == FirstDecision(events)
    decreases |later|
  {
    if later == [] {
      assert events + later == events;
    } else {
      DecisionIsStable(events, later[..|later| - 1]);
      FirstDecisionAppends(events + later[..|later| - 1], later[|later| - 1]);
      assert events + later == events + later[..|later| - 1] + [later[|later| - 1]];
    }
  }

  lemma {:induction false} DecidedWithoutError(events: seq<Event>)
    ensures FirstDecision(events).Some? && FirstDecision(events).value.Resolved? ==>
      FirstDecision(events).value.status.err.None?
  {
    if events != [] { DecidedWithoutError(events[1..]); }
  }

  /** What the caller can rely on when the wait has resolved: a status, and no error in it. */
  lemma {:induction false} ResolvedHasNoError(subscribes: bool, events: seq<Event>)
    requires Possible(subscribes, events) && Run(subscribes, events).settled.Some?
    ensures var outcome := Run(subscribes, events).settled.value;
      outcome.Resolved? ==> outcome.status.err.None?
  {
    if subscribes {
      FirstDecisionWins(events);
      DecidedWithoutError(events);
    } else {
      FailedSetupNeverSettles(events);
    }
  }

  /** A failed subscription sets `done` without settling: nothing that can still happen ever settles the wait. */
  lemma {:induction false} FailedSetupNeverSettles(events: seq<Event>)
    ensures var w := Run(false, events); w.settled.None? && w.done && !w.listening && w.inFlight == 0
    decreases |events|
  {
    if events != [] {
      FailedSetupNeverSettles(events[..|events| - 1]);
    }
  }

  /** Once the timer has fired the wait has settled, if and only if the subscription was set up. */
  lemma TimerSettlesIffSubscribed(subscribes: bool, events: seq<Event>)
    requires Possible(subscribes, events) && TimerFires in events
    ensures Run(subscribes, events).settled.Some? <==> subscribes
  {
    if subscribes {
      FirstDecisionWins(events);
      TimerDecides(events);
    } else {
      FailedSetupNeverSettles(events);
    }
  }

  lemma {:induction false} TimerDecides(events: seq<Event>)
    requires TimerFires in events
    ensures FirstDecision(events).Some?
  {
    if events[0] != TimerFires { TimerDecides(events[1..]); }
  }

  /** `status` alone says nothing about the outcome: after any settled run a late answer can put anything there. */
  lemma {:induction false} LateAnswerOverwritesStatus(events: seq<Event>, answer: Option<SignatureStatus>)
    requires Possible(true, events) && Run(true, events).settled.Some? && Run(true, events).inFlight > 0
    ensures var all := events + [PollAnswers(answer)];
      Possible(true, all) && Run(true, all).status == answer && Run(true, all).settled == Run(true, events).settled
  {
    FirstDecisionWins(events);
    var all := events + [PollAnswers(answer)];
    assert all[..|all| - 1] == events;
  }

  // ---- polling ----

  /** The requests the loop has sent: one for each of its turns, until something has been decided. */
  function Asked(events: seq<Event>): nat {
    if events == [] then 0
    else
      var init := events[..|events| - 1];
      Asked(init) + if events[|events| - 1].LoopIterates? && FirstDecision(init).None? then 1 else 0
  }

  function Turns(events: seq<Event>): nat {
    if events == [] then 0
    else Turns(events[..|events| - 1]) + if events[|events| - 1].LoopIterates? then 1 else 0
  }

  /** The requests that have been answered or have failed. */
  function Ended(events: seq<Event>): nat {
    if events == [] then 0
    else
      var e := events[|events| - 1];
      Ended(events[..|events| - 1]) + if e.PollAnswers? || e.PollThrows? then 1 else 0
  }

  /** Every request is in flight or has ended, once; the loop asks in each turn and is left in the first idle one. */
  lemma {:induction false} RequestsEndOnce(events: seq<Event>)
    requires Possible(true, events)
    ensures var w := Run(true, events);
      && w.inFlight + Ended(events) == Asked(events)
      && Turns(events) == Asked(events) + (if w.looping then 0 else 1)
      && (FirstDecision(events).None? ==> w.looping)
    decreases |events|
  {
    if events != [] {
      var init := events[..|events| - 1];
      RequestsEndOnce(init);
      FirstDecisionWins(init);
      FirstDecisionAppends(init, events[|events| - 1]);
      assert events == init + [events[|events| - 1]];
    }
  }

  lemma OneMore(events: seq<Event>, e: Event)
    requires Possible(true, events) && Enabled(Run(true, events), e)
    ensures Possible(true, events + [e]) && Run(true, events + [e]) == Step(Run(true, events), e)
    ensures FirstDecision(events + [e]) == if FirstDecision(events).Some? then FirstDecision(events) else Decision(e)
  {
    assert (events + [e])[..|events + [e]| - 1] == events;
    FirstDecisionAppends(events, e);
  }

  function Polls(n: nat): (events: seq<Event>)
    ensures |events| == n && forall e :: e in events ==> e == LoopIterates
  {
    seq(n, _ => LoopIterates)
  }

  lemma OneMorePoll(events: seq<Event>)
    requires Possible(true, events) && FirstDecision(events).None?
    ensures var all := events + [LoopIterates];
      Possible(true, all) && FirstDecision(all).None? && Run(true, all).inFlight == Run(true, events).inFlight + 1
  {
    RequestsEndOnce(events);
    FirstDecisionWins(events);
    OneMore(events, LoopIterates);
  }

  /** As long as nothing is decided the loop can always ask, without waiting for earlier answers. */
  lemma {:induction false} PollsOverlap(events: seq<Event>, n: nat)
    requires Possible(true, events) && FirstDecision(events).None?
    ensures var all := events + Polls(n);
      Possible(true, all) && FirstDecision(all).None? && Run(true, all).inFlight == Run(true, events).inFlight + n
  {
    if n == 0 {
      assert events + Polls(0) == events;
    } else {
      PollsOverlap(events, n - 1);
      OneMorePoll(events + Polls(n - 1));
      assert events + Polls(n) == events + Polls(n - 1) + [LoopIterates];
    }
  }

  /**
   * From every undecided run the wait can be decided by polling alone: after any positive number of further polls, any
   * answer is possible, and the promise is settled as that answer decides.
   */
  lemma PollingDecides(events: seq<Event>, n: nat, answer: Option<SignatureStatus>)
    requires Possible(true, events) && FirstDecision(events).None? && n > 0
    ensures var all := events + Polls(n) + [PollAnswers(answer)];
      && Possible(true, all) && Run(true, all).settled == Decision(PollAnswers(answer))
      && Run(true, all).inFlight == Run(true, events).inFlight + n - 1
  {
    var asked := events + Polls(n);
    PollsOverlap(events, n);
    FirstDecisionWins(asked);
    OneMore(asked, PollAnswers(answer));
    FirstDecisionWins(asked + [PollAnswers(answer)]);
  }

  /** What the last of the two kinds of callback that report a status has reported. */
  function LastReported(events: seq<Event>): Option<SignatureStatus> {
    if events == [] then Some(SignatureStatus(0, Some(0), None))
    else match events[|events| - 1]
      case SocketCalls(err, slot) => Some(SignatureStatus(slot, Some(0), err))
      case PollAnswers(answer) => answer
      case _ => LastReported(events[..|events| - 1])
  }

  /** `status` follows the last report, settled or not. */
  lemma {:induction false} StatusIsLastReported(events: seq<Event>)
    requires Possible(true, events)
    ensures Run(true, events).status == LastReported(events)
    decreases |events|
  {
    if events != [] { StatusIsLastReported(events[..|events| - 1]); }
  }

  // ---- the shared variables ----

  class Confirmation {
    var done: bool
    var status: Option<SignatureStatus>
    var settled: Option<Outcome>
    var armed: bool
    var listening: bool
    var looping: bool
    var inFlight: nat
    ghost var history: seq<Event>
    ghost const subscribes: bool

    ghost function View(): Wait
      reads this
    {
      Wait(done, status, settled, armed, listening, looping, inFlight)
    }

    ghost predicate Valid()
      reads this
    {
      Possible(subscribes, history) && View() == Run(subscribes, history)
    }

    constructor (subscribes: bool)
      ensures Valid() && history == [] && this.subscribes == subscribes
      ensures View() == Start(subscribes)
    {
      done, status, settled := false, Some(SignatureStatus(0, Some(0), None)), None;
      armed, listening, looping, inFlight, history := true, subscribes, true, 0, [];
      this.subscribes := subscribes;
      new;
      if !subscribes { done := true; }
    }

    /** `resolve` and `reject`. */
    method SettleWith(o: Outcome)
      modifies this`settled
      ensures settled == if old(settled).None? then Some(o) else old(settled)
    {
      if settled.None? { settled := Some(o); }
    }

    ghost method Record(e: Event, before: Wait)
      requires Possible(subscribes, history) && before == Run(subscribes, history)
      requires Enabled(before, e) && View() == Step(before, e)
      modifies this`history
      ensures Valid() && history == old(history) + [e]
    {
      history := history + [e];
      assert history[..|history| - 1] == old(history);
    }

    method OnTimer()
      requires Valid() && armed
      modifies this
      ensures Valid() && history == old(history) + [TimerFires] && View() == Step(old(View()), TimerFires)
    {
      armed := false;
      if !done {
        done := true;
        SettleWith(Rejected(TimedOut));
      }
      Record(TimerFires, old(View()));
    }

    method OnSocket(err: Option<TxError>, slot: nat)
      requires Valid() && listening
      modifies this
      ensures Valid() && history == old(history) + [SocketCalls(err, slot)]
      ensures View() == Step(old(View()), SocketCalls(err, slot))
    {
      done := true;
      var s := SignatureStatus(slot, Some(0), err);
      status := Some(s);
      if err.Some? {
        SettleWith(Rejected(StatusRejected(s)));
      } else {
        SettleWith(Resolved(s));
      }
      Record(SocketCalls(err, slot), old(View()));
    }

    method OnLoop()
      requires Valid() && looping
      modifies this
      ensures Valid() && history == old(history) + [LoopIterates] && View() == Step(old(View()), LoopIterates)
      ensures looping == !old(done) && inFlight == old(inFlight) + if old(done) then 0 else 1
    {
      if done { looping := false; } else { inFlight := inFlight + 1; }
      Record(LoopIterates, old(View()));
    }

    method OnAnswer(answer: Option<SignatureStatus>)
      requires Valid() && inFlight > 0
      modifies this
      ensures Valid() && history == old(history) + [PollAnswers(answer)]
      ensures View() == Step(old(View()), PollAnswers(answer))
    {
      status, inFlight := answer, inFlight - 1;
      if !done && answer.Some? {
        if answer.value.err.Some? {
          done := true;
          SettleWith(Rejected(ErrorRejected(answer.value.err.value)));
        } else if answer.value.confirmations.Some? && answer.value.confirmations.value != 0 {
          done := true;
          SettleWith(Resolved(answer.value));
        }
      }
      Record(PollAnswers(answer), old(View()));
    }

    method OnPollError()
      requires Valid() && inFlight > 0
      modifies this
      ensures Valid() && history == old(history) + [PollThrows] && View() == Step(old(View()), PollThrows)
    {
      inFlight := inFlight - 1;
      Record(PollThrows, old(View()));
    }
  }
}
