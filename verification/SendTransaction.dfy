/**
 * Sending a signed transaction: a resend loop runs beside the confirmation wait until the call returns or
 * throws. The Solana and the Eclipse SDK differ in what they do with a rejected wait.
 */
module SendTransaction {
  import opened Wrappers
  import C = Confirmations

  datatype Chain = Solana | Eclipse

  /** What the catch block is given. */
  datatype Caught = WaitRejected(reason: C.Rejection) | CustomInstructionError | CleanupError

  datatype Simulation = SimulationThrew | NoResult | Clean | SimulationFailed(err: string)

  datatype Failure = TimedOutAwaiting | Rethrown(error: Caught) | SimulatedError(err: string)

  datatype Completion = Returned(slot: nat) | Threw(failure: Failure)

  /** `done` is the resend loop's flag, not the wait's. */
  datatype Sending = Sending(
    chain: Chain,
    timeout: nat,
    wait: C.Wait,
    done: bool,
    resending: bool,
    resends: nat,
    simulating: bool,
    completion: Option<Completion>)

  datatype Event =
    | Waiting(event: C.Event)
    | ResendWakes(elapsed: nat)
    | WaitContinues
    | CleanupThrows              // the Solana wait has resolved, but removing its listener throws
    | SimulationEnds(result: Simulation)

  function Start(chain: Chain, timeout: nat, subscribes: bool): Sending {
    Sending(chain, timeout, C.Start(subscribes), false, true, 0, false, None)
  }

  predicate Enabled(s: Sending, e: Event) {
    match e
    case Waiting(w) => C.Enabled(s.wait, w)
    case ResendWakes(_) => s.resending
    case WaitContinues => s.wait.settled.Some? && !s.simulating && s.completion.None?
    case CleanupThrows =>
      s.chain.Solana? && s.wait.settled.Some? && s.wait.settled.value.Resolved? && !s.simulating && s.completion.None?
    case SimulationEnds(_) => s.simulating
  }

  /** The `finally` block. */
  function Finish(s: Sending, c: Completion): Sending {
    s.(simulating := false, completion := Some(c), done := true)
  }

  function Catch(s: Sending, c: Caught): Sending {
    match s.chain
    case Eclipse => Finish(s, Threw(Rethrown(c)))
    case Solana =>
      if c == WaitRejected(C.TimedOut) then Finish(s, Threw(TimedOutAwaiting)) else s.(simulating := true)
  }

  function Step(s: Sending, e: Event): Sending {
    if !Enabled(s, e) then s else
    match e
    case Waiting(w) => s.(wait := C.Step(s.wait, w))
    case ResendWakes(elapsed) =>
      // the clock is in seconds, the timeout in milliseconds; the loop compares them as they are
      if !s.done && elapsed < s.timeout then s.(resends := s.resends + 1) else s.(resending := false)
    case WaitContinues =>
      match s.wait.settled.value {
        case Resolved(status) =>
          if status.err.Some? then Catch(s, CustomInstructionError) else Finish(s, Returned(status.slot))
        case Rejected(reason) => Catch(s, WaitRejected(reason))
      }
    case CleanupThrows => Catch(s, CleanupError)
    case SimulationEnds(r) =>
      Finish(s, if r.SimulationFailed? then Threw(SimulatedError(r.err)) else Returned(0))
  }

  function RunFrom(s: Sending, events: seq<Event>): Sending
    decreases |events|
  {
    if events == [] then s else Step(RunFrom(s, events[..|events| - 1]), events[|events| - 1])
  }

  predicate Possible(s: Sending, events: seq<Event>)
    decreases |events|
  {
    events == [] ||
    (Possible(s, events[..|events| - 1]) && Enabled(RunFrom(s, events[..|events| - 1]), events[|events| - 1]))
  }

  /** The events of the run that belong to the wait. */
  function WaitEvents(events: seq<Event>): seq<C.Event> {
    if events == [] then []
    else WaitEvents(events[..|events| - 1]) +
         (match events[|events| - 1] case Waiting(w) => [w] case _ => [])
  }

  lemma {:induction false} WaitRuns(chain: Chain, timeout: nat, subscribes: bool, events: seq<Event>)
    requires Possible(Start(chain, timeout, subscribes), events)
    ensures C.Possible(subscribes, WaitEvents(events))
    ensures RunFrom(Start(chain, timeout, subscribes), events).wait == C.Run(subscribes, WaitEvents(events))
    decreases |events|
  {
    if events != [] {
      var init, e := events[..|events| - 1], events[|events| - 1];
      WaitRuns(chain, timeout, subscribes, init);
      WaitStep(RunFrom(Start(chain, timeout, subscribes), init), e);
      if e.Waiting? {
        WaitAppends(subscribes, WaitEvents(init), e.event);
      } else {
        assert WaitEvents(events) == WaitEvents(init);
      }
    }
  }

  /** Only the wait's own events reach it. */
  lemma WaitStep(s: Sending, e: Event)
    ensures Step(s, e).wait == if e.Waiting? && Enabled(s, e) then C.Step(s.wait, e.event) else s.wait
  {
  }

  lemma WaitAppends(subscribes: bool, events: seq<C.Event>, e: C.Event)
    requires C.Possible(subscribes, events) && C.Enabled(C.Run(subscribes, events), e)
    ensures C.Possible(subscribes, events + [e])
    ensures C.Run(subscribes, events + [e]) == C.Step(C.Run(subscribes, events), e)
  {
    assert (events + [e])[..|events + [e]| - 1] == events;
  }

  /** Once the call has returned or thrown, no continuation sends the raw transaction again or changes the result. */
  lemma {:induction false} NoResendAfterCompletion(chain: Chain, timeout: nat, subscribes: bool,
                                                   events: seq<Event>, later: seq<Event>)
    requires var s := RunFrom(Start(chain, timeout, subscribes), events); s.completion.Some?
    ensures var s := RunFrom(Start(chain, timeout, subscribes), events); var r := RunFrom(s, later);
      r.resends == s.resends && r.completion == s.completion && r.done && !r.simulating
    decreases |later|
  {
    if later == [] {
      CompletionClosesLoop(chain, timeout, subscribes, events);
    } else {
      NoResendAfterCompletion(chain, timeout, subscribes, events, later[..|later| - 1]);
    }
  }

  lemma {:induction false} CompletionClosesLoop(chain: Chain, timeout: nat, subscribes: bool, events: seq<Event>)
    ensures var s := RunFrom(Start(chain, timeout, subscribes), events);
      && s.chain == chain && (s.completion.Some? <==> s.done) && (s.simulating ==> s.completion.None?)
    decreases |events|
  {
    if events != [] { CompletionClosesLoop(chain, timeout, subscribes, events[..|events| - 1]); }
  }

  // ---- resending ----

  function Wakes(events: seq<Event>): nat {
    if events == [] then 0
    else Wakes(events[..|events| - 1]) + if events[|events| - 1].ResendWakes? then 1 else 0
  }

  /** The loop wakes after the call has ended, or too late. */
  predicate Idle(start: Sending, events: seq<Event>, k: nat)
    requires k < |events|
  {
    events[k].ResendWakes? &&
    (events[k].elapsed >= start.timeout || RunFrom(start, events[..k]).completion.Some?)
  }

  predicate SomeIdle(start: Sending, events: seq<Event>) {
    exists k :: 0 <= k < |events| && Idle(start, events, k)
  }

  lemma SomeIdleAppends(start: Sending, events: seq<Event>)
    requires events != []
    ensures SomeIdle(start, events) <==> SomeIdle(start, events[..|events| - 1]) || Idle(start, events, |events| - 1)
  {
    var init := events[..|events| - 1];
    forall k | 0 <= k < |init| ensures Idle(start, events, k) <==> Idle(start, init, k) {
      assert init[..k] == events[..k];
    }
  }

  /**
   * Every wake sends the transaction again, until the first that comes too late or finds the call ended; that one ends
   * the loop.
   */
  lemma {:induction false} EveryTimelyWakeResends(chain: Chain, timeout: nat, subscribes: bool, events: seq<Event>)
    requires Possible(Start(chain, timeout, subscribes), events)
    ensures var start := Start(chain, timeout, subscribes); var s := RunFrom(start, events);
      && s.timeout == timeout && (s.resending <==> !SomeIdle(start, events))
      && s.resends + (if s.resending then 0 else 1) == Wakes(events)
    decreases |events|
  {
    if events != [] {
      EveryTimelyWakeResends(chain, timeout, subscribes, events[..|events| - 1]);
      CompletionClosesLoop(chain, timeout, subscribes, events[..|events| - 1]);
      SomeIdleAppends(Start(chain, timeout, subscribes), events);
    }
  }

  // ---- what a completed call says ----

  /** The promise the call waits for holds what the first deciding event decided. */
  lemma SettledAsDecided(chain: Chain, timeout: nat, events: seq<Event>)
    requires Possible(Start(chain, timeout, true), events)
    ensures var settled := RunFrom(Start(chain, timeout, true), events).wait.settled;
      && settled == C.FirstDecision(WaitEvents(events))
      && (settled.Some? && settled.value.Resolved? ==> settled.value.status.err.None?)
  {
    WaitRuns(chain, timeout, true, events);
    C.FirstDecisionWins(WaitEvents(events));
    C.DecidedWithoutError(WaitEvents(events));
  }

  /** How the Eclipse call ends, from the first deciding event alone. */
  function EclipseEnding(first: C.Outcome): Completion {
    match first
    case Resolved(status) => Returned(status.slot)
    case Rejected(reason) => Threw(Rethrown(WaitRejected(reason)))
  }

  /** The Eclipse call ends as first decided: it returns only after an error-free confirmation, with its slot. */
  lemma {:induction false} EclipseEndsAsDecided(timeout: nat, events: seq<Event>)
    requires Possible(Start(Eclipse, timeout, true), events)
    ensures var s := RunFrom(Start(Eclipse, timeout, true), events);
            var first := C.FirstDecision(WaitEvents(events));
      && !s.simulating
      && (s.completion.Some? ==> first.Some? && s.completion == Some(EclipseEnding(first.value)))
      && (first.Some? && first.value.Resolved? ==> first.value.status.err.None?)
    decreases |events|
  {
    SettledAsDecided(Eclipse, timeout, events);
    CompletionClosesLoop(Eclipse, timeout, true, events);
    if events != [] {
      var init := events[..|events| - 1];
      EclipseEndsAsDecided(timeout, init);
      SettledAsDecided(Eclipse, timeout, init);
      CompletionClosesLoop(Eclipse, timeout, true, init);
      DecisionCarriesOver(events);
    }
  }

  lemma DecisionCarriesOver(events: seq<Event>)
    requires events != []
    ensures var first := C.FirstDecision(WaitEvents(events[..|events| - 1]));
      first.Some? ==> C.FirstDecision(WaitEvents(events)) == first
  {
    var init := events[..|events| - 1];
    if C.FirstDecision(WaitEvents(init)).Some? {
      C.DecisionIsStable(WaitEvents(init), match events[|events| - 1] case Waiting(w) => [w] case _ => []);
    }
  }

  /** What the simulation answered in this run, if it was asked. */
  function Simulated(events: seq<Event>): Option<Simulation> {
    if events == [] then None
    else match events[|events| - 1]
      case SimulationEnds(r) => Some(r)
      case _ => Simulated(events[..|events| - 1])
  }

  /** Whether removing the listener threw. */
  function CleanupThrew(events: seq<Event>): bool {
    exists k :: 0 <= k < |events| && events[k].CleanupThrows?
  }

  lemma CleanupAppends(events: seq<Event>)
    requires events != []
    ensures CleanupThrew(events) <==> CleanupThrew(events[..|events| - 1]) || events[|events| - 1].CleanupThrows?
  {
    var init := events[..|events| - 1];
    if CleanupThrew(init) {
      var k :| 0 <= k < |init| && init[k].CleanupThrows?;
      assert events[k].CleanupThrows?;
    }
    if CleanupThrew(events) {
      var k :| 0 <= k < |events| && events[k].CleanupThrows?;
      if k < |init| { assert init[k].CleanupThrows?; }
    }
  }

  /** How a call ends that asks the simulation: normally, with slot 0, unless the simulation reports an error. */
  function SimulatedEnding(simulated: Option<Simulation>): Completion {
    if simulated.Some? && simulated.value.SimulationFailed? then Threw(SimulatedError(simulated.value.err))
    else Returned(0)
  }

  /**
   * How the Solana call ends. A transaction that failed on chain, and one that was confirmed but whose listener could
   * not be removed, end as the simulation says.
   */
  function SolanaEnding(first: C.Outcome, threw: bool, simulated: Option<Simulation>): Completion {
    match first
    case Resolved(status) => if threw then SimulatedEnding(simulated) else Returned(status.slot)
    case Rejected(TimedOut) => Threw(TimedOutAwaiting)
    case Rejected(_) => SimulatedEnding(simulated)
  }

  /** The wait ended in a way that makes the call ask the simulation. */
  predicate AsksSimulation(first: C.Outcome, threw: bool) {
    if first.Resolved? then threw else first.reason != C.TimedOut
  }

  lemma {:induction false} SolanaEndsAsDecided(timeout: nat, events: seq<Event>)
    requires Possible(Start(Solana, timeout, true), events)
    ensures var s := RunFrom(Start(Solana, timeout, true), events);
            var first, threw := C.FirstDecision(WaitEvents(events)), CleanupThrew(events);
      && (threw ==> first.Some? && first.value.Resolved?)
      && (s.simulating ==> first.Some? && AsksSimulation(first.value, threw) && Simulated(events).None?)
      && (s.completion.Some? ==>
            first.Some? && s.completion == Some(SolanaEnding(first.value, threw, Simulated(events))))
      && (s.completion.None? ==> Simulated(events).None?)
      && (s.completion.None? && !s.simulating ==> !threw)
    decreases |events|
  {
    SettledAsDecided(Solana, timeout, events);
    CompletionClosesLoop(Solana, timeout, true, events);
    if events != [] {
      var init := events[..|events| - 1];
      SolanaEndsAsDecided(timeout, init);
      CompletionClosesLoop(Solana, timeout, true, init);
      SettledAsDecided(Solana, timeout, init);
      DecisionCarriesOver(events);
      CleanupAppends(events);
    }
  }

  /**
   * A Solana call whose transaction was confirmed returns the confirmation's slot if the listener could be removed;
   * if not, it returns slot 0 or throws, as the simulation says.
   */
  lemma SolanaKeepsSlotIff(timeout: nat, events: seq<Event>)
    requires Possible(Start(Solana, timeout, true), events)
    requires RunFrom(Start(Solana, timeout, true), events).completion.Some?
    ensures var first := C.FirstDecision(WaitEvents(events));
            var c := RunFrom(Start(Solana, timeout, true), events).completion;
      first.Some? && first.value.Resolved? ==>
        (c == Some(Returned(first.value.status.slot)) <==>
           !CleanupThrew(events) ||
           (first.value.status.slot == 0 && !(Simulated(events).Some? && Simulated(events).value.SimulationFailed?)))
  {
    SolanaEndsAsDecided(timeout, events);
  }

  /** And the listener's removal can throw away a slot. */
  lemma LostSlotHappens(timeout: nat, slot: nat) returns (events: seq<Event>)
    ensures Possible(Start(Solana, timeout, true), events)
    ensures RunFrom(Start(Solana, timeout, true), events).completion == Some(Returned(0))
    ensures C.FirstDecision(WaitEvents(events)) == Some(C.Resolved(C.SignatureStatus(slot, Some(0), None)))
  {
    var s := Start(Solana, timeout, true);
    var confirm := Waiting(C.SocketCalls(None, slot));
    OneMore(s, [], confirm);
    OneMore(s, [confirm], CleanupThrows);
    OneMore(s, [confirm] + [CleanupThrows], SimulationEnds(Clean));
    events := [confirm] + [CleanupThrows] + [SimulationEnds(Clean)];
    assert RunFrom(s, [confirm]) == Step(s, confirm);
    SettledAsDecided(Solana, timeout, [confirm]);
    DecisionCarriesOver([confirm] + [CleanupThrows]);
    DecisionCarriesOver(events);
  }

  /** A Solana call returns normally after a failure on chain if and only if the simulation raises no error. */
  lemma SolanaHidesFailureIff(timeout: nat, events: seq<Event>)
    requires Possible(Start(Solana, timeout, true), events)
    requires RunFrom(Start(Solana, timeout, true), events).completion.Some?
    ensures var first := C.FirstDecision(WaitEvents(events));
      && first.Some?
      && (first.value.Rejected? && first.value.reason != C.TimedOut ==>
            (RunFrom(Start(Solana, timeout, true), events).completion == Some(Returned(0)) <==>
             !(Simulated(events).Some? && Simulated(events).value.SimulationFailed?)))
  {
    SolanaEndsAsDecided(timeout, events);
  }

  /** That does happen: the transaction fails on chain, the simulation finds nothing, and the call returns slot 0. */
  lemma HiddenFailureHappens(timeout: nat, err: C.TxError, slot: nat) returns (events: seq<Event>)
    ensures Possible(Start(Solana, timeout, true), events)
    ensures RunFrom(Start(Solana, timeout, true), events).completion == Some(Returned(0))
    ensures C.FirstDecision(WaitEvents(events)) ==
      Some(C.Rejected(C.StatusRejected(C.SignatureStatus(slot, Some(0), Some(err)))))
  {
    var s := Start(Solana, timeout, true);
    var fail := Waiting(C.SocketCalls(Some(err), slot));
    OneMore(s, [], fail);
    var failed := Step(s, fail);
    OneMore(s, [fail], WaitContinues);
    OneMore(s, [fail] + [WaitContinues], SimulationEnds(Clean));
    events := [fail] + [WaitContinues] + [SimulationEnds(Clean)];
    SettledAsDecided(Solana, timeout, [fail]);
    assert RunFrom(s, [fail]) == failed;
    DecisionCarriesOver([fail] + [WaitContinues]);
    DecisionCarriesOver(events);
  }

  lemma OneMore(s: Sending, events: seq<Event>, e: Event)
    ensures RunFrom(s, events + [e]) == Step(RunFrom(s, events), e)
    ensures Possible(s, events + [e]) <==> Possible(s, events) && Enabled(RunFrom(s, events), e)
    ensures (events + [e])[..|events + [e]| - 1] == events
  {
    assert (events + [e])[..|events + [e]| - 1] == events;
  }

  /** When `onSignature` throws, the call never completes, however long it runs. */
  lemma {:induction false} FailedSetupNeverCompletes(chain: Chain, timeout: nat, events: seq<Event>)
    ensures var s := RunFrom(Start(chain, timeout, false), events);
      && s.completion.None? && !s.simulating && !s.done
      && s.wait.settled.None? && s.wait.done && !s.wait.listening && s.wait.inFlight == 0
    decreases |events|
  {
    if events != [] { FailedSetupNeverCompletes(chain, timeout, events[..|events| - 1]); }
  }

  /** The call has ended, or something is left that ends it or brings its end nearer. */
  predicate Unblocked(s: Sending) {
    s.completion.Some? || s.simulating || Enabled(s, WaitContinues)
  }

  /** Once the wait's timer has fired the call is not blocked any more, if and only if the subscription was set up. */
  lemma TimerUnblocksIffSubscribed(chain: Chain, timeout: nat, subscribes: bool, events: seq<Event>)
    requires Possible(Start(chain, timeout, subscribes), events) && C.TimerFires in WaitEvents(events)
    ensures Unblocked(RunFrom(Start(chain, timeout, subscribes), events)) <==> subscribes
  {
    if subscribes {
      WaitRuns(chain, timeout, true, events);
      C.TimerSettlesIffSubscribed(true, WaitEvents(events));
    } else {
      FailedSetupNeverCompletes(chain, timeout, events);
    }
  }

  /** A call that is not blocked can end within two events. */
  lemma UnblockedCanEnd(s: Sending, simulation: Simulation) returns (more: seq<Event>)
    requires Unblocked(s)
    ensures |more| <= 2 && Possible(s, more) && RunFrom(s, more).completion.Some?
  {
    assert RunFrom(s, []) == s && Possible(s, []);
    more := [];
    if !s.simulating && s.completion.None? {
      OneMore(s, more, WaitContinues);
      more := more + [WaitContinues];
    }
    var t := RunFrom(s, more);
    if t.completion.None? {
      OneMore(s, more, SimulationEnds(simulation));
      more := more + [SimulationEnds(simulation)];
    }
  }

  // ---- the call's own variables ----

  class SendCall {
    const chain: Chain
    const timeout: nat
    const confirmation: C.Confirmation
    var done: bool
    var resending: bool
    var resends: nat
    var simulating: bool
    var completion: Option<Completion>

    ghost function View(): Sending
      reads this, confirmation
    {
      Sending(chain, timeout, confirmation.View(), done, resending, resends, simulating, completion)
    }

    constructor (chain: Chain, timeout: nat, subscribes: bool)
      ensures fresh(confirmation) && confirmation.Valid()
      ensures View() == Start(chain, timeout, subscribes)
    {
      this.chain, this.timeout := chain, timeout;
      confirmation := new C.Confirmation(subscribes);
      done, resending, resends, simulating, completion := false, true, 0, false, None;
    }

    /** One turn of the resend loop. */
    method OnResend(elapsed: nat) returns (sent: bool)
      requires resending
      modifies this
      ensures View() == Step(old(View()), ResendWakes(elapsed))
      ensures sent <==> !old(done) && elapsed < timeout
      ensures resends == old(resends) + (if sent then 1 else 0) && resending == sent
    {
      sent := !done && elapsed < timeout;
      if sent { resends := resends + 1; } else { resending := false; }
    }

    method Complete(c: Completion)
      modifies this
      ensures View() == Finish(old(View()), c)
    {
      simulating, completion, done := false, Some(c), true;
    }

    method OnCaught(c: Caught)
      modifies this
      ensures View() == Catch(old(View()), c)
    {
      match chain
      case Eclipse => Complete(Threw(Rethrown(c)));
      case Solana =>
        if c == WaitRejected(C.TimedOut) {
          Complete(Threw(TimedOutAwaiting));
        } else {
          simulating := true;
        }
    }

    /** The code after the awaited confirmation. */
    method OnWaitSettled()
      requires confirmation.settled.Some? && !simulating && completion.None?
      modifies this
      ensures View() == Step(old(View()), WaitContinues)
    {
      match confirmation.settled.value
      case Resolved(status) =>
        if status.err.Some? {
          OnCaught(CustomInstructionError);
        } else {
          Complete(Returned(status.slot));
        }
      case Rejected(reason) => OnCaught(WaitRejected(reason));
    }

    /** Removing the listener of the resolved wait throws. */
    method OnCleanupThrows()
      requires chain.Solana? && confirmation.settled.Some? && confirmation.settled.value.Resolved?
      requires !simulating && completion.None?
      modifies this
      ensures View() == Step(old(View()), CleanupThrows)
    {
      OnCaught(CleanupError);
    }

    method OnSimulated(r: Simulation)
      requires simulating
      modifies this
      ensures View() == Step(old(View()), SimulationEnds(r))
    {
      if r.SimulationFailed? {
        Complete(Threw(SimulatedError(r.err)));
      } else {
        Complete(Returned(0));
      }
    }
  }
}
