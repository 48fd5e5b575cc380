/**
 * `cache`: one promise shared by every subscriber, forgotten when it rejects.
 *
 * A call's rejection handlers run one task each, so one of them can still be waiting after the slot has been
 * filled again.
 */
module Caches {
  import opened Wrappers

  type Outcome = Result<string, string>

  datatype CallState = Pending | Settled(outcome: Outcome)

  /** A subscriber joined call `call`; its then/catch handler has run once `received` is set. */
  datatype Subscriber = Subscriber(call: nat, received: Option<Outcome>)

  datatype Cache = Cache(slot: Option<nat>, calls: seq<CallState>, subscribers: seq<Subscriber>)

  datatype Event =
    | Subscribes
    | CallSettles(call: nat, outcome: Outcome)
    | HandlerRuns(subscriber: nat)

  const EMPTY := Cache(None, [], [])

  predicate Enabled(c: Cache, e: Event) {
    match e
    case Subscribes => true
    case CallSettles(k, _) => k < |c.calls| && c.calls[k].Pending?
    case HandlerRuns(j) =>
      j < |c.subscribers| && c.subscribers[j].received.None? && c.subscribers[j].call < |c.calls| &&
      c.calls[c.subscribers[j].call].Settled?
  }

  function Step(c: Cache, e: Event): Cache {
    if !Enabled(c, e) then c
    else match e
      case Subscribes =>
        match c.slot {
          case Some(k) => c.(subscribers := c.subscribers + [Subscriber(k, None)])
          case None => Cache(Some(|c.calls|), c.calls + [Pending], c.subscribers + [Subscriber(|c.calls|, None)])
        }
      case CallSettles(k, o) => c.(calls := c.calls[k := Settled(o)])
      case HandlerRuns(j) =>
        var k := c.subscribers[j].call;
        var o := c.calls[k].outcome;
        Cache(if o.Err? then None else c.slot, c.calls, c.subscribers[j := Subscriber(k, Some(o))])
  }

  function Run(c: Cache, events: seq<Event>): Cache
    decreases |events|
  {
    if events == [] then c else Step(Run(c, events[..|events| - 1]), events[|events| - 1])
  }

  predicate Invariant(c: Cache) {
    && (c.slot.Some? ==> c.slot.value + 1 == |c.calls|)
    && (forall j :: 0 <= j < |c.subscribers| ==>
          c.subscribers[j].call < |c.calls| &&
          (c.subscribers[j].received.Some? ==>
             c.calls[c.subscribers[j].call] == Settled(c.subscribers[j].received.value)))
  }

  /** Every subscriber is told the outcome of the very call it joined, and the slot always holds the newest call. */
  lemma {:induction false} RunKeeps(events: seq<Event>)
    ensures Invariant(Run(EMPTY, events))
    decreases |events|
  {
    if events != [] { RunKeeps(events[..|events| - 1]); }
  }

  predicate HoldsFulfilled(c: Cache) {
    c.slot.Some? && c.slot.value < |c.calls| && c.calls[c.slot.value].Settled? && c.calls[c.slot.value].outcome.Ok?
  }

  /** The slot holds a fulfilled call, and every handler that has not run belongs to a fulfilled call. */
  predicate Final(c: Cache) {
    && Invariant(c) && HoldsFulfilled(c)
    && (forall j :: 0 <= j < |c.subscribers| ==> Quiet(c, j))
  }

  predicate Quiet(c: Cache, j: nat)
    requires j < |c.subscribers| && c.subscribers[j].call < |c.calls|
  {
    var s := c.subscribers[j];
    s.received.Some? || (c.calls[s.call].Settled? && c.calls[s.call].outcome.Ok?)
  }

  lemma FinalStep(c: Cache, e: Event)
    requires Final(c)
    ensures Final(Step(c, e)) && |Step(c, e).calls| == |c.calls| && Step(c, e).slot == c.slot
  {
    var r := Step(c, e);
    if Enabled(c, e) {
      forall j | 0 <= j < |r.subscribers| ensures Quiet(r, j) {
        if j < |c.subscribers| { assert Quiet(c, j); }
      }
      match e
      case HandlerRuns(j) => assert Quiet(c, j);
      case _ =>
    }
  }

  lemma {:induction false} FinalRun(c: Cache, events: seq<Event>)
    requires Final(c)
    ensures Final(Run(c, events)) && |Run(c, events).calls| == |c.calls| && Run(c, events).slot == c.slot
    decreases |events|
  {
    if events != [] {
      FinalRun(c, events[..|events| - 1]);
      FinalStep(Run(c, events[..|events| - 1]), events[|events| - 1]);
    }
  }

  /** A handler that has not run and whose call may still reject, or has. */
  predicate Threat(c: Cache, j: nat) {
    j < |c.subscribers| && c.subscribers[j].call < |c.calls| && !Quiet(c, j)
  }

  /** The shortest way to a second call: let the threatening handler run, then subscribe. */
  lemma ThreatLeadsToCall(c: Cache, j: nat)
    requires Invariant(c) && c.slot.Some? && Threat(c, j)
    ensures exists events :: |Run(c, events).calls| > |c.calls|
  {
    var k := c.subscribers[j].call;
    var settle := CallSettles(k, Err("rejected"));
    var a := Step(c, settle);
    var b := Step(a, HandlerRuns(j));
    var d := Step(b, Subscribes);
    var events := [settle, HandlerRuns(j), Subscribes];
    assert events[..2] == [settle, HandlerRuns(j)] && [settle, HandlerRuns(j)][..1] == [settle] && [settle][..0] == [];
    assert Run(c, [settle]) == a;
    assert Run(c, [settle, HandlerRuns(j)]) == b;
    assert Run(c, events) == d;
  }

  /**
   * With a fulfilled call in the slot, no continuation ever makes another call if and only if no earlier call
   * still has a subscriber that could be told a rejection.
   */
  lemma NoFurtherCallIff(events: seq<Event>)
    ensures var c := Run(EMPTY, events);
      HoldsFulfilled(c) ==>
        ((forall more :: |Run(c, more).calls| == |c.calls|) <==> (forall j :: !Threat(c, j)))
  {
    RunKeeps(events);
    var c := Run(EMPTY, events);
    if HoldsFulfilled(c) {
      if forall j :: !Threat(c, j) {
        forall j | 0 <= j < |c.subscribers| ensures Quiet(c, j) { assert !Threat(c, j); }
        forall more ensures |Run(c, more).calls| == |c.calls| { FinalRun(c, more); }
      } else {
        var j :| Threat(c, j);
        ThreatLeadsToCall(c, j);
      }
    }
  }

  /**
   * The condition can fail: two subscribers share a call that rejects, one of them is told, a third subscribes anew
   * and its call is fulfilled, while the second has not been told yet.
   */
  lemma ThreatHappens() returns (events: seq<Event>)
    ensures HoldsFulfilled(Run(EMPTY, events)) && Threat(Run(EMPTY, events), 1)
  {
    var c1, c2 := Step(EMPTY, Subscribes), Step(Step(EMPTY, Subscribes), Subscribes);
    var c3 := Step(c2, CallSettles(0, Err("rejected")));
    var c4 := Step(c3, HandlerRuns(0));
    var c5 := Step(c4, Subscribes);
    var c6 := Step(c5, CallSettles(1, Ok("value")));
    OneMore([], Subscribes);
    OneMore([Subscribes], Subscribes);
    OneMore([Subscribes] + [Subscribes], CallSettles(0, Err("rejected")));
    events := [Subscribes] + [Subscribes] + [CallSettles(0, Err("rejected"))];
    assert Run(EMPTY, events) == c3;
    OneMore(events, HandlerRuns(0));
    events := events + [HandlerRuns(0)];
    OneMore(events, Subscribes);
    events := events + [Subscribes];
    OneMore(events, CallSettles(1, Ok("value")));
    events := events + [CallSettles(1, Ok("value"))];
    assert Run(EMPTY, events) == c6;
  }

  lemma OneMore(events: seq<Event>, e: Event)
    ensures Run(EMPTY, events + [e]) == Step(Run(EMPTY, events), e)
  {
    assert (events + [e])[..|events + [e]| - 1] == events;
  }

  /** A new subscriber joins the call in the slot; only an empty slot makes a call. */
  lemma SubscriberJoinsSlot(events: seq<Event>)
    ensures var c := Run(EMPTY, events); var r := Run(EMPTY, events + [Subscribes]);
      && r.slot == Some(|r.calls| - 1) && r.subscribers == c.subscribers + [Subscriber(|r.calls| - 1, None)]
      && r.calls == (if c.slot.Some? then c.calls else c.calls + [Pending])
  {
    RunKeeps(events);
    OneMore(events, Subscribes);
  }

  /** A subscriber is told how its call ended; a rejection empties the slot, a value does not. */
  lemma SubscriberIsTold(events: seq<Event>, j: nat, o: Outcome)
    requires var c := Run(EMPTY, events);
      && j < |c.subscribers| && c.subscribers[j].received.None?
      && c.subscribers[j].call < |c.calls| && c.calls[c.subscribers[j].call].Pending?
    ensures var c, k := Run(EMPTY, events), Run(EMPTY, events).subscribers[j].call;
            var r := Run(EMPTY, events + [CallSettles(k, o)] + [HandlerRuns(j)]);
      && r.subscribers == c.subscribers[j := Subscriber(k, Some(o))] && r.calls == c.calls[k := Settled(o)]
      && r.slot == (if o.Err? then None else c.slot)
  {
    RunKeeps(events);
    var k := Run(EMPTY, events).subscribers[j].call;
    OneMore(events, CallSettles(k, o));
    OneMore(events + [CallSettles(k, o)], HandlerRuns(j));
  }

  // ---- the observable itself ----

  class CachedCall {
    var slot: Option<nat>
    var calls: seq<CallState>
    var subscribers: seq<Subscriber>

    ghost function View(): Cache
      reads this
    {
      Cache(slot, calls, subscribers)
    }

    constructor ()
      ensures View() == EMPTY
    {
      slot, calls, subscribers := None, [], [];
    }

    /** Starts a call only when the slot is empty. */
    method Subscribe() returns (joined: nat)
      requires Invariant(View())
      modifies this
      ensures Invariant(View()) && View() == Step(old(View()), Subscribes)
      ensures joined < |calls| && (|calls| > |old(calls)| <==> old(slot).None?)
    {
      if slot.None? {
        slot := Some(|calls|);
        calls := calls + [Pending];
      }
      joined := slot.value;
      subscribers := subscribers + [Subscriber(joined, None)];
    }

    method Settle(k: nat, o: Outcome)
      requires Invariant(View()) && k < |calls| && calls[k].Pending?
      modifies this
      ensures Invariant(View()) && View() == Step(old(View()), CallSettles(k, o))
    {
      calls := calls[k := Settled(o)];
    }

    /** The then/catch handler of subscriber `j`. */
    method RunHandler(j: nat) returns (received: Outcome)
      requires Invariant(View()) && Enabled(View(), HandlerRuns(j))
      modifies this
      ensures Invariant(View()) && View() == Step(old(View()), HandlerRuns(j))
      ensures calls[subscribers[j].call] == Settled(received)
    {
      received := calls[subscribers[j].call].outcome;
      if received.Err? { slot := None; }
      subscribers := subscribers[j := Subscriber(subscribers[j].call, Some(received))];
    }
  }
}
