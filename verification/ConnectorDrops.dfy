/**
 * Version 6 once more: a stream may drop while it is being subscribed to, and as long as it does not speak again
 * nothing a subscriber can see is wrong.
 */
module ConnectorDrops {
  import opened Wrappers
  import opened ConnectionStates
  import opened ConnectorModel
  import opened ConnectorPrefixes
  import opened ConnectorRuns

  /** `switchMap` is still subscribed to a stream that has dropped. */
  predicate Dropped(m: Model) {
    m.rxjs.V6? && m.installed.None? && m.decided.None? && m.inner.Attached? && m.inner.index + 1 == |m.streams|
  }

  /** The invariant, except that version 6 may still be subscribed to a stream that has dropped. */
  predicate Consistent(m: Model) {
    && |m.trace| > 0 && m.subscribers > 0
    && (Coherent(m) || Dropped(m)) && Agreed(m) && TraceSound(m.streams, m.trace)
  }

  /** A stream that has dropped says something other than disconnected. */
  predicate DroppedSpeaks(m: Model, e: Event)
    requires |m.trace| > 0
  {
    m.rxjs.V6? && !m.unloading && Enabled(m, e) &&
    match e
    case Sends(i, s) => m.inner == Attached(i) && m.installed.None? && !s.Disconnected?
    case AutoDelivers(prefix) => m.installed.Some? && SpeaksAgain(m.decided.value, prefix)
    case ConnectResumes(p, prefix) => m.installed != Some(p) && SpeaksAgain(Last(m), prefix)
    case _ => false
  }

  /** With a provider installed, or under version 7, there is no difference. */
  lemma ConsistentIsInvariant(m: Model)
    ensures Invariant(m) ==> Consistent(m)
    ensures Consistent(m) && (m.installed.Some? || m.rxjs.V7?) ==> Invariant(m)
  {
  }

  // ---- a stream while it is being subscribed to ----

  /** An unsound entry stays where it is. */
  lemma UnsoundStays(streams: seq<Provider>, trace: seq<Entry>, more: seq<Entry>)
    requires trace <= more && TraceSound(streams, more)
    ensures TraceSound(streams, trace)
  {
    forall k | 0 < k < |trace| ensures Differs(trace, k) { assert Differs(more, k); }
    forall k | 0 <= k < |trace| ensures Sound(streams, k, trace[k]) { assert Sound(streams, k, more[k]); }
  }

  /** Where a prefix leaves version 6: the trace is spoilt exactly when the stream has spoken after its drop. */
  lemma {:induction false} PrefixSpoils(m: Model, i: nat, states: seq<ConnectionState>)
    requires Invariant(m) && m.inner == Attached(i) && m.rxjs.V6? && !m.unloading
    ensures var r := SendAll(m, i, states);
      && (TraceSound(r.streams, r.trace) <==> !SpeaksAgain(Last(m), states))
      && (Drops(Last(m), states) && !SpeaksAgain(Last(m), states) ==>
            r.installed.None? && Last(r).Disconnected? && !r.heard)
    decreases |states|
  {
    if states != [] {
      var init, s := states[..|states| - 1], states[|states| - 1];
      var before, r := SendAll(m, i, init), SendAll(m, i, states);
      DropsLast(Last(m), states);
      SpeaksAgainLast(Last(m), states);
      PrefixSpoils(m, i, init);
      SameIsKeyEquality(Last(before), s);
      if SpeaksAgain(Last(m), init) {
        if TraceSound(r.streams, r.trace) { UnsoundStays(r.streams, before.trace, r.trace); }
      } else if Drops(Last(m), init) {
        if !s.Disconnected? { SpokenUnsound(before, i, s); }
      } else {
        PrefixOutcome(m, i, init);
        DeliverTrace(before.(heard := before.heard || !s.Disconnected?), s, FromSubscription(i));
      }
    }
  }

  /** What is said after the drop comes from a subscription without a provider. */
  lemma SpokenUnsound(m: Model, i: nat, s: ConnectionState)
    requires |m.trace| > 0 && m.installed.None? && !m.unloading && Last(m).Disconnected? && !s.Disconnected?
    ensures !TraceSound(Receive(m, i, s).streams, Receive(m, i, s).trace)
  {
    SameIsKeyEquality(Last(m), s);
    var r := Receive(m, i, s);
    assert !Sound(r.streams, |m.trace|, r.trace[|m.trace|]);
  }

  /** Attaching makes any sound state consistent, unless the stream speaks after a drop. */
  lemma AttachConsistentIff(m: Model, p: Provider, prefix: seq<ConnectionState>)
    requires |m.trace| > 0 && m.subscribers > 0 && m.decided.None? && TraceSound(m.streams, m.trace)
    requires m.installed == Some(p)
    ensures var spoken := m.rxjs.V6? && !m.unloading && SpeaksAgain(Last(m), prefix);
      Consistent(Attach(m, p, prefix)) <==> !spoken
  {
    AttachKeepsIff(m, p, prefix);
    if Follows(m, Last(m), prefix) {
      if SpeaksAgain(Last(m), prefix) { SpeaksAgainDrops(Last(m), prefix); }
    } else {
      DropConsistentIff(m, p, prefix);
    }
  }

  lemma DropConsistentIff(m: Model, p: Provider, prefix: seq<ConnectionState>)
    requires |m.trace| > 0 && m.subscribers > 0 && m.decided.None? && TraceSound(m.streams, m.trace)
    requires m.installed == Some(p) && !Follows(m, Last(m), prefix)
    ensures Consistent(Attach(m, p, prefix)) <==> !SpeaksAgain(Last(m), prefix)
  {
    AttachingKeeps(m, p);
    PrefixSpoils(Attaching(m, p), |m.streams|, prefix);
    PrefixLeaves(Attaching(m, p), |m.streams|, prefix);
    DroppedIff(SendAll(Attaching(m, p), |m.streams|, prefix), |m.streams|);
  }

  lemma DroppedIff(r: Model, i: nat)
    requires |r.trace| > 0 && r.subscribers > 0 && r.decided.None? && r.rxjs.V6? && r.installed.None?
    requires i + 1 == |r.streams| && (TraceSound(r.streams, r.trace) ==> Last(r).Disconnected? && !r.heard)
    ensures Consistent(r.(inner := Attached(i))) <==> TraceSound(r.streams, r.trace)
  {
  }

  // ---- steps ----

  lemma AutoDeliverConsistentIff(m: Model, prefix: seq<ConnectionState>)
    requires Consistent(m) && Enabled(m, AutoDelivers(prefix))
    ensures Consistent(Step(m, AutoDelivers(prefix))) <==> !DroppedSpeaks(m, AutoDelivers(prefix))
  {
    var s := m.decided.value;
    var d := Deliver(m, s, FromAutoConnect).(decided := None);
    SameIsKeyEquality(Last(m), s);
    DeliverTrace(m, s, FromAutoConnect);
    match d.installed
    case Some(p) => AttachConsistentIff(d, p, prefix);
    case None => NothingSelected(d);
  }

  /** The stored id, the clears and the waiting calls do not enter into consistency. */
  lemma BookkeepingConsistent(m: Model, n: Model)
    requires |m.trace| > 0 && |n.trace| > 0 && m.subscribers > 0 && n.subscribers > 0
    requires n == m.(stored := n.stored, clears := n.clears, connects := n.connects, subscribers := n.subscribers)
    requires m.inner.Unattached? ==> n.clears == m.clears && n.connects == m.connects
    ensures Consistent(n) <==> Consistent(m)
  {
  }

  lemma ConnectConsistentIff(m: Model, p: Provider, prefix: seq<ConnectionState>)
    requires Consistent(m) && Enabled(m, ConnectResumes(p, prefix))
    ensures Consistent(Step(m, ConnectResumes(p, prefix))) <==> !DroppedSpeaks(m, ConnectResumes(p, prefix))
  {
    var c := m.(connects := m.connects - 1);
    BookkeepingConsistent(m, c);
    ConnectStores(m, p, prefix);
    BookkeepingConsistent(Install(c, p, prefix), Step(m, ConnectResumes(p, prefix)));
    if m.installed != Some(p) { AttachConsistentIff(c.(installed := Some(p)), p, prefix); }
  }

  lemma SendConsistentIff(m: Model, i: nat, s: ConnectionState)
    requires Consistent(m) && Enabled(m, Sends(i, s))
    ensures Consistent(Step(m, Sends(i, s))) <==> !DroppedSpeaks(m, Sends(i, s))
  {
    if m.inner == Attached(i) {
      if m.installed.None? {
        SameIsKeyEquality(Last(m), s);
        if !m.unloading && !s.Disconnected? { SpokenUnsound(m, i, s); }
      } else {
        SendKeeps(m, i, s);
      }
    }
  }

  lemma ReplayConsistent(m: Model)
    requires Consistent(m)
    ensures Consistent(Replay(m)) && (Replay(m).inner.Unattached? <==> m.inner.Unattached?)
    ensures Replay(m).subscribers == m.subscribers && Replay(m).decided == m.decided
  {
    if Last(m).Disconnected? && !m.unloading {
      if m.installed.Some? { ResetKeeps(m); }
      BookkeepingConsistent(Reset(m), Replay(m));
    }
  }

  lemma ReplayStepConsistent(m: Model, e: Event)
    requires Consistent(m) && Enabled(m, e) && (e.ConnectCalled? || e.Subscribed?)
    ensures Consistent(Step(m, e))
  {
    ReplayConsistent(m);
    BookkeepingConsistent(Replay(m), Step(m, e));
  }

  lemma DisconnectConsistent(m: Model)
    requires Consistent(m) && Enabled(m, DisconnectResumes)
    ensures Consistent(Step(m, DisconnectResumes))
  {
    if m.installed.Some? { ResetKeeps(m); }
  }

  lemma UnloadConsistent(m: Model)
    requires Consistent(m)
    ensures Consistent(Step(m, Unloads))
  {
  }

  /** One task keeps the connector consistent if and only if it does not let a dropped stream speak. */
  lemma StepConsistentIff(m: Model, e: Event)
    requires Consistent(m)
    ensures Consistent(Step(m, e)) <==> !DroppedSpeaks(m, e)
    ensures m.rxjs.V7? ==> !DroppedSpeaks(m, e)
  {
    if Enabled(m, e) {
      match e
      case AutoDecides(r) => DecideKeeps(m, r);
      case AutoDelivers(prefix) => AutoDeliverConsistentIff(m, prefix);
      case Sends(i, s) => SendConsistentIff(m, i, s);
      case ConnectCalled => ReplayStepConsistent(m, e);
      case ConnectResumes(p, prefix) => ConnectConsistentIff(m, p, prefix);
      case DisconnectResumes => DisconnectConsistent(m);
      case ClearResumes(k) => BookkeepingConsistent(m, Step(m, e));
      case Subscribed => ReplayStepConsistent(m, e);
      case Unsubscribed => BookkeepingConsistent(m, Step(m, e));
      case Unloads => UnloadConsistent(m);
    }
  }

  // ---- runs ----

  /** No task of the run lets a dropped stream speak. */
  predicate DropsStaySilent(m: Model, events: seq<Event>)
    requires |m.trace| > 0
    decreases |events|
  {
    events == [] ||
    (DropsStaySilent(m, events[..|events| - 1]) &&
     !DroppedSpeaks(Run(m, events[..|events| - 1]), events[|events| - 1]))
  }

  lemma {:induction false} RunConsistent(m: Model, events: seq<Event>)
    requires Consistent(m) && DropsStaySilent(m, events)
    ensures Consistent(Run(m, events))
    decreases |events|
  {
    if events != [] {
      RunConsistent(m, events[..|events| - 1]);
      StepConsistentIff(Run(m, events[..|events| - 1]), events[|events| - 1]);
    }
  }

  /** Under version 7 no run does. */
  lemma {:induction false} SevenStaysSilent(m: Model, events: seq<Event>)
    requires |m.trace| > 0 && m.rxjs.V7?
    ensures DropsStaySilent(m, events)
    decreases |events|
  {
    if events != [] { SevenStaysSilent(m, events[..|events| - 1]); }
  }
}
