/** What every run of the connector keeps. */
module ConnectorRuns {
  import opened Wrappers
  import opened ConnectionStates
  import opened ConnectorModel
  import opened ConnectorPrefixes

  // ---- the invariant ----

  /** `switchMap` follows the subject: it listens to the newest subscription, opened for the installed provider. */
  predicate Coherent(m: Model) {
    && |m.trace| > 0 && m.subscribers > 0
    && match m.inner
       case Unattached =>
         && m.streams == [] && m.clears == [] && m.connects == 0 && !m.heard
         && |m.trace| == 1 && Last(m).Initializing?
         && (m.decided.None? ==> m.installed.None?)
         && (m.decided.Some? ==>
               if m.installed.Some? then m.decided == Some(Connecting(m.installed.value.id))
               else m.decided.value.Disconnected?)
       case NoProvider => m.decided.None? && m.installed.None? && !m.heard
       case Attached(i) => m.decided.None? && i + 1 == |m.streams| && m.installed == Some(m.streams[i])
  }

  /** Before unload the last state agrees with the subject, once the installed provider has announced itself. */
  predicate Agreed(m: Model)
    requires |m.trace| > 0
  {
    !m.inner.Unattached? && !m.unloading ==>
      && (m.installed.None? ==> Last(m).Disconnected?)
      && (m.heard ==> !Last(m).Disconnected?)
  }

  predicate Sound(streams: seq<Provider>, k: nat, e: Entry) {
    match e.source
    case FromStart => k == 0 && e.state == Initializing
    case FromAutoConnect => k == 1 && e.streamsThen == 0
    case FromReset => k > 0 && e.state.Disconnected?
    case FromSubscription(i) => k > 0 && i + 1 == e.streamsThen <= |streams| && e.installed == Some(streams[i])
  }

  predicate Differs(trace: seq<Entry>, k: int)
    requires 0 < k < |trace|
  {
    !Same(trace[k - 1].state, trace[k].state)
  }

  /** No two adjacent states are the same. */
  predicate Distinct(trace: seq<Entry>) {
    forall k :: 0 < k < |trace| ==> Differs(trace, k)
  }

  predicate TraceSound(streams: seq<Provider>, trace: seq<Entry>) {
    && Distinct(trace)
    && (forall k :: 0 <= k < |trace| ==> Sound(streams, k, trace[k]))
  }

  predicate Invariant(m: Model) {
    Coherent(m) && Agreed(m) && TraceSound(m.streams, m.trace)
  }

  // ---- the trace ----

  lemma DistinctExtends(trace: seq<Entry>, e: Entry)
    requires |trace| > 0 && Distinct(trace) && !Same(trace[|trace| - 1].state, e.state)
    ensures Distinct(trace + [e])
  {
    var t := trace + [e];
    forall k | 0 < k < |t| ensures Differs(t, k) {
      if k < |trace| { assert Differs(trace, k); }
    }
  }

  /** A delivery keeps the trace free of repetitions, whatever else is true of the model. */
  lemma DeliverDistinct(m: Model, s: ConnectionState, source: Source)
    requires |m.trace| > 0 && Distinct(m.trace)
    ensures Distinct(Deliver(m, s, source).trace)
  {
    if !m.unloading && !Same(Last(m), s) {
      DistinctExtends(m.trace, Entry(s, source, m.installed, |m.streams|));
    }
  }

  lemma DeliverTrace(m: Model, s: ConnectionState, source: Source)
    requires |m.trace| > 0 && TraceSound(m.streams, m.trace)
    requires Sound(m.streams, |m.trace|, Entry(s, source, m.installed, |m.streams|))
    ensures TraceSound(Deliver(m, s, source).streams, Deliver(m, s, source).trace)
  {
    DeliverDistinct(m, s, source);
  }

  lemma {:induction false} DistinctPrefix(m: Model, i: nat, states: seq<ConnectionState>)
    requires |m.trace| > 0 && Distinct(m.trace)
    ensures Distinct(SendAll(m, i, states).trace)
    decreases |states|
  {
    if states != [] {
      var before, s := SendAll(m, i, states[..|states| - 1]), states[|states| - 1];
      DistinctPrefix(m, i, states[..|states| - 1]);
      DeliverDistinct(before.(heard := before.heard || !s.Disconnected?), s, FromSubscription(i));
    }
  }

  lemma DistinctAttach(m: Model, p: Provider, prefix: seq<ConnectionState>)
    requires |m.trace| > 0 && Distinct(m.trace)
    ensures Distinct(Attach(m, p, prefix).trace)
  {
    DistinctPrefix(m.(streams := m.streams + [p], inner := Attached(|m.streams|), heard := false), |m.streams|, prefix);
  }

  lemma DistinctAutoDeliver(m: Model, s: ConnectionState, prefix: seq<ConnectionState>)
    requires |m.trace| > 0 && Distinct(m.trace)
    ensures Distinct(AutoDeliver(m, s, prefix).trace)
  {
    DeliverDistinct(m, s, FromAutoConnect);
    var d := Deliver(m, s, FromAutoConnect).(decided := None);
    match d.installed
    case Some(p) => DistinctAttach(d, p, prefix);
    case None => DeliverDistinct(d.(inner := NoProvider), Disconnected(None), FromReset);
  }

  lemma DistinctReset(m: Model)
    requires |m.trace| > 0 && Distinct(m.trace)
    ensures Distinct(Reset(m).trace)
  {
    DeliverDistinct(Emptied(m), Disconnected(None), FromReset);
  }

  lemma DistinctStep(m: Model, e: Event)
    requires |m.trace| > 0 && Distinct(m.trace)
    ensures Distinct(Step(m, e).trace)
  {
    if Enabled(m, e) {
      match e
      case AutoDelivers(prefix) => DistinctAutoDeliver(m, m.decided.value, prefix);
      case Sends(i, s) => DeliverDistinct(m.(heard := m.heard || !s.Disconnected?), s, FromSubscription(i));
      case ConnectCalled => DistinctReset(m);
      case ConnectResumes(p, prefix) => DistinctAttach(m.(connects := m.connects - 1, installed := Some(p)), p, prefix);
      case DisconnectResumes => DistinctReset(m);
      case Subscribed => DistinctReset(m);
      case _ =>
    }
  }

  /** In every run of either version, drops included. */
  lemma {:induction false} DistinctRun(m: Model, events: seq<Event>)
    requires |m.trace| > 0 && Distinct(m.trace)
    ensures Distinct(Run(m, events).trace)
    decreases |events|
  {
    if events != [] {
      DistinctRun(m, events[..|events| - 1]);
      DistinctStep(Run(m, events[..|events| - 1]), events[|events| - 1]);
    }
  }

  // ---- a stream while it is being subscribed to ----

  lemma SendKeeps(m: Model, i: nat, s: ConnectionState)
    requires Invariant(m) && !m.inner.Unattached?
    ensures Invariant(Send(m, i, s))
  {
    if m.inner == Attached(i) {
      SameIsKeyEquality(Last(m), s);
      DeliverTrace(m.(heard := m.heard || !s.Disconnected?), s, FromSubscription(i));
    }
  }

  /** Where subscription `i` leaves the model `m` it was attached in: dropped, or still attached. */
  predicate Left(m: Model, i: nat, r: Model, dropped: bool, quiet: bool)
    requires |m.trace| > 0 && |r.trace| > 0
  {
    if dropped
    then && r.installed.None? && (HasClear(r.clears) <==> HasClear(m.clears) || m.stored.Some?)
         && (m.rxjs.V7? ==> r.inner.NoProvider? && Last(r).Disconnected?)
    else && r.inner == Attached(i) && r.installed == m.installed && r.clears == m.clears
         && (Last(r).Disconnected? <==> Last(m).Disconnected? && quiet)
  }

  lemma ReceiveLeft(m: Model, i: nat, r: Model, dropped: bool, quiet: bool, s: ConnectionState)
    requires |m.trace| > 0 && |r.trace| > 0 && !r.unloading && r.subscribers > 0 && m.installed.Some?
    requires r.stored == m.stored && r.rxjs == m.rxjs && Left(m, i, r, dropped, quiet) && !r.inner.Unattached?
    ensures var drops := s.Disconnected? && !(Last(m).Disconnected? && quiet);
      Left(m, i, if m.rxjs.V6? then Receive(r, i, s) else Send(r, i, s), dropped || drops, quiet && s.Disconnected?)
  {
    SameIsKeyEquality(Last(r), s);
    ClearsGrow(r.clears, r.stored, r.subscribers);
  }

  /** What a provider's synchronous prefix does, in either version and any state, told without replaying it. */
  lemma {:induction false} PrefixLeaves(m: Model, i: nat, states: seq<ConnectionState>)
    requires |m.trace| > 0 && m.inner == Attached(i) && m.installed.Some? && !m.unloading && m.subscribers > 0
    ensures Left(m, i, SendAll(m, i, states), Drops(Last(m), states), AllDisconnected(states))
    decreases |states|
  {
    if states != [] {
      var init, s := states[..|states| - 1], states[|states| - 1];
      DropsLast(Last(m), states);
      PrefixLeaves(m, i, init);
      ReceiveLeft(m, i, SendAll(m, i, init), Drops(Last(m), init), AllDisconnected(init), s);
    }
  }

  /** Version 6 cannot unsubscribe from a stream that drops while it is being subscribed to. */
  predicate Follows(m: Model, last: ConnectionState, prefix: seq<ConnectionState>) {
    m.rxjs.V7? || m.unloading || !Drops(last, prefix)
  }

  /** The invariant holds again after a prefix that `switchMap` can follow. */
  lemma {:induction false} PrefixOutcome(m: Model, i: nat, states: seq<ConnectionState>)
    requires Invariant(m) && m.inner == Attached(i) && Follows(m, Last(m), states)
    ensures var r := SendAll(m, i, states);
      && Invariant(r) && !r.inner.Unattached? && (m.rxjs.V6? ==> r.inner == Attached(i))
      && (!m.unloading ==> Left(m, i, r, Drops(Last(m), states), AllDisconnected(states)))
    decreases |states|
  {
    if !m.unloading { PrefixLeaves(m, i, states); }
    if states != [] {
      var init, s := states[..|states| - 1], states[|states| - 1];
      DropsLast(Last(m), states);
      PrefixOutcome(m, i, init);
      SendKeeps(SendAll(m, i, init), i, s);
    }
  }

  /** The model in which `switchMap` starts to subscribe to `p`. */
  function Attaching(m: Model, p: Provider): Model {
    m.(streams := m.streams + [p], inner := Attached(|m.streams|), heard := false)
  }

  lemma AttachingKeeps(m: Model, p: Provider)
    requires |m.trace| > 0 && m.subscribers > 0 && m.decided.None? && TraceSound(m.streams, m.trace)
    requires m.installed == Some(p)
    ensures Invariant(Attaching(m, p))
  {
    forall k | 0 <= k < |m.trace| ensures Sound(Attaching(m, p).streams, k, m.trace[k]) {
      assert Sound(m.streams, k, m.trace[k]);
    }
  }

  lemma AttachKeepsIff(m: Model, p: Provider, prefix: seq<ConnectionState>)
    requires |m.trace| > 0 && m.subscribers > 0 && m.decided.None? && TraceSound(m.streams, m.trace)
    requires m.installed == Some(p)
    ensures !Attach(m, p, prefix).inner.Unattached?
    ensures Invariant(Attach(m, p, prefix)) <==> Follows(m, Last(m), prefix)
    ensures !Follows(m, Last(m), prefix) ==> Attach(m, p, prefix).installed.None?
  {
    AttachingKeeps(m, p);
    if Follows(m, Last(m), prefix) {
      PrefixOutcome(Attaching(m, p), |m.streams|, prefix);
    } else {
      PrefixLeaves(Attaching(m, p), |m.streams|, prefix);
    }
  }

  lemma InstallKeepsIff(m: Model, p: Provider, prefix: seq<ConnectionState>)
    requires Invariant(m) && !m.inner.Unattached?
    ensures !Install(m, p, prefix).inner.Unattached?
    ensures Invariant(Install(m, p, prefix)) <==> m.installed == Some(p) || Follows(m, Last(m), prefix)
    ensures !Invariant(Install(m, p, prefix)) ==> Install(m, p, prefix).installed.None?
  {
    if m.installed != Some(p) {
      AttachKeepsIff(m.(installed := Some(p)), p, prefix);
    }
  }

  /** What installing a provider does, in either version and any live state, told from its prefix alone. */
  lemma InstallOutcome(m: Model, p: Provider, prefix: seq<ConnectionState>)
    requires |m.trace| > 0 && !m.inner.Unattached? && !m.unloading && m.subscribers > 0 && m.installed != Some(p)
    ensures var r := Install(m, p, prefix);
      && r.stored == m.stored && !r.unloading && !r.inner.Unattached?
      && if Drops(Last(m), prefix)
         then && r.installed.None? && (HasClear(r.clears) <==> HasClear(m.clears) || m.stored.Some?)
              && (m.rxjs.V7? ==> r.inner.NoProvider? && Last(r).Disconnected?)
         else && r.installed == Some(p) && r.clears == m.clears
              && (Last(r).Disconnected? <==> Last(m).Disconnected? && AllDisconnected(prefix))
  {
    PrefixLeaves(Attaching(m.(installed := Some(p)), p), |m.streams|, prefix);
  }

  // ---- every step keeps the invariant, unless it outruns switchMap ----

  lemma ResetKeeps(m: Model)
    requires Invariant(m) && !m.inner.Unattached?
    ensures Invariant(Reset(m)) && !Reset(m).inner.Unattached? && Reset(m).installed.None?
  {
    if m.installed.Some? {
      SameIsKeyEquality(Last(m), Disconnected(None));
      DeliverTrace(Emptied(m), Disconnected(None), FromReset);
    }
  }

  lemma DecideKeeps(m: Model, r: AutoResult)
    requires Invariant(m) && Enabled(m, AutoDecides(r))
    ensures Invariant(Decide(m, r))
  {
  }

  /** A stream that version 6 subscribes to drops before `switchMap` can follow. */
  predicate Outruns(m: Model, e: Event)
    requires |m.trace| > 0
  {
    Enabled(m, e) &&
    match e
    case AutoDelivers(prefix) => m.installed.Some? && !Follows(m, m.decided.value, prefix)
    case ConnectResumes(p, prefix) => m.installed != Some(p) && !Follows(m, Last(m), prefix)
    case _ => false
  }

  lemma AutoDeliverKeepsIff(m: Model, prefix: seq<ConnectionState>)
    requires Invariant(m) && Enabled(m, AutoDelivers(prefix))
    ensures var e := AutoDelivers(prefix);
      && (Invariant(Step(m, e)) <==> !Outruns(m, e)) && (Outruns(m, e) ==> Step(m, e).installed.None?)
  {
    var s := m.decided.value;
    var d := Deliver(m, s, FromAutoConnect).(decided := None);
    SameIsKeyEquality(Last(m), s);
    DeliverTrace(m, s, FromAutoConnect);
    match d.installed
    case Some(p) => AttachKeepsIff(d, p, prefix);
    case None => NothingSelected(d);
  }

  lemma NothingSelected(d: Model)
    requires |d.trace| > 0 && d.subscribers > 0 && d.decided.None? && d.installed.None? && !d.heard
    requires TraceSound(d.streams, d.trace) && (!d.unloading ==> Last(d).Disconnected?)
    ensures Invariant(Deliver(d.(inner := NoProvider), Disconnected(None), FromReset))
  {
    SameIsKeyEquality(Last(d), Disconnected(None));
    DeliverTrace(d.(inner := NoProvider), Disconnected(None), FromReset);
  }

  lemma ReplayKeeps(m: Model)
    requires Invariant(m)
    ensures Invariant(Replay(m)) && (Replay(m).inner.Unattached? <==> m.inner.Unattached?)
  {
    if Last(m).Disconnected? && !m.unloading {
      ResetKeeps(m);
    }
  }

  /** The stored id, the waiting calls and the unload flag do not enter into the invariant. */
  lemma BookkeepingKeeps(m: Model, n: Model)
    requires |m.trace| > 0 && |n.trace| > 0 && m.subscribers > 0 && n.subscribers > 0
    requires n == m.(stored := n.stored, clears := n.clears, connects := n.connects, subscribers := n.subscribers)
    requires m.inner.Unattached? ==> n.clears == m.clears && n.connects == m.connects
    ensures Invariant(n) <==> Invariant(m)
  {
  }

  /** What a connect call leaves, from what installing its provider leaves. */
  lemma ConnectStores(m: Model, p: Provider, prefix: seq<ConnectionState>)
    requires |m.trace| > 0 && Enabled(m, ConnectResumes(p, prefix))
    ensures var n, r := Install(m.(connects := m.connects - 1), p, prefix), Step(m, ConnectResumes(p, prefix));
      && r == n.(stored := if n.persistent then Some(p.id) else n.stored)
      && n.subscribers == m.subscribers && n.inner.Unattached? == m.inner.Unattached?
  {
  }

  lemma ConnectOutrunsIff(m: Model, p: Provider, prefix: seq<ConnectionState>)
    requires |m.trace| > 0 && Enabled(m, ConnectResumes(p, prefix))
    ensures var c := m.(connects := m.connects - 1);
      Outruns(m, ConnectResumes(p, prefix)) <==> m.installed != Some(p) && !Follows(c, Last(c), prefix)
  {
  }

  lemma ConnectKeepsIff(m: Model, p: Provider, prefix: seq<ConnectionState>)
    requires Invariant(m) && Enabled(m, ConnectResumes(p, prefix))
    ensures var e := ConnectResumes(p, prefix);
      && (Invariant(Step(m, e)) <==> !Outruns(m, e)) && (Outruns(m, e) ==> Step(m, e).installed.None?)
  {
    var c := m.(connects := m.connects - 1);
    BookkeepingKeeps(m, c);
    ConnectOutrunsIff(m, p, prefix);
    InstallKeepsIff(c, p, prefix);
    ConnectStores(m, p, prefix);
    BookkeepingKeeps(Install(c, p, prefix), Step(m, ConnectResumes(p, prefix)));
  }

  lemma ReplayStepKeeps(m: Model, e: Event)
    requires Invariant(m) && Enabled(m, e) && (e.ConnectCalled? || e.Subscribed?)
    ensures Invariant(Step(m, e))
  {
    ReplayKeeps(m);
    BookkeepingKeeps(Replay(m), Step(m, e));
  }

  lemma UnloadKeeps(m: Model)
    requires Invariant(m)
    ensures Invariant(Step(m, Unloads))
  {
  }

  /** One task keeps the invariant if and only if it does not outrun `switchMap`; in version 7 none does. */
  lemma StepKeepsIff(m: Model, e: Event)
    requires Invariant(m)
    ensures Invariant(Step(m, e)) <==> !Outruns(m, e)
    ensures m.rxjs.V7? ==> !Outruns(m, e)
  {
    if Enabled(m, e) {
      match e
      case AutoDecides(r) => DecideKeeps(m, r);
      case AutoDelivers(prefix) => AutoDeliverKeepsIff(m, prefix);
      case Sends(i, s) => SendKeeps(m, i, s);
      case ConnectCalled => ReplayStepKeeps(m, e);
      case ConnectResumes(p, prefix) => ConnectKeepsIff(m, p, prefix);
      case DisconnectResumes => ResetKeeps(m);
      case ClearResumes(k) => BookkeepingKeeps(m, Step(m, e));
      case Subscribed => ReplayStepKeeps(m, e);
      case Unsubscribed => BookkeepingKeeps(m, Step(m, e));
      case Unloads => UnloadKeeps(m);
    }
  }

  // ---- runs ----

  /** No task of the run outruns `switchMap`. */
  predicate Tracks(m: Model, events: seq<Event>)
    requires |m.trace| > 0
    decreases |events|
  {
    events == [] ||
    (Tracks(m, events[..|events| - 1]) && !Outruns(Run(m, events[..|events| - 1]), events[|events| - 1]))
  }

  lemma {:induction false} RunKeeps(m: Model, events: seq<Event>)
    requires Invariant(m) && Tracks(m, events)
    ensures Invariant(Run(m, events))
    decreases |events|
  {
    if events != [] {
      RunKeeps(m, events[..|events| - 1]);
      StepKeepsIff(Run(m, events[..|events| - 1]), events[|events| - 1]);
    }
  }

  lemma {:induction false} SevenTracks(m: Model, events: seq<Event>)
    requires |m.trace| > 0 && m.rxjs.V7?
    ensures Tracks(m, events)
    decreases |events|
  {
    if events != [] { SevenTracks(m, events[..|events| - 1]); }
  }

  /** The states a freshly built connector can reach. */
  ghost predicate Reachable(m: Model) {
    exists rxjs: RxJs, persistent: bool, stored: Option<string>, events: seq<Event> ::
      m == Run(Start(rxjs, persistent, stored), events)
  }

  /** The states it can reach without a task that outruns `switchMap`. */
  ghost predicate Tracked(m: Model) {
    exists rxjs: RxJs, persistent: bool, stored: Option<string>, events: seq<Event> ::
      Tracks(Start(rxjs, persistent, stored), events) && m == Run(Start(rxjs, persistent, stored), events)
  }

  lemma TrackedInvariant(m: Model)
    requires Tracked(m)
    ensures Invariant(m)
  {
    var rxjs, persistent, stored, events :|
      Tracks(Start(rxjs, persistent, stored), events) && m == Run(Start(rxjs, persistent, stored), events);
    RunKeeps(Start(rxjs, persistent, stored), events);
  }

  /** Under version 7 every reachable state is tracked. */
  lemma ReachableTracked(m: Model)
    requires Reachable(m) && m.rxjs.V7?
    ensures Tracked(m) && Invariant(m)
  {
    var rxjs, persistent, stored, events :| m == Run(Start(rxjs, persistent, stored), events);
    SevenTracks(Start(rxjs, persistent, stored), events);
    RunKeeps(Start(rxjs, persistent, stored), events);
  }
}
