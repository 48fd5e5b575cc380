/**
 * The connector's main results, each for every consistent or every reachable state, or for every continuation of a
 * run.
 *
 * Under version 7 of RxJS every reachable state satisfies the invariant (`ReachableTracked`) and is consistent. Under
 * version 6 a state is consistent unless a stream that dropped while it was being subscribed to has spoken again; what
 * happens then, and how a later `connect` recovers, is at the end.
 */
module ConnectorTheorems {
  import opened Wrappers
  import opened ConnectionStates
  import opened ConnectorModel
  import opened ConnectorPrefixes
  import opened ConnectorRuns
  import opened ConnectorDrops

  predicate Live(m: Model) {
    !m.inner.Unattached? && !m.unloading
  }

  // ---- the subject and the last state ----

  /** Nothing is installed exactly when the last state is disconnected. */
  predicate Agrees(m: Model)
    requires |m.trace| > 0
  {
    m.installed.None? <==> Last(m).Disconnected?
  }

  /** Once the installed provider has announced itself: nothing is installed iff the last state is disconnected. */
  lemma EmptyIffDisconnected(m: Model)
    requires Consistent(m) && Live(m)
    requires m.installed.None? || m.heard
    ensures Agrees(m)
  {
  }

  // ---- streams that announce themselves ----

  /** The stream sends something other than disconnected before its subscription call returns. */
  predicate Announces(prefix: seq<ConnectionState>) {
    prefix != [] && !prefix[0].Disconnected?
  }

  predicate Announcing(e: Event) {
    match e
    case AutoDelivers(prefix) => Announces(prefix)
    case ConnectResumes(_, prefix) => Announces(prefix)
    case _ => true
  }

  predicate HeardOnceInstalled(m: Model) {
    m.installed.Some? && !m.inner.Unattached? ==> m.heard
  }

  lemma ReceiveHeard(m: Model, i: nat, s: ConnectionState)
    requires |m.trace| > 0 && !m.inner.Unattached? && (HeardOnceInstalled(m) || !s.Disconnected?)
    ensures HeardOnceInstalled(Receive(m, i, s))
  {
  }

  lemma {:induction false} PrefixHeard(m: Model, i: nat, prefix: seq<ConnectionState>)
    requires |m.trace| > 0 && m.inner == Attached(i) && Announces(prefix)
    ensures HeardOnceInstalled(SendAll(m, i, prefix))
    decreases |prefix|
  {
    var init := prefix[..|prefix| - 1];
    if init != [] { PrefixHeard(m, i, init); }
    ReceiveHeard(SendAll(m, i, init), i, prefix[|prefix| - 1]);
  }

  lemma AttachHeard(m: Model, p: Provider, prefix: seq<ConnectionState>)
    requires |m.trace| > 0 && Announces(prefix)
    ensures HeardOnceInstalled(Attach(m, p, prefix))
  {
    PrefixHeard(Attaching(m, p), |m.streams|, prefix);
  }

  lemma AutoDeliverHeard(m: Model, prefix: seq<ConnectionState>)
    requires |m.trace| > 0 && HeardOnceInstalled(m) && Enabled(m, AutoDelivers(prefix)) && Announces(prefix)
    ensures HeardOnceInstalled(Step(m, AutoDelivers(prefix)))
  {
    var d := Deliver(m, m.decided.value, FromAutoConnect).(decided := None);
    if d.installed.Some? { AttachHeard(d, d.installed.value, prefix); }
  }

  lemma ConnectHeard(m: Model, p: Provider, prefix: seq<ConnectionState>)
    requires |m.trace| > 0 && HeardOnceInstalled(m) && Enabled(m, ConnectResumes(p, prefix)) && Announces(prefix)
    ensures HeardOnceInstalled(Step(m, ConnectResumes(p, prefix)))
  {
    AttachHeard(m.(connects := m.connects - 1, installed := Some(p)), p, prefix);
  }

  lemma ReplayHeard(m: Model)
    requires |m.trace| > 0 && HeardOnceInstalled(m)
    ensures HeardOnceInstalled(Reset(m)) && HeardOnceInstalled(Replay(m))
  {
  }

  lemma StepHeard(m: Model, e: Event)
    requires |m.trace| > 0 && HeardOnceInstalled(m) && Announcing(e)
    ensures HeardOnceInstalled(Step(m, e))
  {
    if Enabled(m, e) {
      match e
      case AutoDelivers(prefix) => AutoDeliverHeard(m, prefix);
      case Sends(i, s) => if m.inner == Attached(i) { ReceiveHeard(m, i, s); }
      case ConnectResumes(p, prefix) => ConnectHeard(m, p, prefix);
      case ConnectCalled => ReplayHeard(m);
      case DisconnectResumes => ReplayHeard(m);
      case Subscribed => ReplayHeard(m);
      case _ =>
    }
  }

  lemma {:induction false} RunHeard(m: Model, events: seq<Event>)
    requires |m.trace| > 0 && HeardOnceInstalled(m) && forall k :: 0 <= k < |events| ==> Announcing(events[k])
    ensures HeardOnceInstalled(Run(m, events))
    decreases |events|
  {
    if events != [] {
      RunHeard(m, events[..|events| - 1]);
      StepHeard(Run(m, events[..|events| - 1]), events[|events| - 1]);
    }
  }

  /**
   * If every provider stream announces itself, then between auto-connect and page unload every state has nothing
   * installed exactly when the last emitted state is disconnected: in every run under version 7, and under version 6
   * in every run in which no stream speaks after it has dropped.
   */
  lemma AnnouncedRunsAgree(rxjs: RxJs, persistent: bool, stored: Option<string>, events: seq<Event>)
    requires forall k :: 0 <= k < |events| ==> Announcing(events[k])
    requires rxjs.V7? || DropsStaySilent(Start(rxjs, persistent, stored), events)
    ensures var m := Run(Start(rxjs, persistent, stored), events);
      && (Live(m) ==> Agrees(m))
      && forall k :: 2 <= k < |m.trace| ==> FromInstalled(m, k)
  {
    var s := Start(rxjs, persistent, stored);
    if rxjs.V7? { SevenStaysSilent(s, events); }
    RunHeard(s, events);
    RunConsistent(s, events);
    var m := Run(s, events);
    forall k | 2 <= k < |m.trace| ensures FromInstalled(m, k) { EmissionsComeFromInstalled(m, k); }
  }

  /** A dropped stream that speaks breaks the agreement at once. */
  lemma SpeakingBreaksAgreement(m: Model, i: nat, s: ConnectionState)
    requires Consistent(m) && DroppedSpeaks(m, Sends(i, s))
    ensures !Agrees(Step(m, Sends(i, s)))
  {
    SameIsKeyEquality(Last(m), s);
  }

  /**
   * Right after `connect` the agreement fails exactly when a new provider is installed silently while the last state
   * says disconnected, or the provider was installed already and had not announced itself; and, after a drop that
   * version 6 cannot follow, when the stream has said something else since. A mapped provider is always silent at
   * first: it is installed one microtask before its first state.
   */
  lemma ConnectAgreesIffAnnounced(m: Model, p: Provider, prefix: seq<ConnectionState>)
    requires |m.trace| > 0 && m.subscribers > 0 && Live(m) && m.connects > 0
    ensures Outruns(m, ConnectResumes(p, prefix)) ==> prefix != []
    ensures Agrees(Step(m, ConnectResumes(p, prefix))) <==>
      if m.installed == Some(p) then !Last(m).Disconnected?
      else if Outruns(m, ConnectResumes(p, prefix)) then prefix[|prefix| - 1].Disconnected?
      else !(Last(m).Disconnected? && AllDisconnected(prefix))
  {
    var c := m.(connects := m.connects - 1);
    ConnectIsInstall(m, p, prefix);
    ConnectOutrunsIff(m, p, prefix);
    if m.installed != Some(p) {
      InstallOutcome(c, p, prefix);
      if Outruns(m, ConnectResumes(p, prefix)) {
        InstallShows(c, p, prefix);
      } else {
        DropsNeedsAnother(Last(m), prefix);
      }
    }
  }

  /** After a delivery the last state is disconnected if and only if the state delivered is. */
  lemma ReceiveShows(m: Model, i: nat, s: ConnectionState)
    requires |m.trace| > 0 && !m.unloading
    ensures Last(Receive(m, i, s)).Disconnected? <==> s.Disconnected?
  {
    SameIsKeyEquality(Last(m), s);
  }

  /** Version 6 lets the whole prefix through, so its last state is on show. */
  lemma InstallShows(m: Model, p: Provider, prefix: seq<ConnectionState>)
    requires |m.trace| > 0 && m.rxjs.V6? && Live(m) && m.installed != Some(p) && prefix != []
    ensures Last(Install(m, p, prefix)).Disconnected? <==> prefix[|prefix| - 1].Disconnected?
  {
    var attaching := Attaching(m.(installed := Some(p)), p);
    ReceiveShows(SendAll(attaching, |m.streams|, prefix[..|prefix| - 1]), |m.streams|, prefix[|prefix| - 1]);
  }

  lemma DropsNeedsAnother(last: ConnectionState, states: seq<ConnectionState>)
    ensures Drops(last, states) ==> !(last.Disconnected? && AllDisconnected(states))
  {
    if last.Disconnected? { DropsAfterDisconnected(last, states); }
  }

  lemma ConnectIsInstall(m: Model, p: Provider, prefix: seq<ConnectionState>)
    requires |m.trace| > 0 && Live(m) && m.connects > 0
    ensures var r, n := Step(m, ConnectResumes(p, prefix)), Install(m.(connects := m.connects - 1), p, prefix);
      |n.trace| > 0 && r.installed == n.installed && Last(r) == Last(n)
  {
  }

  // ---- the emitted trace ----

  /** Unless it is disconnected, the emission comes from the newest subscription, the then installed provider's. */
  predicate FromInstalled(m: Model, k: nat)
    requires k < |m.trace|
  {
    var e := m.trace[k];
    !e.state.Disconnected? ==>
      && e.source.FromSubscription?
      && e.source.index + 1 == e.streamsThen <= |m.streams|
      && e.installed == Some(m.streams[e.source.index])
  }

  /** So do all emissions after auto-connect. */
  lemma EmissionsComeFromInstalled(m: Model, k: nat)
    requires Consistent(m) && 2 <= k < |m.trace|
    ensures FromInstalled(m, k)
  {
    assert Sound(m.streams, k, m.trace[k]);
  }

  /** In either version, and in every run. */
  lemma NoRepeatedState(m: Model, k: nat)
    requires Reachable(m) && 0 < k < |m.trace|
    ensures KeyOf(m.trace[k - 1].state) != KeyOf(m.trace[k].state)
  {
    var rxjs, persistent, stored, events :| m == Run(Start(rxjs, persistent, stored), events);
    DistinctRun(Start(rxjs, persistent, stored), events);
    assert Differs(m.trace, k);
    SameIsKeyEquality(m.trace[k - 1].state, m.trace[k].state);
  }

  /** A disconnected state from an announced provider adds one emission and no more, although it resets the subject. */
  lemma DisconnectEmitsOnce(m: Model, i: nat, error: Option<string>)
    requires Consistent(m) && Live(m) && m.inner == Attached(i) && m.heard
    ensures i < |m.streams|
    ensures var r := Step(m, Sends(i, Disconnected(error)));
      && r.trace == m.trace + [Entry(Disconnected(error), FromSubscription(i), Some(m.streams[i]), |m.streams|)]
      && r.installed.None? && r.inner.NoProvider?
  {
    SameIsKeyEquality(Last(m), Disconnected(error));
  }

  // ---- superseded subscriptions ----

  /** `n` extends `m`, and nothing in the extension comes from subscription `i`, which stays detached. */
  predicate Quiet(m: Model, n: Model, i: nat) {
    && m.trace <= n.trace && i < |m.streams| <= |n.streams| && n.inner != Attached(i)
    && (forall k :: |m.trace| <= k < |n.trace| ==> n.trace[k].source != FromSubscription(i))
  }

  lemma QuietDeliver(m: Model, i: nat, s: ConnectionState, source: Source)
    requires |m.trace| > 0 && i < |m.streams| && m.inner != Attached(i) && source != FromSubscription(i)
    ensures Quiet(m, Deliver(m, s, source), i)
  {
  }

  lemma {:induction false} QuietPrefix(m: Model, i: nat, j: nat, states: seq<ConnectionState>)
    requires |m.trace| > 0 && i < |m.streams| && m.inner != Attached(i) && i != j
    ensures Quiet(m, SendAll(m, j, states), i)
    decreases |states|
  {
    if states != [] {
      var before, s := SendAll(m, j, states[..|states| - 1]), states[|states| - 1];
      QuietPrefix(m, i, j, states[..|states| - 1]);
      QuietDeliver(before.(heard := before.heard || !s.Disconnected?), i, s, FromSubscription(j));
    }
  }

  lemma QuietAttach(m: Model, i: nat, p: Provider, prefix: seq<ConnectionState>)
    requires |m.trace| > 0 && i < |m.streams| && m.inner != Attached(i)
    ensures Quiet(m, Attach(m, p, prefix), i)
  {
    QuietPrefix(Attaching(m, p), i, |m.streams|, prefix);
  }

  lemma QuietReplay(m: Model, i: nat)
    requires |m.trace| > 0 && i < |m.streams| && m.inner != Attached(i)
    ensures Quiet(m, Reset(m), i) && Quiet(m, Replay(m), i)
  {
    QuietDeliver(Emptied(m), i, Disconnected(None), FromReset);
  }

  lemma QuietAutoDeliver(m: Model, i: nat, s: ConnectionState, prefix: seq<ConnectionState>)
    requires |m.trace| > 0 && i < |m.streams| && m.inner != Attached(i)
    ensures Quiet(m, AutoDeliver(m, s, prefix), i)
  {
    QuietDeliver(m, i, s, FromAutoConnect);
    var d := Deliver(m, s, FromAutoConnect).(decided := None);
    match d.installed
    case Some(p) => QuietAttach(d, i, p, prefix);
    case None => QuietDeliver(d.(inner := NoProvider), i, Disconnected(None), FromReset);
  }

  lemma QuietSend(m: Model, i: nat, j: nat, s: ConnectionState)
    requires |m.trace| > 0 && i < |m.streams| && m.inner != Attached(i)
    ensures Quiet(m, Send(m, j, s), i)
  {
    if m.inner == Attached(j) {
      QuietDeliver(m.(heard := m.heard || !s.Disconnected?), i, s, FromSubscription(j));
    }
  }

  lemma QuietConnect(m: Model, i: nat, p: Provider, prefix: seq<ConnectionState>)
    requires |m.trace| > 0 && i < |m.streams| && m.inner != Attached(i)
    ensures Quiet(m, Step(m, ConnectResumes(p, prefix)), i)
  {
    if m.connects > 0 { QuietAttach(m.(connects := m.connects - 1, installed := Some(p)), i, p, prefix); }
  }

  lemma QuietStep(m: Model, i: nat, e: Event)
    requires |m.trace| > 0 && i < |m.streams| && m.inner != Attached(i)
    ensures Quiet(m, Step(m, e), i)
  {
    if Enabled(m, e) {
      match e
      case AutoDelivers(prefix) => QuietAutoDeliver(m, i, m.decided.value, prefix);
      case Sends(j, s) => QuietSend(m, i, j, s);
      case ConnectResumes(p, prefix) => QuietConnect(m, i, p, prefix);
      case ConnectCalled => QuietReplay(m, i);
      case DisconnectResumes => QuietReplay(m, i);
      case Subscribed => QuietReplay(m, i);
      case _ =>
    }
  }

  /** A detached subscription is never heard again, whatever it and the others send later. */
  lemma {:induction false} DetachedIsSilent(m: Model, i: nat, events: seq<Event>)
    requires |m.trace| > 0 && i < |m.streams| && m.inner != Attached(i)
    ensures Quiet(m, Run(m, events), i)
    decreases |events|
  {
    if events != [] {
      var init := events[..|events| - 1];
      DetachedIsSilent(m, i, init);
      QuietStep(Run(m, init), i, events[|events| - 1]);
    }
  }

  /** `switchMap` never listens to any but the newest subscription. */
  predicate NewestOnly(m: Model) {
    m.inner.Attached? ==> m.inner.index + 1 == |m.streams|
  }

  lemma NewestStep(m: Model, e: Event)
    requires |m.trace| > 0 && NewestOnly(m)
    ensures NewestOnly(Step(m, e))
  {
  }

  lemma {:induction false} NewestRun(m: Model, events: seq<Event>)
    requires |m.trace| > 0 && NewestOnly(m)
    ensures NewestOnly(Run(m, events))
    decreases |events|
  {
    if events != [] {
      NewestRun(m, events[..|events| - 1]);
      NewestStep(Run(m, events[..|events| - 1]), events[|events| - 1]);
    }
  }

  /** In either version, and in every run: once a newer subscription is open, an older one is never heard again. */
  lemma SupersededIsSilent(m: Model, i: nat, events: seq<Event>)
    requires Reachable(m) && i + 1 < |m.streams|
    ensures Quiet(m, Run(m, events), i)
  {
    var rxjs, persistent, stored, before :| m == Run(Start(rxjs, persistent, stored), before);
    NewestRun(Start(rxjs, persistent, stored), before);
    DetachedIsSilent(m, i, events);
  }

  /** So is, in a state that satisfies the invariant, every subscription once nothing is installed any more. */
  lemma RemovedIsSilent(m: Model, i: nat, events: seq<Event>)
    requires Invariant(m) && i < |m.streams| && m.installed.None?
    ensures Quiet(m, Run(m, events), i)
  {
    DetachedIsSilent(m, i, events);
  }

  // ---- unloading ----

  lemma {:induction false} FrozenPrefix(m: Model, j: nat, states: seq<ConnectionState>)
    requires |m.trace| > 0 && m.unloading
    ensures SendAll(m, j, states).trace == m.trace
    decreases |states|
  {
    if states != [] { FrozenPrefix(m, j, states[..|states| - 1]); }
  }

  lemma FrozenAttach(m: Model, p: Provider, prefix: seq<ConnectionState>)
    requires |m.trace| > 0 && m.unloading
    ensures Attach(m, p, prefix).trace == m.trace && Attach(m, p, prefix).unloading
  {
    FrozenPrefix(Attaching(m, p), |m.streams|, prefix);
  }

  lemma FrozenStep(m: Model, e: Event)
    requires |m.trace| > 0 && m.unloading
    ensures Step(m, e).trace == m.trace && Step(m, e).unloading
  {
    match e
    case AutoDelivers(prefix) =>
      if Enabled(m, e) && m.installed.Some? { FrozenAttach(m.(decided := None), m.installed.value, prefix); }
    case ConnectResumes(p, prefix) =>
      if m.connects > 0 { FrozenAttach(m.(connects := m.connects - 1, installed := Some(p)), p, prefix); }
    case _ =>
  }

  /** After the page starts unloading no state is emitted any more. */
  lemma {:induction false} UnloadFreezes(m: Model, events: seq<Event>)
    requires |m.trace| > 0 && m.unloading
    ensures Run(m, events).trace == m.trace && Run(m, events).unloading
    decreases |events|
  {
    if events != [] {
      UnloadFreezes(m, events[..|events| - 1]);
      FrozenStep(Run(m, events[..|events| - 1]), events[|events| - 1]);
    }
  }

  // ---- version 6: a stream that drops while it is being subscribed to ----

  lemma OutrunLeaves(m: Model, e: Event)
    requires Consistent(m) && Outruns(m, e)
    ensures var r := Step(m, e);
      r.inner == Attached(|m.streams|) && |r.streams| == |m.streams| + 1 && r.installed.None? && !r.unloading
  {
    match e
    case AutoDelivers(prefix) => AutoDeliverKeepsIff(m, prefix);
    case ConnectResumes(p, prefix) =>
      DropLeavesNothing(m, p, prefix);
      ConnectStores(m, p, prefix);
  }

  lemma HeardWithoutProvider(m: Model, i: nat, s: ConnectionState)
    requires |m.trace| > 0 && m.inner == Attached(i) && i + 1 == |m.streams| && m.installed.None? && !m.unloading
    requires !s.Disconnected? && !Same(Last(m), s)
    ensures var r := Step(m, Sends(i, s));
      r.trace == m.trace + [Entry(s, FromSubscription(i), None, i + 1)] && r.installed.None? && r.inner == Attached(i)
  {
  }

  /**
   * Nothing is installed afterwards, but the stream is still listened to: whatever it says next is emitted, so that
   * a connecting or connected state is on show without a provider.
   */
  lemma OutrunStreamStaysHeard(m: Model, e: Event, s: ConnectionState)
    requires Consistent(m) && Outruns(m, e) && !s.Disconnected?
    ensures var i, r := |m.streams|, Step(m, e); var n := Step(r, Sends(i, s));
      && r.inner == Attached(i) && r.installed.None?
      && (!Same(Last(r), s) ==>
            n.trace == r.trace + [Entry(s, FromSubscription(i), None, i + 1)] && n.installed.None? && !Agrees(n))
  {
    OutrunLeaves(m, e);
    if !Same(Last(Step(m, e)), s) { HeardWithoutProvider(Step(m, e), |m.streams|, s); }
  }

  /**
   * Whatever state the connector is in, provided the trace is sound: connecting a new provider brings the whole
   * invariant back if and only if `switchMap` can follow its stream.
   */
  lemma ReconnectRecoversIff(m: Model, p: Provider, prefix: seq<ConnectionState>)
    requires |m.trace| > 0 && TraceSound(m.streams, m.trace) && m.subscribers > 0 && m.decided.None?
    requires Enabled(m, ConnectResumes(p, prefix)) && m.installed != Some(p)
    ensures Invariant(Step(m, ConnectResumes(p, prefix))) <==> Follows(m, Last(m), prefix)
  {
    var c := m.(connects := m.connects - 1);
    AttachKeepsIff(c.(installed := Some(p)), p, prefix);
    ConnectStores(m, p, prefix);
    BookkeepingKeeps(Install(c, p, prefix), Step(m, ConnectResumes(p, prefix)));
  }

  /**
   * So a stream that drops and says nothing more leaves no mark: the next `connect` brings the invariant back if and
   * only if `switchMap` can follow its stream.
   */
  lemma DropThenReconnectIff(m: Model, p: Provider, prefix: seq<ConnectionState>, q: Provider,
                             later: seq<ConnectionState>)
    requires Consistent(m) && Live(m) && Outruns(m, ConnectResumes(p, prefix))
    requires !DroppedSpeaks(m, ConnectResumes(p, prefix))
    ensures var called := Step(Step(m, ConnectResumes(p, prefix)), ConnectCalled);
      Invariant(Step(called, ConnectResumes(q, later))) <==> Follows(called, Last(called), later)
  {
    var r := Step(m, ConnectResumes(p, prefix));
    StepConsistentIff(m, ConnectResumes(p, prefix));
    DropLeavesNothing(m, p, prefix);
    StepConsistentIff(r, ConnectCalled);
    CallAfterDrop(r);
    ReconnectRecoversIff(Step(r, ConnectCalled), q, later);
  }

  lemma DropLeavesNothing(m: Model, p: Provider, prefix: seq<ConnectionState>)
    requires Consistent(m) && Outruns(m, ConnectResumes(p, prefix))
    ensures var r := Step(m, ConnectResumes(p, prefix));
      r.installed.None? && !r.inner.Unattached? && r.decided.None? && !r.unloading
  {
    var c := m.(connects := m.connects - 1);
    ConnectOutrunsIff(m, p, prefix);
    InstallOutcome(c, p, prefix);
    ConnectStores(m, p, prefix);
  }

  lemma CallAfterDrop(r: Model)
    requires |r.trace| > 0 && r.installed.None? && !r.inner.Unattached? && r.decided.None?
    ensures var called := Step(r, ConnectCalled);
      called.installed.None? && !called.inner.Unattached? && called.decided.None? && called.connects == r.connects + 1
  {
  }
}
