/** Runs on which the connector loses track: of the stored id, or of a stream. Each step is told in full. */
module ConnectorWitnesses {
  import opened Wrappers
  import opened ConnectionStates
  import opened ConnectorModel
  import opened ConnectorPrefixes
  import opened ConnectorRuns
  import opened ConnectorTheorems
  import opened ConnectorStored

  // ---- one more step ----

  lemma StartTracked(rxjs: RxJs, persistent: bool, stored: Option<string>)
    ensures Tracked(Start(rxjs, persistent, stored))
  {
    assert Run(Start(rxjs, persistent, stored), []) == Start(rxjs, persistent, stored);
    assert Tracks(Start(rxjs, persistent, stored), []);
  }

  lemma TrackedReachable(m: Model)
    requires Tracked(m)
    ensures Reachable(m)
  {
  }

  lemma StepReachable(m: Model, e: Event)
    requires Reachable(m)
    ensures Reachable(Step(m, e))
  {
    var rxjs, persistent, stored, events :| m == Run(Start(rxjs, persistent, stored), events);
    assert (events + [e])[..|events + [e]| - 1] == events;
    assert Step(m, e) == Run(Start(rxjs, persistent, stored), events + [e]);
  }

  lemma StepTracked(m: Model, e: Event)
    requires Tracked(m) && !Outruns(m, e)
    ensures Tracked(Step(m, e))
  {
    var rxjs, persistent, stored, events :|
      Tracks(Start(rxjs, persistent, stored), events) && m == Run(Start(rxjs, persistent, stored), events);
    assert (events + [e])[..|events + [e]| - 1] == events;
    assert Tracks(Start(rxjs, persistent, stored), events + [e]);
    assert Step(m, e) == Run(Start(rxjs, persistent, stored), events + [e]);
  }

  lemma PlainTracked(m: Model, e: Event)
    requires Tracked(m) && !e.AutoDelivers? && !e.ConnectResumes?
    ensures Tracked(Step(m, e))
  {
    StepTracked(m, e);
  }

  lemma ConnectTracked(m: Model, p: Provider, prefix: seq<ConnectionState>)
    requires Tracked(m) && NoneDisconnected(prefix)
    ensures Tracked(Step(m, ConnectResumes(p, prefix)))
  {
    StepTracked(m, ConnectResumes(p, prefix));
  }

  // ---- steps told in full ----

  lemma DeliversNothing(m: Model)
    requires |m.trace| > 0 && m.inner.Unattached? && m.installed.None? && !m.unloading && m.subscribers == 1
    requires m.decided == Some(Disconnected(None)) && Last(m).Initializing?
    ensures Step(m, AutoDelivers([])) ==
      m.(trace := m.trace + [Entry(Disconnected(None), FromAutoConnect, None, |m.streams|)], decided := None,
         inner := NoProvider, clears := m.clears + [m.stored])
  {
    SameIsKeyEquality(Last(m), Disconnected(None));
    assert seq(1, _ => m.stored) == [m.stored];
  }

  /** Nothing is installed, and the last state says so. */
  predicate Idle(m: Model) {
    |m.trace| > 0 && !m.inner.Unattached? && m.installed.None? && !m.unloading && Last(m).Disconnected?
  }

  /** With nothing installed a connect call replays the disconnected state, and so reads the stored id once more. */
  lemma CallsWhenIdle(m: Model)
    requires Idle(m)
    ensures Step(m, ConnectCalled) == m.(clears := m.clears + [m.stored], connects := m.connects + 1)
    ensures Idle(Step(m, ConnectCalled))
  {
  }

  lemma ReceivesShown(m: Model, i: nat, s: ConnectionState)
    requires |m.trace| > 0 && !m.unloading && !s.Disconnected? && KeyOf(Last(m)) != KeyOf(s)
    ensures Receive(m, i, s) ==
      m.(trace := m.trace + [Entry(s, FromSubscription(i), m.installed, |m.streams|)], heard := true)
  {
    SameIsKeyEquality(Last(m), s);
  }

  lemma ReceivesDrop(m: Model, i: nat, error: Option<string>)
    requires |m.trace| > 0 && !m.unloading && !m.inner.Unattached? && m.installed.Some? && !Last(m).Disconnected?
    ensures Receive(m, i, Disconnected(error)) ==
      m.(trace := m.trace + [Entry(Disconnected(error), FromSubscription(i), m.installed, |m.streams|)],
         installed := None, inner := NoProvider, heard := false,
         clears := m.clears + seq(m.subscribers, _ => m.stored))
  {
    SameIsKeyEquality(Last(m), Disconnected(error));
  }

  lemma SendsOne(m: Model, i: nat, s: ConnectionState)
    requires |m.trace| > 0 && m.inner == Attached(i)
    ensures SendAll(m, i, [s]) == Receive(m, i, s)
  {
    assert [s][..0] == [] && SendAll(m, i, []) == m;
  }

  lemma SendsTwo(m: Model, i: nat, s: ConnectionState, t: ConnectionState)
    requires |m.trace| > 0 && m.inner == Attached(i) && !s.Disconnected?
    ensures SendAll(m, i, [s, t]) == Receive(Receive(m, i, s), i, t)
  {
    assert [s, t][..1] == [s];
    SendsOne(m, i, s);
  }

  lemma ConnectsFresh(m: Model, p: Provider)
    requires Idle(m) && m.connects > 0 && m.persistent
    ensures Step(m, ConnectResumes(p, [Connecting(p.id)])) ==
      m.(trace := m.trace + [Entry(Connecting(p.id), FromSubscription(|m.streams|), Some(p), |m.streams| + 1)],
         connects := m.connects - 1, installed := Some(p), streams := m.streams + [p], inner := Attached(|m.streams|),
         heard := true, stored := Some(p.id))
  {
    var attaching := Attaching(m.(connects := m.connects - 1, installed := Some(p)), p);
    SendsOne(attaching, |m.streams|, Connecting(p.id));
    ReceivesShown(attaching, |m.streams|, Connecting(p.id));
  }

  /** A stream that says nothing while it is being subscribed to. */
  lemma ConnectsSilently(m: Model, p: Provider)
    requires Idle(m) && m.connects > 0 && m.persistent
    ensures Step(m, ConnectResumes(p, [])) ==
      m.(connects := m.connects - 1, installed := Some(p), streams := m.streams + [p], inner := Attached(|m.streams|),
         heard := false, stored := Some(p.id))
  {
    var attaching := Attaching(m.(connects := m.connects - 1, installed := Some(p)), p);
    assert SendAll(attaching, |m.streams|, []) == attaching;
  }

  lemma AttachesAndDrops(m: Model, p: Provider)
    requires |m.trace| > 0 && !m.unloading && m.installed == Some(p) && Last(m).Disconnected? && m.subscribers == 1
    ensures var i := |m.streams|;
      Attach(m, p, [Connecting(p.id), Disconnected(None)]) ==
      m.(trace := m.trace + [Entry(Connecting(p.id), FromSubscription(i), Some(p), i + 1)]
                          + [Entry(Disconnected(None), FromSubscription(i), Some(p), i + 1)],
         streams := m.streams + [p], inner := if m.rxjs.V6? then Attached(i) else NoProvider,
         installed := None, heard := false, clears := m.clears + [m.stored])
  {
    var i, attaching := |m.streams|, Attaching(m, p);
    SendsTwo(attaching, i, Connecting(p.id), Disconnected(None));
    ReceivesShown(attaching, i, Connecting(p.id));
    ReceivesDrop(Receive(attaching, i, Connecting(p.id)), i, None);
    assert seq(1, _ => m.stored) == [m.stored];
  }

  /** A stream that drops while it is being subscribed to: version 6 stays attached to it. */
  lemma ConnectsAndDrops(m: Model, p: Provider)
    requires Idle(m) && m.connects > 0 && m.persistent && m.subscribers == 1
    ensures var i := |m.streams|;
      Step(m, ConnectResumes(p, [Connecting(p.id), Disconnected(None)])) ==
      m.(trace := m.trace + [Entry(Connecting(p.id), FromSubscription(i), Some(p), i + 1)]
                          + [Entry(Disconnected(None), FromSubscription(i), Some(p), i + 1)],
         connects := m.connects - 1, streams := m.streams + [p],
         inner := if m.rxjs.V6? then Attached(i) else NoProvider,
         heard := false, clears := m.clears + [m.stored], stored := Some(p.id))
  {
    ConnectStores(m, p, [Connecting(p.id), Disconnected(None)]);
    AttachesAndDrops(m.(connects := m.connects - 1, installed := Some(p)), p);
  }

  lemma Speaks(m: Model, i: nat, s: ConnectionState)
    requires |m.trace| > 0 && m.inner == Attached(i) && i < |m.streams| && !m.unloading
    requires !s.Disconnected? && KeyOf(Last(m)) != KeyOf(s)
    ensures Step(m, Sends(i, s)) ==
      m.(trace := m.trace + [Entry(s, FromSubscription(i), m.installed, |m.streams|)], heard := true)
  {
    ReceivesShown(m, i, s);
  }

  lemma Drop(m: Model, i: nat, error: Option<string>)
    requires |m.trace| > 0 && m.inner == Attached(i) && i < |m.streams| && m.installed.Some? && !m.unloading
    requires !Last(m).Disconnected?
    ensures Step(m, Sends(i, Disconnected(error))) ==
      m.(trace := m.trace + [Entry(Disconnected(error), FromSubscription(i), m.installed, |m.streams|)],
         installed := None, inner := NoProvider, heard := false,
         clears := m.clears + seq(m.subscribers, _ => m.stored))
  {
    ReceivesDrop(m, i, error);
  }

  // ---- the runs ----

  /** Auto-connect has found nothing stored. */
  lemma Delivered(rxjs: RxJs) returns (m: Model)
    ensures Tracked(m) && m.rxjs == rxjs && Idle(m) && m.persistent && m.subscribers == 1
    ensures m.inner.NoProvider? && m.connects == 0 && m.streams == [] && m.clears == [None] && m.stored.None?
  {
    var s := Start(rxjs, true, None);
    var decided := Step(s, AutoDecides(NothingStored));
    DeliversNothing(decided);
    StartTracked(rxjs, true, None);
    PlainTracked(s, AutoDecides(NothingStored));
    StepTracked(decided, AutoDelivers([]));
    m := Step(decided, AutoDelivers([]));
  }

  /** And a connect call is waiting. */
  lemma Waiting(rxjs: RxJs) returns (m: Model)
    ensures Tracked(m) && m.rxjs == rxjs && Idle(m) && m.persistent && m.subscribers == 1
    ensures m.inner.NoProvider? && m.connects == 1 && m.streams == [] && m.clears == [None, None] && m.stored.None?
  {
    var delivered := Delivered(rxjs);
    CallsWhenIdle(delivered);
    PlainTracked(delivered, ConnectCalled);
    m := Step(delivered, ConnectCalled);
  }

  lemma NoClear(clears: seq<Option<string>>, more: Option<string>)
    requires !HasClear(clears) && more.None?
    ensures !HasClear(clears + [more])
  {
  }

  /** In either version a drop during the subscription call leaves the id stored and nothing installed. */
  lemma SynchronousDropOrphans(rxjs: RxJs) returns (m: Model)
    ensures Reachable(m) && m.rxjs == rxjs && Live(m)
    ensures m.installed.None? && m.stored == Some("a") && !HasClear(m.clears)
  {
    var w := Waiting(rxjs);
    var p := Provider(1, "a");
    var e := ConnectResumes(p, [Connecting("a"), Disconnected(None)]);
    TrackedReachable(w);
    ConnectsAndDrops(w, p);
    NoClear(w.clears, None);
    StepReachable(w, e);
    m := Step(w, e);
  }

  /** In version 6 that provider can then show up as connected although nothing is installed. */
  lemma DroppedStreamSpeaks() returns (m: Model)
    ensures Reachable(m) && m.rxjs.V6? && Live(m) && m.installed.None? && Last(m).Connected? && !Invariant(m)
  {
    var w := Waiting(V6);
    var p := Provider(1, "a");
    var e := ConnectResumes(p, [Connecting("a"), Disconnected(None)]);
    TrackedReachable(w);
    ConnectsAndDrops(w, p);
    StepReachable(w, e);
    var dropped := Step(w, e);
    Speaks(dropped, 0, Connected(7, None));
    StepReachable(dropped, Sends(0, Connected(7, None)));
    m := Step(dropped, Sends(0, Connected(7, None)));
  }

  lemma ClosureStays(trace: seq<Entry>, e: Entry)
    ensures HasClosure(trace + [e]) <==> HasClosure(trace) || e.state.Connected?
  {
    assert (trace + [e])[|trace|] == e;
    assert forall k :: 0 <= k < |trace| ==> (trace + [e])[k] == trace[k];
  }

  /** The first provider is connected. */
  lemma Shown(rxjs: RxJs) returns (m: Model)
    ensures Tracked(m) && m.rxjs == rxjs && m.inner == Attached(0) && |m.streams| == 1 && m.installed.Some?
    ensures Last(m).Connected? && !m.unloading && m.persistent && m.stored == Some("a") && m.clears == [None, None]
    ensures m.connects == 0 && m.subscribers == 1 && HasClosure(m.trace)
  {
    var w := Waiting(rxjs);
    var e, s := ConnectResumes(Provider(1, "a"), [Connecting("a")]), Connected(7, Some(8));
    ConnectsFresh(w, Provider(1, "a"));
    var a := Step(w, e);
    ConnectTracked(w, Provider(1, "a"), [Connecting("a")]);
    Speaks(a, 0, s);
    ClosureStays(a.trace, Entry(s, FromSubscription(0), a.installed, |a.streams|));
    PlainTracked(a, Sends(0, s));
    m := Step(a, Sends(0, s));
  }

  /** It has disconnected and its id has been cleared. */
  lemma Gone(rxjs: RxJs) returns (m: Model)
    ensures Tracked(m) && m.rxjs == rxjs && Idle(m) && m.persistent && m.connects == 0 && m.stored.None?
    ensures HasClosure(m.trace) && m.clears == [None, None]
  {
    var b := Shown(rxjs);
    var s := Disconnected(None);
    Drop(b, 0, None);
    ClosureStays(b.trace, Entry(s, FromSubscription(0), b.installed, |b.streams|));
    var c := Step(b, Sends(0, s));
    PlainTracked(b, Sends(0, s));
    assert c.clears == [None, None, Some("a")];
    Clears(c, 2);
    PlainTracked(c, ClearResumes(2));
    m := Step(c, ClearResumes(2));
    assert m.clears == [None, None];
  }

  /** And a second call is waiting. */
  lemma ConnectedOnce(rxjs: RxJs) returns (m: Model)
    ensures Tracked(m) && m.rxjs == rxjs && Idle(m) && m.persistent && m.connects == 1 && m.stored.None?
    ensures HasClosure(m.trace) && !HasClear(m.clears)
  {
    var d := Gone(rxjs);
    CallsWhenIdle(d);
    PlainTracked(d, ConnectCalled);
    m := Step(d, ConnectCalled);
  }

  lemma StaleDisconnect(m: Model)
    requires |m.trace| > 0 && Enabled(m, DisconnectResumes) && m.installed.Some? && Last(m).Disconnected?
    ensures Step(m, DisconnectResumes) == m.(installed := None, inner := NoProvider, heard := false)
  {
    SameIsKeyEquality(Last(m), Disconnected(None));
  }

  /** The second provider is installed and has not said anything yet. */
  lemma SilentlyInstalled(rxjs: RxJs) returns (m: Model)
    ensures Tracked(m) && m.rxjs == rxjs && !m.inner.Unattached? && !m.unloading && m.persistent
    ensures m.installed == Some(Provider(2, "b")) && m.stored == Some("b") && Last(m).Disconnected?
    ensures HasClosure(m.trace) && !HasClear(m.clears)
  {
    var w := ConnectedOnce(rxjs);
    var p := Provider(2, "b");
    ConnectTracked(w, p, []);
    SilentFacts(w, p);
    m := Step(w, ConnectResumes(p, []));
  }

  lemma SilentFacts(w: Model, p: Provider)
    requires Idle(w) && w.connects > 0 && w.persistent
    ensures var m := Step(w, ConnectResumes(p, []));
      && m.installed == Some(p) && m.stored == Some(p.id) && m.trace == w.trace && m.clears == w.clears
      && !m.inner.Unattached? && !m.unloading && Last(m).Disconnected? && m.rxjs == w.rxjs && m.persistent
  {
    ConnectsSilently(w, p);
  }

  /**
   * In either version the disconnect closure of an earlier connection, called while a new provider is still silent,
   * removes that provider and leaves its id stored.
   */
  lemma StaleDisconnectOrphans(rxjs: RxJs) returns (before: Model, m: Model)
    ensures Tracked(before) && before.rxjs == rxjs && HasClosure(before.trace) && Orphans(before, DisconnectResumes)
    ensures m == Step(before, DisconnectResumes) && Tracked(m) && Live(m)
    ensures m.installed.None? && m.stored == Some("b") && !HasClear(m.clears)
  {
    before := SilentlyInstalled(rxjs);
    StaleDisconnect(before);
    PlainTracked(before, DisconnectResumes);
    m := Step(before, DisconnectResumes);
  }

  /**
   * Whenever an announced provider disconnects while its id is stored, a provider connected before the effect
   * resumes is left installed with no stored id: the late clear erases the wrong one.
   */
  lemma LateClearForgets(m: Model, i: nat, error: Option<string>, b: Provider)
    requires Invariant(m) && Live(m) && m.persistent && m.inner == Attached(i) && m.heard && m.stored.Some?
    ensures var dropped := Step(m, Sends(i, Disconnected(error)));
            var called := Step(dropped, ConnectCalled);
            var connected := Step(called, ConnectResumes(b, [Connecting(b.id)]));
            var cleared := Step(connected, ClearResumes(|m.clears|));
      && connected.stored == Some(b.id) && connected.installed == Some(b) && connected.heard
      && cleared.stored.None? && cleared.installed == Some(b) && cleared.heard
  {
    Drop(m, i, error);
    var dropped := Step(m, Sends(i, Disconnected(error)));
    CallsWhenIdle(dropped);
    var called := Step(dropped, ConnectCalled);
    ConnectsFresh(called, b);
    var connected := Step(called, ConnectResumes(b, [Connecting(b.id)]));
    assert connected.clears[|m.clears|] == m.stored;
    Clears(connected, |m.clears|);
  }
}
