/** The persisted provider id: what it may name, when a run loses track of it, and when it is kept. */
module ConnectorStored {
  import opened Wrappers
  import opened ConnectionStates
  import opened ConnectorModel
  import opened ConnectorPrefixes
  import opened ConnectorRuns
  import opened ConnectorTheorems

  predicate Names(installed: Option<Provider>, id: string) {
    installed.Some? && installed.value.id == id
  }

  /** A stored id names the installed provider, or a clear that will erase it is still waiting. */
  predicate StoredOk(m: Model) {
    Live(m) && m.stored.Some? ==> Names(m.installed, m.stored.value) || HasClear(m.clears)
  }

  /** In either version; nothing is asked of the streams, so it also holds after a drop that version 6 cannot follow. */
  predicate StoredInvariant(m: Model) {
    && |m.trace| > 0 && m.subscribers > 0 && StoredOk(m)
    && (!m.persistent ==> m.stored.None?)
    && (m.inner.Unattached? ==>
          Coherent(m) && (m.installed.Some? && m.stored.Some? ==> Names(m.installed, m.stored.value)))
  }

  /**
   * The two tasks after which a stored id outlives its provider: a disconnect closure that fires while the
   * installed provider has not announced itself, and a connect whose provider disconnects before the
   * subscription call returns (the id is written after the effect has read the old one).
   */
  predicate Orphans(m: Model, e: Event)
    requires |m.trace| > 0
  {
    Live(m) && Enabled(m, e) && !HasClear(m.clears) &&
    match e
    case DisconnectResumes => m.installed.Some? && Last(m).Disconnected? && m.stored.Some?
    case ConnectResumes(p, prefix) =>
      m.persistent && m.installed != Some(p) && m.stored.None? && Drops(Last(m), prefix)
    case _ => false
  }

  lemma AutoDeliverStored(m: Model, prefix: seq<ConnectionState>)
    requires StoredInvariant(m) && Enabled(m, AutoDelivers(prefix))
    ensures StoredInvariant(Step(m, AutoDelivers(prefix)))
  {
    var s := m.decided.value;
    var d := Deliver(m, s, FromAutoConnect).(decided := None);
    SameIsKeyEquality(Last(m), s);
    ClearsGrow(m.clears, m.stored, m.subscribers);
    AutoDeliverSubscribers(m, prefix);
    match d.installed
    case Some(p) => if !m.unloading { PrefixLeaves(Attaching(d, p), |d.streams|, prefix); }
    case None => SameIsKeyEquality(Last(d), Disconnected(None));
  }

  lemma AutoDeliverSubscribers(m: Model, prefix: seq<ConnectionState>)
    requires |m.trace| > 0 && Enabled(m, AutoDelivers(prefix))
    ensures var r := Step(m, AutoDelivers(prefix));
      r.subscribers == m.subscribers && r.stored == m.stored && !r.inner.Unattached? && r.unloading == m.unloading
  {
  }

  lemma ConnectStored(m: Model, p: Provider, prefix: seq<ConnectionState>)
    requires StoredInvariant(m) && Enabled(m, ConnectResumes(p, prefix))
    ensures StoredInvariant(Step(m, ConnectResumes(p, prefix))) <==> !Orphans(m, ConnectResumes(p, prefix))
  {
    var c := m.(connects := m.connects - 1);
    ConnectStores(m, p, prefix);
    if m.unloading {
      InstallWhileUnloading(c, p, prefix);
    } else if m.installed != Some(p) {
      InstallOutcome(c, p, prefix);
    }
  }

  lemma InstallWhileUnloading(m: Model, p: Provider, prefix: seq<ConnectionState>)
    requires |m.trace| > 0 && m.unloading && !m.inner.Unattached?
    ensures var r := Install(m, p, prefix); r.unloading && r.stored == m.stored && !r.inner.Unattached?
  {
  }

  lemma ClearStored(m: Model, k: nat)
    requires StoredInvariant(m) && k < |m.clears|
    ensures StoredInvariant(Step(m, ClearResumes(k)))
  {
    if m.clears[k].None? && HasClear(m.clears) {
      var j :| 0 <= j < |m.clears| && m.clears[j].Some?;
      assert Remove(m.clears, k)[if j < k then j else j - 1] == m.clears[j];
    }
  }

  lemma SendStored(m: Model, i: nat, s: ConnectionState)
    requires StoredInvariant(m)
    ensures var r := Send(m, i, s); StoredOk(r) && r.stored == m.stored && r.persistent == m.persistent
    ensures m.inner.Unattached? ==> Send(m, i, s) == m
  {
    SameIsKeyEquality(Last(m), s);
    ClearsGrow(m.clears, m.stored, m.subscribers);
  }

  lemma DisconnectStored(m: Model)
    requires StoredInvariant(m) && Enabled(m, DisconnectResumes)
    ensures Reset(m).stored == m.stored && Reset(m).persistent == m.persistent
    ensures StoredOk(Reset(m)) <==> !Orphans(m, DisconnectResumes)
  {
    SameIsKeyEquality(Last(m), Disconnected(None));
    ClearsGrow(m.clears, m.stored, m.subscribers);
  }

  lemma DecideStored(m: Model, r: AutoResult)
    requires StoredInvariant(m) && Enabled(m, AutoDecides(r))
    ensures StoredInvariant(Step(m, AutoDecides(r)))
  {
  }

  lemma ReplayStepStored(m: Model, e: Event)
    requires StoredInvariant(m) && Enabled(m, e) && (e.ConnectCalled? || e.Subscribed?)
    ensures StoredInvariant(Step(m, e))
  {
    ReplayStored(m);
  }

  /** One task keeps the stored id honest, in either version, exactly when it is not one of the two orphaning tasks. */
  lemma StepStored(m: Model, e: Event)
    requires StoredInvariant(m)
    ensures StoredInvariant(Step(m, e)) <==> !Orphans(m, e)
  {
    if Enabled(m, e) {
      match e
      case AutoDecides(r) => DecideStored(m, r);
      case AutoDelivers(prefix) => AutoDeliverStored(m, prefix);
      case Sends(i, s) => SendStored(m, i, s);
      case ConnectCalled => ReplayStepStored(m, e);
      case ConnectResumes(p, prefix) => ConnectStored(m, p, prefix);
      case DisconnectResumes => DisconnectStored(m);
      case ClearResumes(k) => ClearStored(m, k);
      case Subscribed => ReplayStepStored(m, e);
      case _ =>
    }
  }

  lemma ReplayStored(m: Model)
    requires StoredInvariant(m)
    ensures StoredOk(Replay(m)) && Replay(m).stored == m.stored && Replay(m).persistent == m.persistent
    ensures m.inner.Unattached? ==> Replay(m) == m
  {
    if Last(m).Disconnected? && !m.unloading {
      var r := Reset(m);
      SameIsKeyEquality(Last(m), Disconnected(None));
      ClearsGrow(r.clears, m.stored, 1);
      assert seq(1, _ => m.stored) == [m.stored];
    }
  }

  /** No task of the run is an orphaning one. */
  predicate Careful(m: Model, events: seq<Event>)
    requires |m.trace| > 0
    decreases |events|
  {
    events == [] ||
    var init, e := events[..|events| - 1], events[|events| - 1];
    Careful(m, init) && !Orphans(Run(m, init), e)
  }

  /** Over every careful run of either version; once no clear is waiting, a stored id is the installed provider's. */
  lemma {:induction false} StoredNamesInstalled(rxjs: RxJs, persistent: bool, stored: Option<string>,
                                                events: seq<Event>)
    requires Careful(Start(rxjs, persistent, stored), events)
    ensures var m := Run(Start(rxjs, persistent, stored), events);
      && StoredInvariant(m)
      && (Live(m) && m.stored.Some? && !HasClear(m.clears) ==> Names(m.installed, m.stored.value))
    decreases |events|
  {
    if events != [] {
      StoredNamesInstalled(rxjs, persistent, stored, events[..|events| - 1]);
      StepStored(Run(Start(rxjs, persistent, stored), events[..|events| - 1]), events[|events| - 1]);
    }
  }

  predicate NoneDisconnected(states: seq<ConnectionState>) {
    forall k :: 0 <= k < |states| ==> !states[k].Disconnected?
  }

  /**
   * The provider stream announces itself and does not disconnect before its subscription call returns; during
   * auto-connect the latter matters under version 6 only.
   */
  predicate Steady(rxjs: RxJs, e: Event) {
    && Announcing(e)
    && (e.ConnectResumes? || (e.AutoDelivers? && rxjs.V6?) ==> NoneDisconnected(e.prefix))
  }

  lemma SteadyIsCareful(m: Model, e: Event)
    requires Invariant(m) && HeardOnceInstalled(m) && Steady(m.rxjs, e)
    ensures !Orphans(m, e) && !Outruns(m, e)
  {
  }

  /**
   * Judged by the provider streams alone: if each one announces itself and none disconnects before its
   * subscription call returns, no run ever loses track of the stored id.
   */
  lemma {:induction false} SteadyRunsAreCareful(rxjs: RxJs, persistent: bool, stored: Option<string>,
                                                events: seq<Event>)
    requires forall k :: 0 <= k < |events| ==> Steady(rxjs, events[k])
    ensures Careful(Start(rxjs, persistent, stored), events) && Tracks(Start(rxjs, persistent, stored), events)
    decreases |events|
  {
    if events != [] {
      var s, init := Start(rxjs, persistent, stored), events[..|events| - 1];
      SteadyRunsAreCareful(rxjs, persistent, stored, init);
      RunKeeps(s, init);
      RunHeard(s, init);
      SteadyIsCareful(Run(s, init), events[|events| - 1]);
    }
  }

  // ---- when a correct stored id survives ----

  /** Every state of the continuation, the last included, is live with the same provider installed. */
  predicate StaysInstalled(m: Model, events: seq<Event>)
    requires |m.trace| > 0
    decreases |events|
  {
    && (events == [] || StaysInstalled(m, events[..|events| - 1]))
    && Live(Run(m, events)) && Run(m, events).installed == m.installed
  }

  /** A correct stored id with no effective clear waiting. */
  predicate Safe(m: Model) {
    && Invariant(m) && Live(m) && m.persistent && m.installed.Some?
    && m.stored == Some(m.installed.value.id) && !HasClear(m.clears)
  }

  lemma ConnectKeepsSafe(m: Model, p: Provider, prefix: seq<ConnectionState>)
    requires Safe(m) && Enabled(m, ConnectResumes(p, prefix))
    requires Live(Step(m, ConnectResumes(p, prefix))) && Step(m, ConnectResumes(p, prefix)).installed == m.installed
    ensures Safe(Step(m, ConnectResumes(p, prefix)))
  {
    var c := m.(connects := m.connects - 1);
    BookkeepingKeeps(m, c);
    ConnectKeepsIff(m, p, prefix);
    ConnectStores(m, p, prefix);
    if m.installed != Some(p) { InstallOutcome(c, p, prefix); }
  }

  lemma ReplayEmpties(m: Model)
    requires Invariant(m) && Live(m) && Last(m).Disconnected?
    ensures Replay(m).installed.None?
  {
    ResetKeeps(m);
  }

  lemma SendKeepsSafe(m: Model, i: nat, s: ConnectionState)
    requires Safe(m) && Send(m, i, s).installed == m.installed
    ensures Safe(Send(m, i, s))
  {
    SendKeeps(m, i, s);
    SameIsKeyEquality(Last(m), s);
  }

  lemma RemoveKeepsClears(clears: seq<Option<string>>, k: nat)
    requires k < |clears| && !HasClear(clears)
    ensures !HasClear(Remove(clears, k))
  {
    var r := Remove(clears, k);
    forall j | 0 <= j < |r| ensures r[j].None? { assert r[j] == clears[if j < k then j else j + 1]; }
  }

  lemma StepKeepsSafe(m: Model, e: Event)
    requires Safe(m) && Live(Step(m, e)) && Step(m, e).installed == m.installed
    ensures Safe(Step(m, e))
  {
    if Enabled(m, e) {
      StepKeepsIff(m, e);
      match e
      case Sends(i, s) => SendKeepsSafe(m, i, s);
      case ConnectResumes(p, prefix) => ConnectKeepsSafe(m, p, prefix);
      case DisconnectResumes => ResetKeeps(m);
      case ConnectCalled => if Last(m).Disconnected? { ReplayEmpties(m); }
      case Subscribed => if Last(m).Disconnected? { ReplayEmpties(m); }
      case ClearResumes(k) => RemoveKeepsClears(m.clears, k);
      case _ =>
    }
  }

  lemma {:induction false} RunKeepsSafe(m: Model, events: seq<Event>)
    requires Safe(m) && StaysInstalled(m, events)
    ensures Safe(Run(m, events)) && Run(m, events).stored == m.stored
    decreases |events|
  {
    if events != [] {
      RunKeepsSafe(m, events[..|events| - 1]);
      StepKeepsSafe(Run(m, events[..|events| - 1]), events[|events| - 1]);
    }
  }

  lemma Clears(m: Model, k: nat)
    requires |m.trace| > 0 && k < |m.clears| && m.clears[k].Some? && m.persistent
    ensures Step(m, ClearResumes(k)) == m.(clears := Remove(m.clears, k), stored := None)
  {
  }

  lemma WaitingClearErases(m: Model) returns (events: seq<Event>)
    requires |m.trace| > 0 && Live(m) && m.persistent && HasClear(m.clears)
    ensures StaysInstalled(m, events) && Run(m, events).stored.None?
  {
    var k :| 0 <= k < |m.clears| && m.clears[k].Some?;
    events := [ClearResumes(k)];
    Clears(m, k);
    assert events[..|events| - 1] == [] && StaysInstalled(m, []);
    assert Run(m, events) == Step(m, ClearResumes(k));
  }

  /**
   * The id of an installed provider survives every continuation that keeps it installed if and only if no waiting
   * effect has read an id.
   */
  lemma StoredSurvivesIff(m: Model)
    requires Invariant(m) && Live(m) && m.persistent && m.installed.Some? && m.stored == Some(m.installed.value.id)
    ensures (forall events :: StaysInstalled(m, events) ==> Run(m, events).stored == m.stored) <==> !HasClear(m.clears)
  {
    if HasClear(m.clears) {
      var events := WaitingClearErases(m);
      assert StaysInstalled(m, events) && Run(m, events).stored != m.stored;
    } else {
      forall events | StaysInstalled(m, events) ensures Run(m, events).stored == m.stored { RunKeepsSafe(m, events); }
    }
  }
}
