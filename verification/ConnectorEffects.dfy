/** What the connector's tasks do: what is emitted, which provider is installed, which id is stored. */
module ConnectorEffects {
  import opened Wrappers
  import opened ConnectionStates
  import opened ConnectorModel
  import opened ConnectorPrefixes
  import opened ConnectorRuns
  import opened ConnectorDrops
  import opened ConnectorTheorems
  import opened ConnectorStored

  // ---- auto-connect ----

  /** The provider auto-connect ends with, if any. */
  function Selected(r: AutoResult): Option<Provider> {
    match r
    case AutoSelected(p) => Some(p)
    case Restored(p) => Some(p)
    case _ => None
  }

  /** The second state that is ever emitted. */
  predicate AutoEmits(r: AutoResult, s: ConnectionState) {
    match r
    case AutoSelected(p) => s == Connecting(p.id)
    case Restored(p) => s == Connecting(p.id)
    case Failed(e) => s == Disconnected(Some(e))
    case _ => s == Disconnected(None)
  }

  /** A provider that is connected already has its id stored; one that is restored keeps it; a lost one is forgotten. */
  predicate AutoStores(r: AutoResult, before: Option<string>, after: Option<string>) {
    match r
    case AutoSelected(p) => after == Some(p.id)
    case Forgotten => after.None?
    case _ => after == before
  }

  /** `b` is `a` with something added. */
  predicate Grows(a: seq<Entry>, b: seq<Entry>) {
    |a| <= |b| && forall k :: 0 <= k < |a| ==> b[k] == a[k]
  }

  lemma ReceiveTrace(m: Model, i: nat, s: ConnectionState)
    requires |m.trace| > 0
    ensures Grows(m.trace, Receive(m, i, s).trace) && Grows(m.trace, Send(m, i, s).trace)
  {
  }

  lemma GrowsFurther(a: seq<Entry>, b: seq<Entry>, c: seq<Entry>)
    requires Grows(a, b) && Grows(b, c)
    ensures Grows(a, c)
  {
  }

  /** Attaching adds to the trace and to the list of streams. */
  lemma {:induction false} PrefixTrace(m: Model, i: nat, states: seq<ConnectionState>)
    requires |m.trace| > 0
    ensures Grows(m.trace, SendAll(m, i, states).trace)
    decreases |states|
  {
    if states != [] {
      var before, s := SendAll(m, i, states[..|states| - 1]), states[|states| - 1];
      PrefixTrace(m, i, states[..|states| - 1]);
      ReceiveTrace(before, i, s);
      GrowsFurther(m.trace, before.trace, SendAll(m, i, states).trace);
    }
  }

  lemma AttachTrace(m: Model, p: Provider, prefix: seq<ConnectionState>)
    requires |m.trace| > 0
    ensures Grows(m.trace, Attach(m, p, prefix).trace) && Attach(m, p, prefix).streams == m.streams + [p]
  {
    PrefixTrace(Attaching(m, p), |m.streams|, prefix);
  }

  /** What `checkAutoConnect` has done when it returns. */
  lemma DecideOutcome(m: Model, r: AutoResult)
    requires |m.trace| > 0 && Enabled(m, AutoDecides(r)) && Coherent(m) && !m.unloading
    ensures var d := Step(m, AutoDecides(r));
      && d.decided.Some? && AutoEmits(r, d.decided.value)
      && d.installed == Selected(r) && d.streams == [] && d.trace == m.trace && d.subscribers == m.subscribers
      && !d.unloading && d.inner.Unattached? && d.rxjs == m.rxjs
      && (m.persistent ==> AutoStores(r, m.stored, d.stored)) && (!m.persistent ==> d.stored == m.stored)
  {
  }

  /** What is on show, and installed, once the decided state has been delivered and the subject subscribed. */
  lemma DeliveredOutcome(d: Model, prefix: seq<ConnectionState>)
    requires |d.trace| == 1 && Last(d).Initializing? && !d.unloading && d.subscribers > 0 && d.streams == []
    requires Enabled(d, AutoDelivers(prefix)) && !d.decided.value.Initializing?
    requires d.installed.None? ==> d.decided.value.Disconnected?
    requires d.installed.Some? ==> !d.decided.value.Disconnected?
    ensures var m, s := Step(d, AutoDelivers(prefix)), d.decided.value;
      && Grows(d.trace + [Entry(s, FromAutoConnect, d.installed, 0)], m.trace)
      && m.streams == (if d.installed.Some? then [d.installed.value] else []) && m.stored == d.stored
      && m.installed == (if d.installed.Some? && Drops(s, prefix) then None else d.installed)
  {
    var s := d.decided.value;
    SameIsKeyEquality(Last(d), s);
    var delivered := Deliver(d, s, FromAutoConnect).(decided := None);
    assert delivered.trace == d.trace + [Entry(s, FromAutoConnect, d.installed, 0)];
    match delivered.installed
    case Some(p) =>
      AttachTrace(delivered, p, prefix);
      PrefixLeaves(Attaching(delivered, p), |delivered.streams|, prefix);
    case None =>
      SameIsKeyEquality(Last(delivered), Disconnected(None));
  }

  /** Auto-connect from its result to the subscription: what is emitted, what is installed, and what is stored. */
  lemma AutoConnectOutcome(rxjs: RxJs, persistent: bool, stored: Option<string>, r: AutoResult,
                           prefix: seq<ConnectionState>)
    requires Enabled(Start(rxjs, persistent, stored), AutoDecides(r))
    ensures var m := Step(Step(Start(rxjs, persistent, stored), AutoDecides(r)), AutoDelivers(prefix));
      && |m.trace| >= 2 && AutoEmits(r, m.trace[1].state) && m.trace[1].source.FromAutoConnect?
      && m.streams == (if Selected(r).Some? then [Selected(r).value] else [])
      && (persistent ==> AutoStores(r, stored, m.stored)) && (!persistent ==> m.stored.None?)
      && m.installed ==
           (if Selected(r).Some? && !Drops(m.trace[1].state, prefix) then Selected(r) else None)
  {
    var s := Start(rxjs, persistent, stored);
    DecideOutcome(s, r);
    DeliveredOutcome(Step(s, AutoDecides(r)), prefix);
  }

  // ---- emissions ----

  /** The states that differ in key from the one right before them. */
  function Changes(last: ConnectionState, states: seq<ConnectionState>): seq<ConnectionState>
    decreases |states|
  {
    if states == [] then []
    else
      var init, s := states[..|states| - 1], states[|states| - 1];
      Changes(last, init) + if KeyOf(Final(last, init)) == KeyOf(s) then [] else [s]
  }

  function Final(last: ConnectionState, states: seq<ConnectionState>): ConnectionState {
    if states == [] then last else states[|states| - 1]
  }

  function StatesOf(trace: seq<Entry>): seq<ConnectionState> {
    seq(|trace|, k requires 0 <= k < |trace| => trace[k].state)
  }

  lemma ReceiveChanges(m: Model, i: nat, s: ConnectionState, before: ConnectionState)
    requires |m.trace| > 0 && !m.unloading && KeyOf(Last(m)) == KeyOf(before)
    ensures var r := Receive(m, i, s);
      && KeyOf(Last(r)) == KeyOf(s)
      && StatesOf(r.trace) == StatesOf(m.trace) + if KeyOf(before) == KeyOf(s) then [] else [s]
  {
    SameIsKeyEquality(Last(m), s);
  }

  /**
   * What a synchronous prefix puts on show: each state that differs from the one before it. Version 7 stops listening
   * at a drop; version 6 goes on.
   */
  lemma {:induction false} PrefixEmits(m: Model, i: nat, states: seq<ConnectionState>)
    requires |m.trace| > 0 && m.inner == Attached(i) && m.installed.Some? && !m.unloading && m.subscribers > 0
    requires m.rxjs.V6? || !Drops(Last(m), states)
    ensures var r := SendAll(m, i, states);
      && StatesOf(r.trace) == StatesOf(m.trace) + Changes(Last(m), states)
      && KeyOf(Last(r)) == KeyOf(Final(Last(m), states))
    decreases |states|
  {
    if states != [] {
      var init, s := states[..|states| - 1], states[|states| - 1];
      DropsLast(Last(m), states);
      PrefixEmits(m, i, init);
      PrefixLeaves(m, i, init);
      ReceiveChanges(SendAll(m, i, init), i, s, Final(Last(m), init));
      assert StatesOf(m.trace) + Changes(Last(m), states) == StatesOf(m.trace) + Changes(Last(m), init) +
        if KeyOf(Final(Last(m), init)) == KeyOf(s) then [] else [s];
    }
  }

  /** After its drop version 7 hears nothing more from a stream. */
  lemma SevenStopsAtDrop(m: Model, i: nat, states: seq<ConnectionState>, s: ConnectionState)
    requires |m.trace| > 0 && m.inner == Attached(i) && m.installed.Some? && !m.unloading && m.subscribers > 0
    requires m.rxjs.V7? && Drops(Last(m), states)
    ensures SendAll(m, i, states + [s]) == SendAll(m, i, states)
  {
    PrefixLeaves(m, i, states);
    assert (states + [s])[..|states + [s]| - 1] == states;
  }

  /**
   * A new subscriber, and the first half of `connect`, find a disconnected state on show: the subject is emptied
   * and the stored id is read. Any other state has no effect.
   */
  lemma LateSubscriberReacts(m: Model)
    requires Consistent(m) && Live(m)
    ensures var r := Step(m, Subscribed);
      && r.trace == m.trace && r.stored == m.stored && r.subscribers == m.subscribers + 1
      && (Last(m).Disconnected? ==>
            && r.installed.None? && r.inner == (if m.installed.Some? then NoProvider else m.inner)
            && r.clears == m.clears + [m.stored])
      && (!Last(m).Disconnected? ==> r.installed == m.installed && r.inner == m.inner && r.clears == m.clears)
    ensures var r, s := Step(m, ConnectCalled), Step(m, Subscribed);
      r.installed == s.installed && r.inner == s.inner && r.clears == s.clears && r.trace == s.trace
  {
    SameIsKeyEquality(Last(m), Disconnected(None));
  }

  /** A disconnect effect that resumes erases the stored id exactly if it had read one. */
  lemma ClearErasesIff(m: Model, k: nat)
    requires |m.trace| > 0 && k < |m.clears|
    ensures var r := Step(m, ClearResumes(k));
      && r.stored == (if m.persistent && m.clears[k].Some? then None else m.stored)
      && multiset(m.clears) == multiset(r.clears) + multiset{m.clears[k]}
      && r.installed == m.installed && r.trace == m.trace
  {
    assert m.clears == m.clears[..k] + [m.clears[k]] + m.clears[k + 1..];
  }

  /** A state of the attached stream is emitted, once, unless it is the same as the last one; others are never. */
  lemma SendEmitsIff(m: Model, i: nat, s: ConnectionState)
    requires Consistent(m) && Live(m) && i < |m.streams|
    ensures Step(m, Sends(i, s)).trace ==
      if m.inner == Attached(i) && KeyOf(Last(m)) != KeyOf(s)
      then m.trace + [Entry(s, FromSubscription(i), m.installed, |m.streams|)] else m.trace
  {
    SameIsKeyEquality(Last(m), s);
  }

  /** When an announced provider disconnects, every subscriber's effect reads the stored id once. */
  lemma EverySubscriberReads(m: Model, i: nat, error: Option<string>)
    requires Consistent(m) && Live(m) && m.inner == Attached(i) && m.heard
    ensures Step(m, Sends(i, Disconnected(error))).clears == m.clears + seq(m.subscribers, _ => m.stored)
    ensures Step(m, Sends(i, Disconnected(error))).stored == m.stored
  {
    SameIsKeyEquality(Last(m), Disconnected(error));
  }

  /** One subscriber more reads once more, one less reads once less. */
  lemma SubscribersCount(m: Model, i: nat, error: Option<string>)
    requires Consistent(m) && Live(m) && m.inner == Attached(i) && m.heard
    ensures Step(Step(m, Subscribed), Sends(i, Disconnected(error))).clears
         == m.clears + seq(m.subscribers + 1, _ => m.stored)
    ensures m.subscribers > 1 ==>
      Step(Step(m, Unsubscribed), Sends(i, Disconnected(error))).clears
        == m.clears + seq(m.subscribers - 1, _ => m.stored)
  {
    var more := Step(m, Subscribed);
    StepConsistentIff(m, Subscribed);
    EverySubscriberReads(more, i, error);
    if m.subscribers > 1 {
      StepConsistentIff(m, Unsubscribed);
      EverySubscriberReads(Step(m, Unsubscribed), i, error);
    }
  }

  /** The wrapped disconnect of a connected provider ends as if the provider had disconnected without an error. */
  lemma DisconnectEnds(m: Model)
    requires Consistent(m) && Live(m) && m.installed.Some? && !Last(m).Disconnected? && HasClosure(m.trace)
    ensures var r := Step(m, DisconnectResumes);
      && r.trace == m.trace + [Entry(Disconnected(None), FromReset, None, |m.streams|)]
      && r.installed.None? && r.inner.NoProvider? && r.clears == m.clears + seq(m.subscribers, _ => m.stored)
  {
    SameIsKeyEquality(Last(m), Disconnected(None));
  }

  // ---- connect ----

  /** A call of `connect` goes on to its second half unless a provider is installed and connected. */
  lemma ConnectRefusedIff(m: Model)
    requires |m.trace| > 0 && Enabled(m, ConnectCalled)
    ensures Step(m, ConnectCalled).connects ==
      if m.installed.Some? && Last(m).Connected? then m.connects else m.connects + 1
  {
    SameIsKeyEquality(Last(m), Disconnected(None));
  }

  /** After `connect` the new provider's id is stored, and it is installed unless its stream dropped at once. */
  lemma ConnectInstalls(m: Model, p: Provider, prefix: seq<ConnectionState>)
    requires |m.trace| > 0 && m.subscribers > 0 && Live(m) && m.connects > 0
    ensures var r := Step(m, ConnectResumes(p, prefix));
      && r.connects == m.connects - 1 && (m.persistent ==> r.stored == Some(p.id))
      && r.installed == (if m.installed != Some(p) && Drops(Last(m), prefix) then None else Some(p))
      && r.streams == (if m.installed == Some(p) then m.streams else m.streams + [p])
  {
    var c := m.(connects := m.connects - 1);
    ConnectStores(m, p, prefix);
    if m.installed != Some(p) {
      InstallOutcome(c, p, prefix);
      AttachTrace(c.(installed := Some(p)), p, prefix);
    }
  }

  // ---- unloading ----

  lemma {:induction false} PrefixWhileUnloading(m: Model, i: nat, states: seq<ConnectionState>)
    requires |m.trace| > 0 && m.unloading
    ensures var r := SendAll(m, i, states);
      r.trace == m.trace && r.installed == m.installed && r.clears == m.clears && r.inner == m.inner
    decreases |states|
  {
    if states != [] { PrefixWhileUnloading(m, i, states[..|states| - 1]); }
  }

  /** While the page unloads nothing is emitted and no effect runs, but the calls still do what they do. */
  lemma UnloadingEffects(m: Model, i: nat, s: ConnectionState, p: Provider, prefix: seq<ConnectionState>)
    requires |m.trace| > 0 && m.unloading && !m.inner.Unattached?
    ensures var r := Step(m, Sends(i, s));
      r.trace == m.trace && r.installed == m.installed && r.clears == m.clears && r.stored == m.stored
    ensures Step(m, Subscribed) == m.(subscribers := m.subscribers + 1)
    ensures HasClosure(m.trace) ==>
      var r := Step(m, DisconnectResumes); r.trace == m.trace && r.installed.None? && r.clears == m.clears
    ensures m.connects > 0 ==>
      var r := Step(m, ConnectResumes(p, prefix));
      && r.trace == m.trace && r.installed == Some(p) && r.clears == m.clears
      && (m.persistent ==> r.stored == Some(p.id))
  {
    if m.connects > 0 {
      var c := m.(connects := m.connects - 1);
      ConnectStores(m, p, prefix);
      if m.installed != Some(p) {
        PrefixWhileUnloading(Attaching(c.(installed := Some(p)), p), |c.streams|, prefix);
      }
    }
  }

  // ---- an installed provider is stored ----

  /** Under a configured state provider. */
  predicate InstalledStored(m: Model) {
    m.persistent && m.installed.Some? ==> m.stored == Some(m.installed.value.id)
  }

  /** A disconnect effect resumes that has read an id. */
  predicate Erases(m: Model, e: Event) {
    match e case ClearResumes(k) => k < |m.clears| && m.clears[k].Some? case _ => false
  }

  lemma ReceiveInstalled(m: Model, i: nat, s: ConnectionState)
    requires |m.trace| > 0
    ensures Receive(m, i, s).installed == m.installed || Receive(m, i, s).installed.None?
  {
  }

  lemma {:induction false} PrefixInstalled(m: Model, i: nat, states: seq<ConnectionState>)
    requires |m.trace| > 0
    ensures SendAll(m, i, states).installed == m.installed || SendAll(m, i, states).installed.None?
    decreases |states|
  {
    if states != [] {
      PrefixInstalled(m, i, states[..|states| - 1]);
      ReceiveInstalled(SendAll(m, i, states[..|states| - 1]), i, states[|states| - 1]);
    }
  }

  lemma AutoDeliverInstalled(m: Model, prefix: seq<ConnectionState>)
    requires |m.trace| > 0 && Enabled(m, AutoDelivers(prefix)) && InstalledStored(m)
    ensures InstalledStored(Step(m, AutoDelivers(prefix)))
  {
    var d := Deliver(m, m.decided.value, FromAutoConnect).(decided := None);
    match d.installed
    case Some(p) => PrefixInstalled(Attaching(d, p), |d.streams|, prefix);
    case None =>
  }

  lemma ConnectInstalled(m: Model, p: Provider, prefix: seq<ConnectionState>)
    requires |m.trace| > 0 && Enabled(m, ConnectResumes(p, prefix))
    ensures InstalledStored(Step(m, ConnectResumes(p, prefix)))
  {
    var c := m.(connects := m.connects - 1);
    ConnectStores(m, p, prefix);
    if m.installed != Some(p) {
      PrefixInstalled(Attaching(c.(installed := Some(p)), p), |c.streams|, prefix);
    }
  }

  /** Only an effect that erases can separate an installed provider from its stored id; every `connect` joins them. */
  lemma StepInstalledStored(m: Model, e: Event)
    requires |m.trace| > 0 && InstalledStored(m) && !Erases(m, e)
    requires m.inner.Unattached? && m.decided.None? ==> m.installed.None?
    ensures InstalledStored(Step(m, e))
  {
    if Enabled(m, e) {
      match e
      case AutoDelivers(prefix) => AutoDeliverInstalled(m, prefix);
      case ConnectResumes(p, prefix) => ConnectInstalled(m, p, prefix);
      case _ =>
    }
  }

  /** No effect of the run erases an id. */
  predicate NothingErased(m: Model, events: seq<Event>)
    requires |m.trace| > 0
    decreases |events|
  {
    events == [] ||
    (NothingErased(m, events[..|events| - 1]) && !Erases(Run(m, events[..|events| - 1]), events[|events| - 1]))
  }

  lemma BeforeAutoConnect(m: Model, e: Event)
    requires |m.trace| > 0 && (m.inner.Unattached? && m.decided.None? ==> m.installed.None?)
    ensures var r := Step(m, e); r.inner.Unattached? && r.decided.None? ==> r.installed.None?
  {
    if Enabled(m, e) {
      match e
      case AutoDelivers(prefix) => AutoDeliverSubscribers(m, prefix);
      case ConnectResumes(p, prefix) => ConnectStores(m, p, prefix);
      case _ =>
    }
  }

  /**
   * Over every run of either version: as long as no disconnect effect has erased an id, the installed provider's id
   * is the stored one, whether auto-connect or `connect` installed it.
   */
  lemma {:induction false} InstalledIsStored(rxjs: RxJs, stored: Option<string>, events: seq<Event>)
    requires NothingErased(Start(rxjs, true, stored), events)
    ensures var m := Run(Start(rxjs, true, stored), events);
      && InstalledStored(m) && (m.inner.Unattached? && m.decided.None? ==> m.installed.None?)
    decreases |events|
  {
    if events != [] {
      var init := events[..|events| - 1];
      InstalledIsStored(rxjs, stored, init);
      StepInstalledStored(Run(Start(rxjs, true, stored), init), events[|events| - 1]);
      BeforeAutoConnect(Run(Start(rxjs, true, stored), init), events[|events| - 1]);
    }
  }
}
