/**
 * The wallet connector as a step machine: one step per run-to-completion task.
 *
 * `Model` is the value that the mutable `Connector` object stands for. `trace` is everything the
 * connection observable has let through, oldest first, so it starts with "initializing".
 */
module ConnectorModel {
  import opened Wrappers
  import opened ConnectionStates

  /** `ref` is the object's identity, `id` what `getId()` answers. */
  datatype Provider = Provider(ref: Ref, id: string)

  /** Where an emitted state came from. */
  datatype Source = FromStart | FromAutoConnect | FromReset | FromSubscription(index: nat)

  /** An emission, with the installed provider and the number of subscriptions opened at that moment. */
  datatype Entry = Entry(state: ConnectionState, source: Source, installed: Option<Provider>, streamsThen: nat)

  /** What `switchMap` is subscribed to: `Unattached` until auto-connect has delivered its state. */
  datatype Inner = Unattached | NoProvider | Attached(index: nat)

  /** The outcomes of `checkAutoConnect`. */
  datatype AutoResult =
    | AutoSelected(provider: Provider)
    | Restored(provider: Provider)
    | Forgotten
    | NothingStored
    | Failed(error: string)

  /**
   * The installed major version. While `switchMap` is still inside the call that subscribes to a stream, version 7
   * can already unsubscribe from it; version 6 cannot, and takes note of the stream only when the call has returned.
   */
  datatype RxJs = V6 | V7

  datatype Model = Model(
    rxjs: RxJs,
    persistent: bool,                   // a state provider was configured
    installed: Option<Provider>,        // value of the BehaviorSubject
    inner: Inner,
    streams: seq<Provider>,              // provider of each subscription opened so far
    heard: bool,                        // the attached subscription has sent something other than disconnected
    decided: Option<ConnectionState>,   // what checkAutoConnect is about to deliver
    trace: seq<Entry>,
    stored: Option<string>,             // the persisted "last provider" id
    clears: seq<Option<string>>,        // ids read by disconnect effects that have not resumed yet
    connects: nat,                      // connect calls waiting for their first state
    subscribers: nat,
    unloading: bool)

  function Start(rxjs: RxJs, persistent: bool, stored: Option<string>): Model {
    Model(rxjs, persistent, None, Unattached, [], false, None, [Entry(Initializing, FromStart, None, 0)],
          if persistent then stored else None, [], 0, 1, false)
  }

  function Last(m: Model): ConnectionState
    requires |m.trace| > 0
  {
    m.trace[|m.trace| - 1].state
  }

  function Store(m: Model, id: Option<string>): Model {
    if m.persistent then m.(stored := id) else m
  }

  /** What no task changes. */
  predicate SameSetup(m: Model, r: Model) {
    |r.trace| > 0 && r.rxjs == m.rxjs && r.persistent == m.persistent
  }

  /** What no emission changes, besides. */
  predicate SameStreams(m: Model, r: Model) {
    && SameSetup(m, r) && r.stored == m.stored && r.streams == m.streams && r.decided == m.decided
    && r.connects == m.connects && r.subscribers == m.subscribers && r.unloading == m.unloading
    && (r.inner == m.inner || r.inner.NoProvider?)
  }

  // ---- the reactive pipeline ----

  /** The subject is emptied; it ignores being emptied twice. */
  function Emptied(m: Model): Model {
    if m.installed.None? then m
    else if m.inner.Unattached? then m.(installed := None)
    else m.(installed := None, inner := NoProvider, heard := false)
  }

  /** The effect of a disconnected state on `n` subscribers: the subject is emptied, each reads the stored id. */
  function Tapped(m: Model, n: nat): Model {
    Emptied(m).(clears := m.clears + seq(n, _ => m.stored))
  }

  /** A state reaches the outer `distinctUntilChanged`. */
  function Deliver(m: Model, s: ConnectionState, source: Source): (r: Model)
    requires |m.trace| > 0
    ensures SameStreams(m, r)
  {
    if m.unloading || Same(Last(m), s) then m
    else
      var emitted := m.(trace := m.trace + [Entry(s, source, m.installed, |m.streams|)]);
      if s.Disconnected? then Tapped(emitted, m.subscribers) else emitted
  }

  /** `provider.next(undefined)`. */
  function Reset(m: Model): (r: Model)
    requires |m.trace| > 0
    ensures SameStreams(m, r)
  {
    if m.installed.None? then m
    else if m.inner.Unattached? then Emptied(m)
    else Deliver(Emptied(m), Disconnected(None), FromReset)
  }

  /** A state of subscription `i` gets through `switchMap`. */
  function Receive(m: Model, i: nat, s: ConnectionState): Model
    requires |m.trace| > 0
  {
    Deliver(m.(heard := m.heard || !s.Disconnected?), s, FromSubscription(i))
  }

  /** Subscription `i` sends `s`; `switchMap` listens to the attached subscription only. */
  function Send(m: Model, i: nat, s: ConnectionState): Model
    requires |m.trace| > 0
  {
    if m.inner == Attached(i) then Receive(m, i, s) else m
  }

  /** What subscription `i` sends while `switchMap` is still subscribing to it. */
  function SendAll(m: Model, i: nat, states: seq<ConnectionState>): (r: Model)
    requires |m.trace| > 0
    ensures SameStreams(m, r)
    decreases |states|
  {
    if states == [] then m
    else
      var before, s := SendAll(m, i, states[..|states| - 1]), states[|states| - 1];
      if m.rxjs.V6? then Receive(before, i, s) else Send(before, i, s)
  }

  /** `switchMap` subscribes to `p`, whose stream sends `prefix` before the subscription call returns. */
  function Attach(m: Model, p: Provider, prefix: seq<ConnectionState>): (r: Model)
    requires |m.trace| > 0
    ensures SameSetup(m, r)
  {
    var i := |m.streams|;
    var r := SendAll(m.(streams := m.streams + [p], inner := Attached(i), heard := false), i, prefix);
    if m.rxjs.V6? then r.(inner := Attached(i)) else r
  }

  /** `provider.next(p)`. */
  function Install(m: Model, p: Provider, prefix: seq<ConnectionState>): (r: Model)
    requires |m.trace| > 0
    ensures SameSetup(m, r)
  {
    if m.installed == Some(p) then m
    else if m.inner.Unattached? then m.(installed := Some(p))
    else Attach(m.(installed := Some(p)), p, prefix)
  }

  /** One subscriber's reaction to a disconnected state: the subject is emptied, then the stored id is read. */
  function Reacted(m: Model): Model
    requires |m.trace| > 0
  {
    var r := Reset(m);
    r.(clears := r.clears + [m.stored])
  }

  /** A new subscriber is sent the last state again, and the effect runs for it too. */
  function Replay(m: Model): Model
    requires |m.trace| > 0
  {
    if Last(m).Disconnected? && !m.unloading then Reacted(m) else m
  }

  // ---- tasks ----

  datatype Event =
    | AutoDecides(result: AutoResult)                                 // checkAutoConnect reaches its return
    | AutoDelivers(prefix: seq<ConnectionState>)                      // its state is delivered, the subject subscribed
    | Sends(index: nat, state: ConnectionState)                       // a stream sends, or fails (Disconnected)
    | ConnectCalled                                                   // connect takes its snapshot
    | ConnectResumes(provider: Provider, prefix: seq<ConnectionState>)
    | DisconnectResumes                                               // a disconnect gets past the wallet's own
    | ClearResumes(index: nat)                                        // a disconnect effect gets past getValue()
    | Subscribed
    | Unsubscribed
    | Unloads

  function Decide(m: Model, r: AutoResult): Model {
    match r
    case AutoSelected(p) =>
      Store(m.(installed := Some(p), decided := Some(Connecting(p.id))), Some(p.id))
    case Restored(p) =>
      m.(installed := Some(p), decided := Some(Connecting(p.id)))
    case Forgotten => Store(m.(decided := Some(Disconnected(None))), None)
    case NothingStored => m.(decided := Some(Disconnected(None)))
    case Failed(e) => m.(decided := Some(Disconnected(Some(e))))
  }

  function AutoDeliver(m: Model, s: ConnectionState, prefix: seq<ConnectionState>): (r: Model)
    requires |m.trace| > 0
    ensures SameSetup(m, r)
  {
    var d := Deliver(m, s, FromAutoConnect).(decided := None);
    match d.installed
    case Some(p) => Attach(d, p, prefix)
    case None => Deliver(d.(inner := NoProvider), Disconnected(None), FromReset)
  }

  function Remove<T>(s: seq<T>, k: nat): seq<T>
    requires k < |s|
  {
    s[..k] + s[k + 1..]
  }

  /** Some emitted state carried a disconnect closure. */
  predicate HasClosure(trace: seq<Entry>) {
    exists k :: 0 <= k < |trace| && trace[k].state.Connected?
  }

  /** When an event can happen at all. `connect` is used only once auto-connect has delivered. */
  predicate Enabled(m: Model, e: Event) {
    match e
    case AutoDecides(r) =>
      m.inner.Unattached? && m.decided.None? && (r.Restored? ==> m.stored == Some(r.provider.id))
    case AutoDelivers(_) => m.inner.Unattached? && m.decided.Some?
    case Sends(i, _) => i < |m.streams|
    case ConnectCalled => !m.inner.Unattached?
    case ConnectResumes(_, _) => !m.inner.Unattached? && m.connects > 0
    case DisconnectResumes => !m.inner.Unattached? && HasClosure(m.trace)
    case ClearResumes(k) => k < |m.clears|
    case Subscribed => true
    case Unsubscribed => m.subscribers > 1
    case Unloads => true
  }

  /** One task. An event that is not enabled changes nothing. */
  function Step(m: Model, e: Event): (r: Model)
    requires |m.trace| > 0
    ensures SameSetup(m, r)
  {
    if !Enabled(m, e) then m else
    match e
    case AutoDecides(r) => Decide(m, r)
    case AutoDelivers(prefix) => AutoDeliver(m, m.decided.value, prefix)
    case Sends(i, s) => Send(m, i, s)
    case ConnectCalled =>
      var r := Replay(m);
      if m.installed.Some? && Last(m).Connected? then r else r.(connects := m.connects + 1)
    case ConnectResumes(p, prefix) =>
      Store(Install(m.(connects := m.connects - 1), p, prefix), Some(p.id))
    case DisconnectResumes => Reset(m)
    case ClearResumes(k) =>
      var r := m.(clears := Remove(m.clears, k));
      if m.clears[k].Some? then Store(r, None) else r
    case Subscribed => Replay(m).(subscribers := m.subscribers + 1)
    case Unsubscribed => m.(subscribers := m.subscribers - 1)
    case Unloads => m.(unloading := true)
  }

  function Run(m: Model, events: seq<Event>): (r: Model)
    requires |m.trace| > 0
    ensures SameSetup(m, r)
    decreases |events|
  {
    if events == [] then m else Step(Run(m, events[..|events| - 1]), events[|events| - 1])
  }
}
