/**
 * The connector object itself. Its methods update the fields the way the source's callbacks do, re-entrant
 * `provider.next(undefined)` included, and each is proved to be one step of `ConnectorModel`.
 */
module Connectors {
  import opened Wrappers
  import opened ConnectionStates
  import opened ConnectorModel
  import opened ConnectorEffects
  import M = ConnectorModel

  /** How an awaited wallet question ends. */
  type Answer = Result<bool, string>

  /** Whether `r` is the outcome of `checkAutoConnect` for these answers. */
  ghost predicate AutoOutcome(providers: seq<Provider>, auto: seq<Answer>, stored: Option<string>,
                              connected: seq<Answer>, r: AutoResult)
    requires |auto| == |connected| == |providers|
  {
    if exists i :: 0 <= i < |auto| && auto[i] != Ok(false) then
      // the first answer that is not "no" decides
      exists i :: 0 <= i < |auto| && auto[i] != Ok(false) && (forall j :: 0 <= j < i ==> auto[j] == Ok(false)) &&
        r == match auto[i] case Ok(_) => AutoSelected(providers[i]) case Err(e) => Failed(e)
    else if stored.Some? then StoredOutcome(providers, stored.value, connected, r)
    else r == NothingStored
  }

  /** The first provider with the stored id decides; later ones with the same id are not asked. */
  ghost predicate StoredOutcome(providers: seq<Provider>, id: string, connected: seq<Answer>, r: AutoResult)
    requires |connected| == |providers|
  {
    if exists i :: 0 <= i < |providers| && providers[i].id == id then
      exists i :: 0 <= i < |providers| && providers[i].id == id && (forall j :: 0 <= j < i ==> providers[j].id != id) &&
        r == match connected[i]
             case Ok(yes) => (if yes then Restored(providers[i]) else Forgotten)
             case Err(e) => Failed(e)
    else r == NothingStored
  }

  /** Only the first subscriber's reaction finds a provider to remove; each of them reads the stored id. */
  lemma ReactedOnceMore(emitted: Model, k: nat)
    requires |emitted.trace| > 0 && Last(emitted).Disconnected? && !emitted.unloading
    ensures Reacted(if k == 0 then emitted else Tapped(emitted, k)) == Tapped(emitted, k + 1)
  {
    SameIsKeyEquality(Last(emitted), Disconnected(None));
    assert seq(k + 1, _ => emitted.stored) == seq(k, _ => emitted.stored) + [emitted.stored];
  }

  class Connector {
    const rxjs: RxJs
    const persistent: bool
    var installed: Option<Provider>
    var inner: Inner
    var streams: seq<Provider>
    ghost var heard: bool
    var decided: Option<ConnectionState>
    var last: ConnectionState
    ghost var trace: seq<Entry>
    var stored: Option<string>
    var clears: seq<Option<string>>
    var connects: nat
    var subscribers: nat
    var unloading: bool

    ghost predicate Valid()
      reads this
    {
      && |trace| > 0 && subscribers > 0 && last == trace[|trace| - 1].state
    }

    ghost function View(): Model
      reads this
    {
      Model(rxjs, persistent, installed, inner, streams, heard, decided, trace, stored, clears, connects, subscribers,
            unloading)
    }

    /** Built and subscribed to once. */
    constructor (rxjs: RxJs, persistent: bool, stored: Option<string>)
      ensures Valid() && View() == Start(rxjs, persistent, stored)
    {
      this.rxjs, this.persistent := rxjs, persistent;
      this.stored := if persistent then stored else None;
      installed, inner, streams, heard, decided := None, Unattached, [], false, None;
      last, trace := Initializing, [Entry(Initializing, FromStart, None, 0)];
      clears, connects, subscribers, unloading := [], 0, 1, false;
    }

    /** The outer `distinctUntilChanged`, then the effect of every subscriber. */
    method Deliver(s: ConnectionState, ghost source: Source)
      requires Valid()
      modifies this
      ensures Valid() && View() == M.Deliver(old(View()), s, source)
      decreases if last.Disconnected? || unloading then 0 else 1, 1
    {
      if unloading || Same(last, s) { return; }
      last, trace := s, trace + [Entry(s, source, installed, |streams|)];
      if s.Disconnected? { Effects(); }
    }

    method Effects()
      requires Valid() && last.Disconnected? && !unloading
      modifies this
      ensures Valid() && View() == Tapped(old(View()), old(subscribers))
      decreases 0, 4
    {
      ghost var emitted := View();
      var n := subscribers;
      for k := 0 to n
        invariant Valid() && last.Disconnected? && !unloading
        invariant View() == if k == 0 then emitted else Tapped(emitted, k)
      {
        ReactedOnceMore(emitted, k);
        Effect();
      }
    }

    /** One subscriber's reaction to a disconnected state, up to the first await. */
    method Effect()
      requires Valid() && last.Disconnected? && !unloading
      modifies this
      ensures Valid() && View() == Reacted(old(View()))
      ensures last.Disconnected?
      decreases 0, 3
    {
      ResetSubject();
      clears := clears + [stored];
    }

    /** `provider.next(undefined)`: through `switchMap` it calls back into the delivery that caused it. */
    method ResetSubject()
      requires Valid()
      modifies this
      ensures Valid() && View() == M.Reset(old(View()))
      ensures old(last).Disconnected? ==> last.Disconnected?
      decreases if last.Disconnected? || unloading then 0 else 1, 2
    {
      if installed.None? { return; }
      installed := None;
      if inner.Unattached? { return; }
      inner, heard := NoProvider, false;
      Deliver(Disconnected(None), FromReset);
    }

    method Send(i: nat, s: ConnectionState)
      requires Valid()
      modifies this
      ensures Valid() && View() == M.Send(old(View()), i, s)
    {
      if inner == Attached(i) { Receive(i, s); }
    }

    method Receive(i: nat, s: ConnectionState)
      requires Valid()
      modifies this
      ensures Valid() && View() == M.Receive(old(View()), i, s)
    {
      heard := heard || !s.Disconnected?;
      Deliver(s, FromSubscription(i));
    }

    /** Version 6 hears the whole prefix and takes note of the subscription last, version 7 takes note of it first. */
    method Attach(p: Provider, prefix: seq<ConnectionState>)
      requires Valid() && installed.Some?
      modifies this
      ensures Valid() && View() == M.Attach(old(View()), p, prefix)
    {
      var i := |streams|;
      streams, inner, heard := streams + [p], Attached(i), false;
      ghost var attached := View();
      for k := 0 to |prefix|
        invariant Valid() && View() == SendAll(attached, i, prefix[..k])
      {
        assert prefix[..k + 1][..k] == prefix[..k];
        if rxjs.V6? { Receive(i, prefix[k]); } else { Send(i, prefix[k]); }
      }
      assert prefix[..|prefix|] == prefix;
      if rxjs.V6? { inner := Attached(i); }
    }

    /** `provider.next(p)`. */
    method Install(p: Provider, prefix: seq<ConnectionState>)
      requires Valid()
      modifies this
      ensures Valid() && View() == M.Install(old(View()), p, prefix)
    {
      if installed == Some(p) { return; }
      installed := Some(p);
      if !inner.Unattached? { Attach(p, prefix); }
    }

    method Replay()
      requires Valid()
      modifies this
      ensures Valid() && View() == M.Replay(old(View()))
    {
      if last.Disconnected? && !unloading { Effect(); }
    }

    method SetStored(id: Option<string>)
      requires Valid()
      modifies this`stored
      ensures Valid() && View() == Store(old(View()), id)
    {
      if persistent { stored := id; }
    }

    // ---- tasks ----

    /** Asks every provider whether it is auto-connected, then tries the stored one. */
    method CheckAutoConnect(providers: seq<Provider>, auto: seq<Answer>, connected: seq<Answer>)
      returns (ghost r: AutoResult)
      requires Valid() && |auto| == |connected| == |providers|
      requires inner.Unattached? && decided.None?
      modifies this
      ensures Valid() && AutoOutcome(providers, auto, old(stored), connected, r)
      ensures View() == Step(old(View()), AutoDecides(r))
      ensures installed == (if Selected(r).Some? then Selected(r) else old(installed))
      ensures decided.Some? && AutoEmits(r, decided.value)
      ensures if persistent then AutoStores(r, old(stored), stored) else stored == old(stored)
    {
      for i := 0 to |providers|
        invariant Valid() && View() == old(View())
        invariant forall j :: 0 <= j < i ==> auto[j] == Ok(false)
      {
        match auto[i]
        case Ok(true) =>
          Install(providers[i], []);
          SetStored(Some(providers[i].id));
          decided := Some(Connecting(providers[i].id));
          r := AutoSelected(providers[i]);
          return;
        case Err(e) =>
          decided := Some(Disconnected(Some(e)));
          r := Failed(e);
          return;
        case Ok(false) =>
      }
      if stored.Some? {
        r := TryStored(providers, connected);
      } else {
        decided := Some(Disconnected(None));
        r := NothingStored;
      }
    }

    method TryStored(providers: seq<Provider>, connected: seq<Answer>) returns (ghost r: AutoResult)
      requires Valid() && |connected| == |providers|
      requires inner.Unattached? && decided.None? && stored.Some?
      modifies this
      ensures Valid() && StoredOutcome(providers, old(stored).value, connected, r)
      ensures View() == Step(old(View()), AutoDecides(r))
      ensures installed == (if Selected(r).Some? then Selected(r) else old(installed))
      ensures decided.Some? && AutoEmits(r, decided.value)
      ensures if persistent then AutoStores(r, old(stored), stored) else stored == old(stored)
    {
      for i := 0 to |providers|
        invariant Valid() && View() == old(View())
        invariant forall j :: 0 <= j < i ==> providers[j].id != stored.value
      {
        if providers[i].id == stored.value {
          match connected[i] {
            case Ok(true) =>
              Install(providers[i], []);
              decided := Some(Connecting(providers[i].id));
              r := Restored(providers[i]);
            case Ok(false) =>
              SetStored(None);
              decided := Some(Disconnected(None));
              r := Forgotten;
            case Err(e) =>
              decided := Some(Disconnected(Some(e)));
              r := Failed(e);
          }
          return;
        }
      }
      decided := Some(Disconnected(None));
      r := NothingStored;
    }

    /** The auto-connect state is delivered and `concat` moves on to the subject. */
    method DeliverAutoConnect(prefix: seq<ConnectionState>)
      requires Valid() && inner.Unattached? && decided.Some?
      modifies this
      ensures Valid() && View() == Step(old(View()), AutoDelivers(prefix))
    {
      Deliver(decided.value, FromAutoConnect);
      decided := None;
      match installed
      case Some(p) => Attach(p, prefix);
      case None =>
        inner := NoProvider;
        Deliver(Disconnected(None), FromReset);
    }

    method OnProviderState(i: nat, s: ConnectionState)
      requires Valid() && i < |streams|
      modifies this
      ensures Valid() && View() == Step(old(View()), Sends(i, s))
    {
      Send(i, s);
    }

    /** The first half of `connect`; `refused` when a provider is installed and connected already. */
    method Connect() returns (refused: bool)
      requires Valid() && !inner.Unattached?
      modifies this
      ensures Valid() && View() == Step(old(View()), ConnectCalled)
      ensures refused <==> old(installed).Some? && old(last).Connected?
    {
      var snapshot, state := installed, last;
      Replay();
      refused := snapshot.Some? && state.Connected?;
      if !refused { connects := connects + 1; }
    }

    method ResumeConnect(p: Provider, prefix: seq<ConnectionState>)
      requires Valid() && !inner.Unattached? && connects > 0
      modifies this
      ensures Valid() && View() == Step(old(View()), ConnectResumes(p, prefix))
    {
      connects := connects - 1;
      Install(p, prefix);
      SetStored(Some(p.id));
    }

    method ResumeDisconnect()
      requires Valid() && !inner.Unattached? && HasClosure(trace)
      modifies this
      ensures Valid() && View() == Step(old(View()), DisconnectResumes)
    {
      ResetSubject();
    }

    method ResumeClear(k: nat)
      requires Valid() && k < |clears|
      modifies this
      ensures Valid() && View() == Step(old(View()), ClearResumes(k))
    {
      var current := clears[k];
      clears := Remove(clears, k);
      if current.Some? { SetStored(None); }
    }

    method Subscribe()
      requires Valid()
      modifies this
      ensures Valid() && View() == Step(old(View()), Subscribed)
    {
      Replay();
      subscribers := subscribers + 1;
    }

    method Unsubscribe()
      requires Valid() && subscribers > 1
      modifies this
      ensures Valid() && View() == Step(old(View()), Unsubscribed)
    {
      subscribers := subscribers - 1;
    }

    method BeforeUnload()
      requires Valid()
      modifies this
      ensures Valid() && View() == Step(old(View()), Unloads)
    {
      unloading := true;
    }
  }
}
