/**
 * A mapped provider: every source state starts an asynchronous task, and `switchMap` lets only the newest
 * task's answer through.
 */
module MappedProviders {
  import opened Wrappers
  import opened ConnectionStates

  /** An emitted state together with the position of the source state it is made from. */
  datatype Output = Output(index: nat, state: ConnectionState)

  datatype Mapped = Mapped(sources: seq<ConnectionState>, pending: bool, outputs: seq<Output>, failed: Option<string>)

  /** Task `index` ends: its mapper call answers `connection` (ignored unless the state is connected) or throws. */
  datatype Event =
    | SourceSends(state: ConnectionState)
    | TaskResolves(index: nat, connection: Ref)
    | TaskRejects(index: nat, error: string)

  const START := Mapped([], false, [], None)

  /** The state a task answers with: status and disconnect closure are kept, the connection is the mapper's. */
  function Image(s: ConnectionState, connection: Ref): ConnectionState {
    if s.Connected? then Connected(connection, s.disconnect) else s
  }

  /** `pending` says that the newest task has not answered; all older tasks have been unsubscribed from. */
  function Step(m: Mapped, e: Event): Mapped {
    if m.failed.Some? then m
    else match e
      case SourceSends(s) => m.(sources := m.sources + [s], pending := true)
      case TaskResolves(i, c) =>
        if m.pending && i + 1 == |m.sources|
        then m.(pending := false, outputs := m.outputs + [Output(i, Image(m.sources[i], c))])
        else m
      case TaskRejects(i, error) =>
        if m.pending && i + 1 == |m.sources| && m.sources[i].Connected?
        then m.(pending := false, failed := Some(error))
        else m
  }

  function Run(events: seq<Event>): Mapped
    decreases |events|
  {
    if events == [] then START else Step(Run(events[..|events| - 1]), events[|events| - 1])
  }

  predicate ImageOf(o: Output, sources: seq<ConnectionState>) {
    o.index < |sources| &&
    var s := sources[o.index];
    if s.Connected? then o.state.Connected? && o.state.disconnect == s.disconnect else o.state == s
  }

  /** The connection of an output, if it has one, is what the mapper answered for that very source state. */
  predicate Answered(o: Output, events: seq<Event>) {
    o.state.Connected? ==> TaskResolves(o.index, o.state.connection) in events
  }

  predicate Faithful(m: Mapped) {
    && (forall k :: 0 <= k < |m.outputs| ==> ImageOf(m.outputs[k], m.sources))
    && (forall j, k :: 0 <= j < k < |m.outputs| ==> m.outputs[j].index < m.outputs[k].index)
    && (m.pending ==> m.sources != [] && (m.outputs != [] ==> m.outputs[|m.outputs| - 1].index + 1 < |m.sources|))
    && (!m.pending && m.failed.None? && m.sources != [] ==>
          m.outputs != [] && m.outputs[|m.outputs| - 1].index + 1 == |m.sources|)
  }

  /** Sources seen by the run, whether or not the stream has failed since. */
  function Sent(events: seq<Event>): seq<ConnectionState> {
    if events == [] then []
    else Sent(events[..|events| - 1]) + (match events[|events| - 1] case SourceSends(s) => [s] case _ => [])
  }

  lemma StepFaithful(m: Mapped, e: Event)
    requires Faithful(m)
    ensures Faithful(Step(m, e))
  {
    var r := Step(m, e);
    forall k | 0 <= k < |r.outputs| ensures ImageOf(r.outputs[k], r.sources) {
      if k < |m.outputs| { assert ImageOf(m.outputs[k], m.sources); }
    }
  }

  lemma {:induction false} RunFaithful(events: seq<Event>)
    ensures Faithful(Run(events))
    decreases |events|
  {
    if events != [] {
      RunFaithful(events[..|events| - 1]);
      StepFaithful(Run(events[..|events| - 1]), events[|events| - 1]);
    }
  }

  lemma {:induction false} RunSources(events: seq<Event>)
    ensures Run(events).sources <= Sent(events)
    ensures Run(events).failed.None? ==> Run(events).sources == Sent(events)
    decreases |events|
  {
    if events != [] { RunSources(events[..|events| - 1]); }
  }

  lemma {:induction false} RunAnswered(events: seq<Event>)
    ensures forall k :: 0 <= k < |Run(events).outputs| ==> Answered(Run(events).outputs[k], events)
    decreases |events|
  {
    if events != [] {
      var init, e := events[..|events| - 1], events[|events| - 1];
      RunAnswered(init);
      var r := Run(events);
      forall k | 0 <= k < |r.outputs| ensures Answered(r.outputs[k], events) {
        if k < |Run(init).outputs| { assert Answered(Run(init).outputs[k], init); } else { assert e in events; }
      }
    }
  }

  lemma OneMore(events: seq<Event>, e: Event)
    ensures Run(events + [e]) == Step(Run(events), e)
  {
    assert (events + [e])[..|events + [e]| - 1] == events;
  }

  /** The newest task's answer is emitted, or its error ends the stream; every other task's answer is ignored. */
  lemma NewestAnswerIsEmitted(events: seq<Event>, i: nat, connection: Ref, error: string)
    requires Run(events).failed.None? && Run(events).pending
    ensures Sent(events) != []
    ensures var m, n := Run(events), |Sent(events)| - 1; var s := Sent(events)[n];
      && Run(events + [TaskResolves(n, connection)]).outputs
           == m.outputs + [Output(n, if s.Connected? then Connected(connection, s.disconnect) else s)]
      && !Run(events + [TaskResolves(n, connection)]).pending
      && (s.Connected? ==> Run(events + [TaskRejects(n, error)]).failed == Some(error))
      && (i != n ==> Run(events + [TaskResolves(i, connection)]) == Run(events + [TaskRejects(i, error)]) == m)
  {
    RunFaithful(events);
    RunSources(events);
    var n := |Sent(events)| - 1;
    OneMore(events, TaskResolves(n, connection));
    OneMore(events, TaskRejects(n, error));
    OneMore(events, TaskResolves(i, connection));
    OneMore(events, TaskRejects(i, error));
  }

  /** Until a mapper has thrown every state of the source starts a task; afterwards nothing changes any more. */
  lemma {:induction false} FailureIsFinal(events: seq<Event>, s: ConnectionState, later: seq<Event>)
    ensures Run(events).failed.None? ==>
      var r := Run(events + [SourceSends(s)]); r.pending && r.failed.None? && r.outputs == Run(events).outputs
    ensures Run(events).failed.Some? ==> Run(events + later) == Run(events)
    decreases |later|
  {
    OneMore(events, SourceSends(s));
    if later == [] {
      assert events + later == events;
    } else {
      FailureIsFinal(events, s, later[..|later| - 1]);
      OneMore(events + later[..|later| - 1], later[|later| - 1]);
      assert events + later == events + later[..|later| - 1] + [later[|later| - 1]];
    }
  }

  /**
   * In every run the outputs are, in order and without repetition, images of source states; and while nothing
   * is pending and no mapper has thrown, the last output is the image of the very last state the source sent.
   */
  lemma LatestWins(events: seq<Event>)
    ensures var m := Run(events);
      && m.sources <= Sent(events)
      && (forall k :: 0 <= k < |m.outputs| ==> ImageOf(m.outputs[k], Sent(events)) && Answered(m.outputs[k], events))
      && (forall j, k :: 0 <= j < k < |m.outputs| ==> m.outputs[j].index < m.outputs[k].index)
      && (m.failed.None? && !m.pending && Sent(events) != [] ==>
            m.outputs != [] && m.outputs[|m.outputs| - 1].index == |Sent(events)| - 1)
  {
    RunFaithful(events);
    RunSources(events);
    RunAnswered(events);
    var m := Run(events);
    forall k | 0 <= k < |m.outputs| ensures ImageOf(m.outputs[k], Sent(events)) {
      assert ImageOf(m.outputs[k], m.sources);
    }
  }

  /** A connected state whose mapping is slow is dropped once the source has sent anything later, for good. */
  lemma {:induction false} StaleNeverEmitted(before: seq<Event>, s: ConnectionState, after: seq<Event>)
    ensures var m := Run(before); var i := |m.sources| - 1; var n := Run(before + [SourceSends(s)] + after);
      m.failed.None? && m.pending ==>
        |n.outputs| >= |m.outputs| && forall k :: |m.outputs| <= k < |n.outputs| ==> n.outputs[k].index > i
    decreases |after|
  {
    var m, events := Run(before), before + [SourceSends(s)] + after;
    if after == [] {
      assert events[..|events| - 1] == before;
    } else {
      StaleNeverEmitted(before, s, after[..|after| - 1]);
      var init := before + [SourceSends(s)] + after[..|after| - 1];
      assert events[..|events| - 1] == init;
      SourcesGrow(before, s, after[..|after| - 1]);
    }
  }

  lemma {:induction false} SourcesGrow(before: seq<Event>, s: ConnectionState, after: seq<Event>)
    ensures Run(before).failed.None? ==> |Run(before + [SourceSends(s)] + after).sources| > |Run(before).sources|
    decreases |after|
  {
    var events := before + [SourceSends(s)] + after;
    if after == [] {
      assert events[..|events| - 1] == before;
    } else {
      SourcesGrow(before, s, after[..|after| - 1]);
      assert events[..|events| - 1] == before + [SourceSends(s)] + after[..|after| - 1];
    }
  }
}
