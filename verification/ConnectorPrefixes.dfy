/** What a provider stream sends before its subscription call returns, and what disconnect effects have read. */
module ConnectorPrefixes {
  import opened Wrappers
  import opened ConnectionStates

  predicate AllDisconnected(states: seq<ConnectionState>) {
    forall k :: 0 <= k < |states| ==> states[k].Disconnected?
  }

  /** The stream says disconnected after something else was on show. */
  predicate Drops(last: ConnectionState, states: seq<ConnectionState>) {
    exists k :: 0 <= k < |states| && states[k].Disconnected? && !(last.Disconnected? && AllDisconnected(states[..k]))
  }

  lemma DropsLast(last: ConnectionState, states: seq<ConnectionState>)
    requires states != []
    ensures var init := states[..|states| - 1]; var s := states[|states| - 1];
      && AllDisconnected(states) == (AllDisconnected(init) && s.Disconnected?)
      && Drops(last, states) ==
           (Drops(last, init) || (s.Disconnected? && !(last.Disconnected? && AllDisconnected(init))))
  {
    var init := states[..|states| - 1];
    forall k | 0 <= k < |init| ensures init[..k] == states[..k] {}
    if Drops(last, init) {
      var k :| 0 <= k < |init| && init[k].Disconnected? && !(last.Disconnected? && AllDisconnected(init[..k]));
      assert states[k].Disconnected? && states[..k] == init[..k];
    }
    if Drops(last, states) {
      var k :| 0 <= k < |states| && states[k].Disconnected? && !(last.Disconnected? && AllDisconnected(states[..k]));
      if k < |init| { assert init[k].Disconnected? && init[..k] == states[..k]; }
    }
    assert states[..|init|] == init;
  }

  lemma DropsAfterDisconnected(last: ConnectionState, states: seq<ConnectionState>)
    requires last.Disconnected?
    ensures Drops(last, states) ==> !AllDisconnected(states)
  {
    if Drops(last, states) {
      var k :| 0 <= k < |states| && states[k].Disconnected? && !(last.Disconnected? && AllDisconnected(states[..k]));
      var j :| 0 <= j < k && !states[..k][j].Disconnected?;
      assert !states[j].Disconnected?;
    }
  }

  /** The stream says something else again after it has dropped. */
  predicate SpeaksAgain(last: ConnectionState, states: seq<ConnectionState>) {
    exists j :: 0 <= j < |states| && !states[j].Disconnected? && Drops(last, states[..j])
  }

  lemma SpeaksAgainLast(last: ConnectionState, states: seq<ConnectionState>)
    requires states != []
    ensures var init := states[..|states| - 1]; var s := states[|states| - 1];
      SpeaksAgain(last, states) == (SpeaksAgain(last, init) || (!s.Disconnected? && Drops(last, init)))
  {
    var init := states[..|states| - 1];
    forall j | 0 <= j <= |init| ensures init[..j] == states[..j] {}
    if SpeaksAgain(last, init) {
      var j :| 0 <= j < |init| && !init[j].Disconnected? && Drops(last, init[..j]);
      assert !states[j].Disconnected? && Drops(last, states[..j]);
    }
    if !states[|init|].Disconnected? && Drops(last, init) { assert states[..|init|] == init; }
    if SpeaksAgain(last, states) {
      var j :| 0 <= j < |states| && !states[j].Disconnected? && Drops(last, states[..j]);
      if j < |init| { assert !init[j].Disconnected? && Drops(last, init[..j]); }
    }
  }

  lemma SpeaksAgainDrops(last: ConnectionState, states: seq<ConnectionState>)
    requires SpeaksAgain(last, states)
    ensures Drops(last, states)
  {
    var j :| 0 <= j < |states| && !states[j].Disconnected? && Drops(last, states[..j]);
    var k :| 0 <= k < j && states[..j][k].Disconnected? &&
             !(last.Disconnected? && AllDisconnected(states[..j][..k]));
    assert states[k].Disconnected? && states[..j][..k] == states[..k];
  }

  /** Some waiting effect has read an id and will clear it. */
  predicate HasClear(clears: seq<Option<string>>) {
    exists k :: 0 <= k < |clears| && clears[k].Some?
  }

  lemma ClearsGrow(clears: seq<Option<string>>, stored: Option<string>, n: nat)
    ensures HasClear(clears + seq(n, _ => stored)) <==> HasClear(clears) || (n > 0 && stored.Some?)
  {
    var more := clears + seq(n, _ => stored);
    if HasClear(clears) {
      var k :| 0 <= k < |clears| && clears[k].Some?;
      assert more[k].Some?;
    }
    if n > 0 { assert more[|clears|] == stored; }
  }
}
