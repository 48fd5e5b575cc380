/** The four connection states and the comparison that suppresses repeated emissions. */
module ConnectionStates {
  import opened Wrappers

  /** Identity of a JavaScript object or closure: two values are `===` when the numbers are equal. */
  type Ref = nat

  datatype ConnectionState =
    | Initializing
    | Connecting(providerId: string)
    | Connected(connection: Ref, disconnect: Option<Ref>)
    | Disconnected(error: Option<string>)

  /** The comparison passed to `distinctUntilChanged`, apart from its page-unload guard. */
  predicate Same(a: ConnectionState, b: ConnectionState) {
    if a == b then true
    else if a.Connected? && b.Connected? then a.connection == b.connection
    else if a.Connecting? && b.Connecting? then a.providerId == b.providerId
    else Status(a) == Status(b)
  }

  function Status(s: ConnectionState): string {
    match s
    case Initializing => "initializing"
    case Connecting(_) => "connecting"
    case Connected(_, _) => "connected"
    case Disconnected(_) => "disconnected"
  }

  /** What the comparison can see of a state: never the error, never the disconnect closure. */
  datatype Key = KeyInitializing | KeyConnecting(id: string) | KeyConnected(connection: Ref) | KeyDisconnected

  function KeyOf(s: ConnectionState): Key {
    match s
    case Initializing => KeyInitializing
    case Connecting(id) => KeyConnecting(id)
    case Connected(c, _) => KeyConnected(c)
    case Disconnected(_) => KeyDisconnected
  }

  lemma SameIsKeyEquality(a: ConnectionState, b: ConnectionState)
    ensures Same(a, b) <==> KeyOf(a) == KeyOf(b)
  {
    assert Status(a) == Status(b) ==>
        (a.Initializing? == b.Initializing? && a.Connecting? == b.Connecting? && a.Connected? == b.Connected?) by {
      assert "initializing"[0] == 'i' && "connecting"[0] == 'c' && "disconnected"[0] == 'd';
      assert |"connecting"| == 10 && |"connected"| == 9;
    }
  }

  /** The comparison is an equivalence relation, so "no two adjacent equal states" is well defined. */
  lemma SameIsEquivalence(a: ConnectionState, b: ConnectionState, c: ConnectionState)
    ensures Same(a, a)
    ensures Same(a, b) ==> Same(b, a)
    ensures Same(a, b) && Same(b, c) ==> Same(a, c)
  {
    SameIsKeyEquality(a, b);
    SameIsKeyEquality(b, a);
    SameIsKeyEquality(b, c);
    SameIsKeyEquality(a, c);
  }
}
