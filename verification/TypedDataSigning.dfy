/**
 * `signTypedData`: which signing methods a wallet is asked in turn, and what happens when the user refuses.
 *
 * The wallet's replies are a parameter; no method is asked twice.
 */
module TypedDataSigning {
  import opened Wrappers

  /** What a wallet answers or throws. Only objects can have a code or a message. */
  datatype Value = Plain(text: string) | Details(code: Option<int>, message: Option<Message>)

  /** `parsed` is what JSON.parse makes of the text, if it accepts it. */
  datatype Message = Message(text: string, parsed: Option<Value>)

  const DENIED := "User denied message signature."

  const UNSUPPORTED := "MetaMask Message Signature: Error: Not supported on this device"

  // ---- refusals ----

  predicate Includes(s: string, part: string) {
    exists i :: 0 <= i <= |s| && OccursAt(s, part, i)
  }

  predicate OccursAt(s: string, part: string, i: nat)
    requires i <= |s|
  {
    part <= s[i..]
  }

  predicate Refusal(v: Value) {
    v.Details? && v.code.Some? &&
    (v.code.value in {4900, 4001, 4901, 4100} || (v.message.Some? && Includes(v.message.value.text, DENIED)))
  }

  function Inner(v: Value): (r: Option<Value>)
    ensures r.Some? ==> r.value < v
  {
    if v.Details? && v.message.Some? then v.message.value.parsed else None
  }

  /** What `filterErrors` throws, if it throws. */
  function FilterErrors(v: Value): Option<Value> {
    if Refusal(v) then Some(v)
    else match Inner(v) case Some(w) => FilterErrors(w) case None => None
  }

  /** `w` is `v` or is wrapped in its message, however deep. */
  predicate Wraps(v: Value, w: Value) {
    v == w || (Inner(v).Some? && Wraps(Inner(v).value, w))
  }

  /** It throws if and only if some layer is a refusal, and then the outermost one. */
  lemma {:induction false} FilterFindsOutermostRefusal(v: Value)
    ensures FilterErrors(v).None? <==> forall w :: Wraps(v, w) ==> !Refusal(w)
    ensures FilterErrors(v).Some? ==>
      var found := FilterErrors(v).value;
      Refusal(found) && Wraps(v, found) && forall w :: Wraps(v, w) && Refusal(w) ==> Wraps(found, w)
  {
    if !Refusal(v) && Inner(v).Some? {
      FilterFindsOutermostRefusal(Inner(v).value);
      if FilterErrors(v).Some? { assert Wraps(v, FilterErrors(v).value); }
    } else {
      assert Wraps(v, v);
    }
  }

  // ---- the methods in turn ----

  datatype Method = V4 | EthSign | V3 | Unversioned

  datatype Reply = Answered(value: Value) | Failed(error: Value)

  /** `SigningError` is the SDK's own error, built around the first failure. */
  datatype Outcome = Signed(value: Value) | Rethrown(error: Value) | SigningError(first: Value, stack: seq<Value>)

  function Content(r: Reply): Value {
    match r case Answered(v) => v case Failed(e) => e
  }

  predicate NeedsHardware(e: Value) {
    e.Details? && e.message.Some? && e.message.value.text == UNSUPPORTED
  }

  /** The methods asked, in order. */
  function Asked(replies: Method -> Reply): seq<Method> {
    var v4, v3 := replies(V4), replies(V3);
    if v4.Answered? || FilterErrors(v4.error).Some? then [V4]
    else if NeedsHardware(v4.error) then [V4, EthSign]
    else if v3.Answered? || FilterErrors(v3.error).Some? then [V4, V3]
    else [V4, V3, Unversioned]
  }

  /** What a failed method is reported with: a refusal of the third version is unwrapped first. */
  function Reported(replies: Method -> Reply, m: Method): Value
    requires replies(m).Failed?
  {
    var e := replies(m).error;
    if m.V3? && FilterErrors(e).Some? then FilterErrors(e).value else e
  }

  predicate Reports(replies: Method -> Reply, asked: seq<Method>, stack: seq<Value>) {
    |stack| == |asked| &&
    forall k :: 0 <= k < |asked| ==> replies(asked[k]).Failed? && stack[k] == Reported(replies, asked[k])
  }

  /**
   * The outer try and catch. A refusal in the first reply is thrown as it is; a refusal of a later method, like
   * any other last failure, ends up inside an error that is built around the first failure.
   */
  method SignTypedData(replies: Method -> Reply) returns (outcome: Outcome, asked: seq<Method>)
    ensures asked == Asked(replies)
    ensures match FilterErrors(Content(replies(V4)))
            case Some(refusal) => outcome == Rethrown(refusal)
            case None =>
              match replies(asked[|asked| - 1])
              case Answered(v) => outcome == Signed(v)
              case Failed(_) =>
                outcome.SigningError? && outcome.first == replies(V4).error && Reports(replies, asked, outcome.stack)
  {
    FilterFindsOutermostRefusal(Content(replies(V4)));
    var error: Value;
    match replies(V4) {
      case Answered(signature) =>
        var thrown := FilterErrors(signature);
        if thrown.None? { return Signed(signature), [V4]; }
        error := thrown.value;
      case Failed(e) => error := e;
    }
    var refusal := FilterErrors(error);
    if refusal.Some? { return Rethrown(refusal.value), [V4]; }
    var last, errorsStack;
    last, asked, errorsStack := AskFurther(replies, error);
    match last
    case Answered(signature) => outcome := Signed(signature);
    case Failed(e) => outcome := SigningError(error, errorsStack + [e]);
  }

  /** The inner try blocks, entered once the first method has failed with `error`. */
  method AskFurther(replies: Method -> Reply, error: Value)
    returns (last: Reply, asked: seq<Method>, errorsStack: seq<Value>)
    requires replies(V4) == Failed(error) && FilterErrors(error).None?
    ensures asked == Asked(replies)
    ensures var m := asked[|asked| - 1];
      if replies(m).Failed? then last == Failed(Reported(replies, m)) else last == replies(m)
    ensures Reports(replies, asked[..|asked| - 1], errorsStack)
  {
    errorsStack := [error];
    if NeedsHardware(error) { return replies(EthSign), [V4, EthSign], errorsStack; }
    asked, last := [V4, V3], replies(V3);
    if last.Failed? {
      var refusal := FilterErrors(last.error);
      if refusal.Some? { return Failed(refusal.value), asked, errorsStack; }
      errorsStack := errorsStack + [last.error];
      asked, last := asked + [Unversioned], replies(Unversioned);
    }
  }

  // ---- refusing ----

  /** A failure is reported as it is, but of a third-version failure that wraps refusals only the outermost refusal. */
  lemma ReportedRefusal(replies: Method -> Reply, m: Method)
    requires replies(m).Failed?
    ensures var e, r := replies(m).error, Reported(replies, m);
      if m == V3 && exists w :: Wraps(e, w) && Refusal(w)
      then Refusal(r) && Wraps(e, r) && forall w :: Wraps(e, w) && Refusal(w) ==> Wraps(r, w)
      else r == e
  {
    FilterFindsOutermostRefusal(replies(m).error);
  }

  lemma IncludesIff(s: string, part: string)
    ensures Includes(s, part) <==> exists a, b :: s == a + part + b
  {
    if Includes(s, part) {
      var i :| 0 <= i <= |s| && OccursAt(s, part, i);
      assert s == s[..i] + part + s[i..][|part|..];
    }
    if a, b :| s == a + part + b {
      assert s[|a|..] == part + b;
      assert OccursAt(s, part, |a|);
    }
  }

  /** A refusal: an object with one of four codes, or with any code and a message that has the wallet's words in it. */
  lemma RefusalIff(v: Value)
    ensures Refusal(v) <==>
      v.Details? && v.code.Some? &&
      (v.code in [Some(4900), Some(4001), Some(4901), Some(4100)] ||
       (v.message.Some? && exists a, b :: v.message.value.text == a + "User denied message signature." + b))
  {
    if v.Details? && v.message.Some? { IncludesIff(v.message.value.text, DENIED); }
  }

  /** Which method comes next: `eth_sign` only after the one message that says the device cannot sign typed data. */
  lemma NextMethod(replies: Method -> Reply, k: nat)
    requires k + 1 < |Asked(replies)|
    ensures Asked(replies)[0] == V4 && (k > 0 ==> Asked(replies)[k] == V3)
    ensures var e := replies(V4).error;
      k == 0 ==>
        Asked(replies)[1] ==
          if e.Details? && e.message.Some? &&
             e.message.value.text == "MetaMask Message Signature: Error: Not supported on this device"
          then EthSign else V3
    ensures k == 1 ==> Asked(replies)[2] == Unversioned
  {
  }

  /** A further method is asked exactly after a failure without a refusal in any layer, until none is left. */
  lemma AskedFurtherIff(replies: Method -> Reply, k: nat)
    requires k < |Asked(replies)|
    ensures var m := Asked(replies)[k];
      k + 1 < |Asked(replies)| <==>
        m != EthSign && m != Unversioned && replies(m).Failed? && forall w :: Wraps(replies(m).error, w) ==> !Refusal(w)
  {
    if replies(Asked(replies)[k]).Failed? { FilterFindsOutermostRefusal(replies(Asked(replies)[k]).error); }
  }
}
