/** The respond-once guard of the message listener (background.js:10-36):
    each incoming message gets a `safeResponse` closure over a
    `hasResponded` flag, so the sender sees at most one answer however many
    completion paths call it. */
module Responder {
  import opened Wrappers

  datatype Response = Success | Failure(error: string)

  /** The answer object: `{success: true}`, or `{success: false, error}`
      where the error text is the error object's message, or "Unknown error"
      when there is no error object or its message is empty. `errorMessage`
      is that message (`None` when there is no error object or no message). */
  function ResponseFor(success: bool, errorMessage: Option<string>): (r: Response)
    ensures r.Success? <==> success
    ensures r.Failure? ==> r.error != ""
  {
    if success then Success
    else if errorMessage.Some? && errorMessage.value != "" then Failure(errorMessage.value)
    else Failure("Unknown error")
  }

  /** The closure's state: the flag, and the answers that reached the sender. */
  class Responder {
    var hasResponded: bool
    var delivered: seq<Response>

    ghost predicate Valid()
      reads this
    {
      |delivered| <= 1 && (hasResponded <==> |delivered| == 1)
    }

    constructor()
      ensures Valid() && !hasResponded && delivered == []
    {
      hasResponded := false;
      delivered := [];
    }

    /** One call of `safeResponse`. `sendOk` is false when `sendResponse`
        throws: nothing reaches the sender and the flag stays clear. */
    method SafeResponse(success: bool, errorMessage: Option<string>, sendOk: bool)
      requires Valid()
      modifies this
      ensures Valid()
      ensures old(hasResponded) || !sendOk ==>
        hasResponded == old(hasResponded) && delivered == old(delivered)
      ensures !old(hasResponded) && sendOk ==>
        hasResponded && delivered == [ResponseFor(success, errorMessage)]
    {
      if hasResponded {
        return;
      }
      var response := ResponseFor(success, errorMessage);
      if sendOk {
        delivered := delivered + [response];
        hasResponded := true;
      }
    }
  }

  /** One completion path calling `safeResponse`. */
  datatype Attempt = Attempt(success: bool, errorMessage: Option<string>, sendOk: bool)

  /** What reaches the sender after a sequence of calls. */
  function Delivered(attempts: seq<Attempt>): seq<Response> {
    if attempts == [] then [] else
      var prev := Delivered(attempts[..|attempts| - 1]);
      var a := attempts[|attempts| - 1];
      if prev != [] || !a.sendOk then prev else [ResponseFor(a.success, a.errorMessage)]
  }

  /** A listener run: a fresh guard, called once per completion path. */
  method RespondToAttempts(attempts: seq<Attempt>) returns (delivered: seq<Response>)
    ensures delivered == Delivered(attempts)
  {
    var responder := new Responder();
    for k := 0 to |attempts|
      invariant responder.Valid()
      invariant responder.delivered == Delivered(attempts[..k])
    {
      assert attempts[..k + 1][..k] == attempts[..k];
      var a := attempts[k];
      responder.SafeResponse(a.success, a.errorMessage, a.sendOk);
    }
    assert attempts[..|attempts|] == attempts;
    delivered := responder.delivered;
  }

  predicate SomeSendSucceeds(attempts: seq<Attempt>) {
    exists i :: 0 <= i < |attempts| && attempts[i].sendOk
  }

  /** Call i is the first whose send went through. */
  predicate FirstSuccessfulSend(attempts: seq<Attempt>, i: int) {
    0 <= i < |attempts| && attempts[i].sendOk && forall j :: 0 <= j < i ==> !attempts[j].sendOk
  }

  /** At most one answer reaches the sender, and one does exactly when some
      send went through. */
  lemma {:induction false} AtMostOneAnswer(attempts: seq<Attempt>)
    ensures |Delivered(attempts)| <= 1
    ensures Delivered(attempts) != [] <==> SomeSendSucceeds(attempts)
  {
    if attempts != [] {
      var init := attempts[..|attempts| - 1];
      AtMostOneAnswer(init);
      if SomeSendSucceeds(attempts) {
        var i :| 0 <= i < |attempts| && attempts[i].sendOk;
        if i < |init| {
          assert init[i].sendOk;
        }
      }
      if SomeSendSucceeds(init) {
        var i :| 0 <= i < |init| && init[i].sendOk;
        assert attempts[i].sendOk;
      }
    }
  }

  /** The answer that reaches the sender is the one of the first call whose
      send went through. */
  lemma {:induction false} FirstSuccessfulSendWins(attempts: seq<Attempt>, i: int)
    requires FirstSuccessfulSend(attempts, i)
    ensures Delivered(attempts) == [ResponseFor(attempts[i].success, attempts[i].errorMessage)]
  {
    var init := attempts[..|attempts| - 1];
    if i < |init| {
      assert FirstSuccessfulSend(init, i);
      FirstSuccessfulSendWins(init, i);
    } else {
      AtMostOneAnswer(init);
      assert !SomeSendSucceeds(init);
    }
  }

  /** Once an answer has gone out, later calls change nothing. */
  lemma {:induction false} LaterCallsIgnored(attempts: seq<Attempt>, later: seq<Attempt>)
    requires Delivered(attempts) != []
    ensures Delivered(attempts + later) == Delivered(attempts)
    decreases |later|
  {
    if later == [] {
      assert attempts + later == attempts;
    } else {
      var init := later[..|later| - 1];
      assert (attempts + later)[..|attempts + later| - 1] == attempts + init;
      LaterCallsIgnored(attempts, init);
    }
  }
}
