/** The backend's token gate: a request without an Authorization header is refused, the
    header's token is verified, and a verified request gets its `user` and goes on to the
    next handler. `jwt.verify` with the server's secret is a partial function: `None` is the
    error it throws. */
module AuthMiddleware {
  import opened Wrappers
  import opened Text
  import opened Js

  /** What the gate decides for a request. */
  datatype Decision = Refuse(message: string) | Admit(decoded: JsValue)

  /** The token verified: the header with its first "Bearer " removed (wherever it occurs). */
  function TokenOf(header: string): (t: string)
    ensures IndexOf(header, "Bearer ").None? ==> t == header
    ensures IndexOf(header, "Bearer ").Some? ==>
      var i := IndexOf(header, "Bearer ").value; t == header[..i] + header[i + 7..]
    ensures IndexOf(header, "Bearer ").Some? ==> |t| == |header| - 7
    ensures StartsWith(header, "Bearer ") ==> t == header[7..]
  {
    assert StartsWith(header, "Bearer ") ==> IndexOf(header, "Bearer ") == Some(0);
    ReplaceFirst(header, "Bearer ", "")
  }

  /** Lines 4-18 of `auth.js`: no header (or an empty one) is refused with "No token, access
      denied"; a token that does not verify with "Token invalid"; a verified token admits the
      request with the decoded claims. */
  function GateDecision(header: Option<string>, verify: string -> Option<JsValue>): (d: Decision)
    ensures (header.None? || header.value == "") ==> d == Refuse("No token, access denied")
    ensures header.Some? && header.value != "" ==>
      (d.Admit? <==> verify(TokenOf(header.value)).Some?)
    ensures d.Admit? ==> d.decoded == verify(TokenOf(header.value)).value
    ensures d.Refuse? && header.Some? && header.value != "" ==> d.message == "Token invalid"
  {
    if header.None? || header.value == "" then Refuse("No token, access denied")
    else
      match verify(TokenOf(header.value))
      case None => Refuse("Token invalid")
      case Some(decoded) => Admit(decoded)
  }

  /** A request is admitted only with a header whose token verifies; a header carrying the
      scheme prefix has exactly the text after the prefix verified. */
  lemma AdmittedOnlyWithVerifiedToken(header: Option<string>, verify: string -> Option<JsValue>)
    ensures GateDecision(header, verify).Admit? ==>
      header.Some? && header.value != "" && verify(TokenOf(header.value)).Some?
    ensures header.Some? && StartsWith(header.value, "Bearer ") ==>
      GateDecision(header, verify) == match verify(header.value[7..])
        case None => Refuse("Token invalid")
        case Some(decoded) => Admit(decoded)
  {
    if header.Some? && StartsWith(header.value, "Bearer ") {
      assert TokenOf(header.value) == header.value[7..];
    }
  }

  /** A header without the prefix is verified as it is: the gate accepts a bare token. */
  lemma BareTokenIsVerified(token: string, verify: string -> Option<JsValue>)
    requires token != "" && IndexOf(token, "Bearer ").None?
    ensures GateDecision(Some(token), verify).Admit? <==> verify(token).Some?
  {
  }

  /** One request and its response, as the gate sees them: the `user` it may set on the
      request, the status and message it may send, and how many times it called `next`. */
  class Exchange {
    var user: Option<JsValue>
    var status: Option<int>
    var message: Option<string>
    var nextCalls: nat

    constructor()
      ensures user.None? && Fresh()
    {
      user := None;
      status := None;
      message := None;
      nextCalls := 0;
    }

    /** No response has been sent and `next` has not been called. */
    predicate Fresh()
      reads this
    {
      status.None? && message.None? && nextCalls == 0
    }

    /** The middleware: either answers 401 and leaves the request alone, or sets `user` and
        calls `next` once without answering. */
    method Authenticate(header: Option<string>, verify: string -> Option<JsValue>)
      modifies this
      ensures var d := GateDecision(header, verify);
        && (d.Refuse? ==> status == Some(401) && message == Some(d.message) && user == old(user) && nextCalls == old(nextCalls))
        && (d.Admit? ==>
              user == Some(d.decoded) && nextCalls == old(nextCalls) + 1 && status == old(status) && message == old(message))
    {
      if header.None? || header.value == "" {
        status, message := Some(401), Some("No token, access denied");
        return;
      }
      var token := TokenOf(header.value);
      var decoded := verify(token);
      if decoded.None? {
        status, message := Some(401), Some("Token invalid");
        return;
      }
      user := decoded;
      nextCalls := nextCalls + 1;
    }
  }

  /** On a fresh exchange, the gate does exactly one of the two: it answers 401 without
      calling `next`, or it calls `next` once without answering. */
  method ExactlyOneOutcome(header: Option<string>, verify: string -> Option<JsValue>) returns (answered: bool, passed: bool)
    ensures answered != passed
    ensures answered <==> GateDecision(header, verify).Refuse?
  {
    var ex := new Exchange();
    ex.Authenticate(header, verify);
    answered := ex.status == Some(401);
    passed := ex.nextCalls == 1;
  }
}
