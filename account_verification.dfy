/** The account-verification page: its status starts "loading" and the
    effect on mount settles it to "success" or "error" from the token in the
    link and the server's answer, which is a parameter. */
module AccountVerification {
  import opened Wrappers
  import opened Fetch

  datatype Status = Loading | Success | Error

  /** The settled status: "error" without a token and no request; with one,
      the body is read before `ok` is looked at, so only an ok answer with a
      JSON body is "success". */
  function Settled(token: Option<string>, reply: Reply): (r: Status)
    ensures r == Success <==> HasToken(token) && ReadsAsSuccess(reply)
    ensures r != Loading
  {
    if !HasToken(token) then Error
    else if ReadsAsSuccess(reply) then Success
    else Error
  }

  class VerificationPage {
    const token: Option<string>
    var status: Status

    constructor(token: Option<string>)
      ensures this.token == token && status == Loading
    {
      this.token := token;
      status := Loading;
    }

    /** `verifyAccount`: the request carries the token and is sent only when
        there is one. */
    method VerifyAccount(reply: Reply) returns (request: Option<string>)
      modifies this
      ensures request.Some? <==> HasToken(token)
      ensures request.Some? ==> request == token
      ensures status == Settled(token, reply)
    {
      if !HasToken(token) {
        status := Error;
        return None;
      }
      request := token;
      status := Settled(token, reply);
    }
  }
}
