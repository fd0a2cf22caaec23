/** The password-reset page: its status moves from "loading" to "ready"
    once the token in the link is accepted, and from "ready" to "success" or
    "error" when the new password is sent. The two requests' outcomes are
    parameters. */
module PasswordReset {
  import opened Wrappers
  import opened Fetch

  datatype Status = Loading | Ready | Success | Error

  /** The status after the token check on mount: "error" without a token or
      without an ok answer (the body is read only on the error path), else
      "ready". */
  function TokenChecked(token: Option<string>, reply: Reply): (r: Status)
    ensures r == Ready <==> HasToken(token) && IsOk(reply)
    ensures r == Ready || r == Error
  {
    if !HasToken(token) then Error
    else if IsOk(reply) then Ready
    else Error
  }

  /** The status after the reset request: the body is read before `ok` is
      looked at, so only an ok answer with a JSON body is "success". */
  function ResetAnswered(reply: Reply): (r: Status)
    ensures r == Success <==> ReadsAsSuccess(reply)
    ensures r == Success || r == Error
  {
    if ReadsAsSuccess(reply) then Success else Error
  }

  /** The request `handlePasswordReset` sends: the link's token and the new
      password. */
  datatype ResetRequest = ResetRequest(token: Option<string>, newPassword: string)

  class ResetPage {
    const token: Option<string>
    var status: Status
    var newPassword: string
    var confirmPassword: string

    /** The page opens loading, both fields empty. */
    constructor(token: Option<string>)
      ensures this.token == token && status == Loading && newPassword == "" && confirmPassword == ""
    {
      this.token := token;
      status := Loading;
      newPassword := "";
      confirmPassword := "";
    }

    /** The effect on mount: without a token the status becomes "error" and
        no request is sent; otherwise the token is sent for checking. */
    method CheckToken(reply: Reply) returns (sent: bool)
      modifies this
      ensures sent <==> HasToken(token)
      ensures status == TokenChecked(token, reply)
      ensures newPassword == old(newPassword) && confirmPassword == old(confirmPassword)
    {
      if !HasToken(token) {
        status := Error;
        return false;
      }
      status := TokenChecked(token, reply);
      return true;
    }

    method SetNewPassword(s: string)
      modifies this
      ensures newPassword == s && confirmPassword == old(confirmPassword) && status == old(status)
    {
      newPassword := s;
    }

    method SetConfirmPassword(s: string)
      modifies this
      ensures confirmPassword == s && newPassword == old(newPassword) && status == old(status)
    {
      confirmPassword := s;
    }

    /** The submit button is shown only when the page is ready. */
    predicate ShowsSubmit()
      reads this
    {
      status == Ready
    }

    /** It is enabled only while both fields hold text. */
    predicate SubmitEnabled()
      reads this
    {
      ShowsSubmit() && newPassword != "" && confirmPassword != ""
    }

    /** `handlePasswordReset`: passwords that differ send nothing and leave
        the status; otherwise the token and the new password are sent and
        the status follows the answer. */
    method HandlePasswordReset(reply: Reply) returns (request: Option<ResetRequest>)
      modifies this
      ensures newPassword == old(newPassword) && confirmPassword == old(confirmPassword)
      ensures old(newPassword) != old(confirmPassword) ==> request.None? && status == old(status)
      ensures old(newPassword) == old(confirmPassword) ==>
                request == Some(ResetRequest(token, newPassword)) && status == ResetAnswered(reply)
    {
      if newPassword != confirmPassword {
        return None;
      }
      request := Some(ResetRequest(token, newPassword));
      status := ResetAnswered(reply);
    }
  }

  /** A page opened from a link without a token never offers the reset. */
  method NoTokenNoReset(reply: Reply) returns (page: ResetPage)
    ensures !page.ShowsSubmit() && page.status == Error
  {
    page := new ResetPage(None);
    var sent := page.CheckToken(reply);
  }
}
