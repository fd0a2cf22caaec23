/** How a page's `fetch` can end, as far as the pages' status logic can
    tell: the request throws, or a response arrives with its `ok` flag and
    with a body that `response.json()` can or cannot read. */
module Fetch {
  import opened Wrappers

  datatype Reply = Threw | Answered(ok: bool, bodyParses: bool)

  /** A page that reads the body before looking at `ok` reaches its success
      branch only for an ok response whose body is JSON; a body that is not
      JSON throws into the error branch even when the status was ok. */
  predicate ReadsAsSuccess(r: Reply)
  {
    r.Answered? && r.ok && r.bodyParses
  }

  /** A page that looks at `ok` first succeeds on any ok response. */
  predicate IsOk(r: Reply)
  {
    r.Answered? && r.ok
  }

  /** `new URLSearchParams(search).get("token")` and the `!token` test: a
      missing or empty token. */
  predicate HasToken(token: Option<string>)
  {
    token.Some? && token.value != ""
  }
}
