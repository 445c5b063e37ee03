/**
 The two request-authentication policies. Both read the `token` cookie and ask the
 same verification oracle; they differ only in what they do on failure:
 `AttachIdentity` (the process-wide middleware) always continues, `Guard` (the
 admin route guard) redirects to the login page.
 */
module AuthMiddleware {
  import opened Wrappers
  import opened Tokens

  /** The verification oracle: signature and expiry checking of a token string. */
  type Verifier = string -> Verification

  /** The login page `/admin`: where the guard sends a rejected request, and where failed logins,
      completed registrations and logouts redirect. */
  const LoginPage := "/admin"

  /** What a middleware does with the request: call `next` with a user attached, or answer with a redirect. */
  datatype Step<U> = Continue(user: U) | Redirect(location: string)

  /** The identity the guard attaches (`req.user = { _id }`) and the `isAuthenticated` view flag. */
  datatype GuardedUser = GuardedUser(id: UserId, isAuthenticated: bool)

  /** The cookie holds a token in the JavaScript sense: present and not the empty string. */
  predicate HasToken(cookie: Option<string>) {
    cookie.Some? && cookie.value != ""
  }

  /** The claims of the cookie's token when there is one and the oracle accepts it. */
  function Decode(cookie: Option<string>, verify: Verifier): (r: Option<Claims>)
    ensures r.Some? <==> HasToken(cookie) && verify(cookie.value).Verified?
    ensures r.Some? ==> r.value == verify(cookie.value).claims
  {
    if HasToken(cookie) then
      match verify(cookie.value)
      case Verified(c) => Some(c)
      case Rejected(_) => None
    else None
  }

  /** Best-effort identity attachment, run for every request before routing. */
  function AttachIdentity(cookie: Option<string>, verify: Verifier): (r: Step<Option<Claims>>)
    ensures r.Continue?
    ensures !HasToken(cookie) ==> r.user == None
    ensures HasToken(cookie) ==>
      match verify(cookie.value)
      case Verified(c) => r.user == Some(c)
      case Rejected(_) => r.user == None
  {
    Continue(Decode(cookie, verify))
  }

  /** The hard gate in front of the admin routes. */
  function Guard(cookie: Option<string>, verify: Verifier): (r: Step<GuardedUser>)
    ensures !HasToken(cookie) ==> r == Redirect(LoginPage)
    ensures HasToken(cookie) ==>
      match verify(cookie.value)
      case Verified(c) => r == Continue(GuardedUser(c.userId, true))
      case Rejected(_) => r == Redirect(LoginPage)
  {
    match Decode(cookie, verify)
    case None => Redirect(LoginPage)
    case Some(c) => Continue(GuardedUser(c.userId, true))
  }

  /** The guard lets a request through exactly when the soft middleware attached an identity, and then
      it names the same user; the guard only keeps the `userId` claim, the soft middleware keeps all claims. */
  lemma GuardAgreesWithAttachment(cookie: Option<string>, verify: Verifier)
    ensures Guard(cookie, verify).Continue? <==> AttachIdentity(cookie, verify).user.Some?
    ensures Guard(cookie, verify).Continue? ==>
      Guard(cookie, verify).user.id == AttachIdentity(cookie, verify).user.value.userId
  {
  }

  /** Whatever the verification failure, the guard halts the request with the same redirect. */
  lemma GuardRejectsEveryFailure(token: string, verify: Verifier, reason: RejectReason)
    requires token != ""
    requires verify(token) == Rejected(reason)
    ensures Guard(Some(token), verify) == Guard(None, verify) == Redirect(LoginPage)
  {
  }
}
