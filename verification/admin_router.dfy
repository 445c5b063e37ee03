/**
 The admin router: which routes sit behind the guard, what each handler does to
 the accounts, the post collection, the session flash and the `token` cookie, and
 how the process-wide identity attachment, the guard and the handlers compose
 for one request.
 */
module AdminRouter {
  import opened Wrappers
  import opened Tokens
  import opened AuthMiddleware
  import opened PostModel
  import opened PostStore
  import opened Accounts

  /** The admin routes with the request data each handler reads. */
  datatype Route =
    | ShowLogin                                                      // GET  /admin
    | ShowRegister                                                   // GET  /admin/register
    | SubmitRegister(username: string, password: string)             // POST /admin/register
    | SubmitLogin(username: string, password: string)                // POST /admin
    | ShowDashboard                                                  // GET  /admin/dashboard
    | ShowAddPost                                                    // GET  /admin/add-post
    | SubmitAddPost(title: Option<string>, description: Option<string>,
                    upload: Option<string>, claimedOwner: Option<UserId>) // POST /admin/add-post
    | ShowEdit(id: PostId)                                           // GET  /admin/edit/:id
    | SubmitEdit(id: PostId, title: Option<string>, description: Option<string>,
                 upload: Option<string>)                             // POST /admin/edit/:id
    | SubmitDelete(id: PostId)                                       // POST /admin/delete/:id
    | SignOut                                                        // GET  /admin/logout

  /** A request: the `token` cookie and the route with its parameters. `upload` is the file name the
      upload middleware stored, `claimedOwner` a `user` field a client may add to the form. */
  datatype Request = Request(cookie: Option<string>, route: Route)

  /** The oracles and the clock a request is handled with. `now` is in seconds, the unit of the token
      claims; post dates take the same value, where the system stores `Date.now()` milliseconds, so the
      model's dates are coarser and only their order matters. */
  datatype Env = Env(verify: Verifier, sign: Signer, hash: Hasher, compare: Comparer, now: int)

  /** The response body: a redirect or a rendered page. */
  datatype Body =
    | RedirectTo(location: string)
    | LoginForm(error: Option<string>)
    | RegisterForm(error: Option<string>)
    | DashboardPage(posts: seq<Entry>)
    | AddPostForm
    | EditForm(id: PostId, post: Post)
    | PostNotFound
    | ServerError(message: string)

  datatype Reply = Reply(cookie: CookieOp, body: Body)

  /** The persistent state the admin routes touch. */
  datatype State = State(accounts: UserStore, store: Store)

  /** Everything one request produces; `viewUser` is what identity attachment hands to the views. */
  datatype Outcome = Outcome(state: State, session: Session, reply: Reply, viewUser: Option<Claims>)

  /** The routes mounted behind `authenticateToken`. Registration is guarded for GET but not for POST. */
  predicate IsGuarded(r: Route) {
    !(r.ShowLogin? || r.SubmitLogin? || r.SubmitRegister? || r.SignOut?)
  }

  /** The invariant the routes keep: ids below their counters, unique usernames, valid posts. */
  ghost predicate Invariant(st: State) {
    Accounts.Valid(st.accounts) && PostStore.Valid(st.store) && AllPostsValid(st.store)
  }

  /** The user a request acts for on the admin surface: the guard's user, on a guarded route only. */
  function Actor(req: Request, env: Env): Option<UserId> {
    if IsGuarded(req.route) then
      match Guard(req.cookie, env.verify)
      case Continue(g) => Some(g.id)
      case Redirect(_) => None
    else None
  }

  /** The update document of `POST /admin/edit/:id`. */
  function EditPatch(title: Option<string>, description: Option<string>, upload: Option<string>): Patch {
    Patch(title, description, UploadedPath(upload))
  }

  /** The handlers behind the guard, run for the guard's user `actor`. Only the register form touches
      the session, and no handler touches the accounts or the cookie. */
  function Protected(st: State, session: Session, route: Route, actor: UserId, now: int): (r: (State, Session, Reply))
    requires IsGuarded(route)
    requires PostStore.Valid(st.store)
    ensures r.0.accounts == st.accounts && r.2.cookie == KeepCookie
    ensures !route.ShowRegister? ==> r.1 == session
    ensures route.ShowRegister? ==> r.0 == st && r.1.error == None && r.2.body == RegisterForm(session.error)
    ensures route.ShowDashboard? ==> r.0 == st && r.2.body == DashboardPage(ListByOwner(st.store, actor))
    ensures route.ShowAddPost? ==> r.0 == st && r.2.body == AddPostForm
    ensures route.SubmitAddPost? ==>
      var created := CreatePost(st.store, actor, route.title, route.description, route.upload, now);
      if created.Ok? then r.0.store == created.value && r.2.body == RedirectTo(DashboardPath)
      else r.0 == st && r.2.body == ServerError("Error creating post")
    ensures route.ShowEdit? ==>
      r.0 == st &&
      match FindOwned(st.store, actor, route.id)
      case None => r.2.body == PostNotFound
      case Some(p) => r.2.body == EditForm(route.id, p)
    ensures route.SubmitEdit? ==>
      && r.0.store == UpdateOwnedAsWritten(st.store, actor, route.id,
                                           EditPatch(route.title, route.description, route.upload), now)
      && r.2.body == RedirectTo(DashboardPath)
    ensures route.SubmitDelete? ==>
      r.0.store == DeleteOwned(st.store, actor, route.id) && r.2.body == RedirectTo(DashboardPath)
  {
    match route
    case ShowRegister =>
      var (shown, after) := ConsumeFlash(session);
      (st, after, Reply(KeepCookie, RegisterForm(shown)))
    case ShowDashboard =>
      (st, session, Reply(KeepCookie, DashboardPage(ListByOwner(st.store, actor))))
    case ShowAddPost =>
      (st, session, Reply(KeepCookie, AddPostForm))
    case SubmitAddPost(title, description, upload, _) =>
      (match CreatePost(st.store, actor, title, description, upload, now)
       case Err(_) => (st, session, Reply(KeepCookie, ServerError("Error creating post")))
       case Ok(store) => (st.(store := store), session, Reply(KeepCookie, RedirectTo(DashboardPath))))
    case ShowEdit(id) =>
      (match FindOwned(st.store, actor, id)
       case None => (st, session, Reply(KeepCookie, PostNotFound))
       case Some(p) => (st, session, Reply(KeepCookie, EditForm(id, p))))
    case SubmitEdit(id, title, description, upload) =>
      var store := UpdateOwnedAsWritten(st.store, actor, id, EditPatch(title, description, upload), now);
      (st.(store := store), session, Reply(KeepCookie, RedirectTo(DashboardPath)))
    case SubmitDelete(id) =>
      (st.(store := DeleteOwned(st.store, actor, id)), session, Reply(KeepCookie, RedirectTo(DashboardPath)))
  }

  /** One request through identity attachment, then (on guarded routes) the guard, then the handler. */
  function HandleAdmin(st: State, session: Session, req: Request, env: Env): (o: Outcome)
    requires PostStore.Valid(st.store)
    ensures o.viewUser == Decode(req.cookie, env.verify)
    ensures IsGuarded(req.route) && Decode(req.cookie, env.verify).None? ==>
      o == Outcome(st, session, Reply(KeepCookie, RedirectTo(LoginPage)), o.viewUser)
    ensures IsGuarded(req.route) && Decode(req.cookie, env.verify).Some? ==>
      (o.state, o.session, o.reply)
        == Protected(st, session, req.route, Decode(req.cookie, env.verify).value.userId, env.now)
    ensures req.route.ShowLogin? ==>
      o.state == st && o.session.error == None && o.reply == Reply(KeepCookie, LoginForm(session.error))
    ensures req.route.SubmitLogin? ==>
      var lo := Login(st.accounts.users, session, req.route.username, req.route.password, env.compare, env.sign, env.now);
      o.state == st && o.session == lo.session && o.reply == Reply(lo.cookie, RedirectTo(lo.location))
    ensures req.route.SubmitRegister? ==>
      var ro := Register(st.accounts, session, req.route.username, req.route.password, env.hash);
      o.state == st.(accounts := ro.accounts) && o.session == ro.session && o.reply == Reply(KeepCookie, RedirectTo(ro.location))
    ensures req.route.SignOut? ==>
      o.state == st && o.session == session && o.reply == Reply(ClearTokenCookie, RedirectTo(LoginPage))
    ensures o.state.accounts != st.accounts ==> req.route.SubmitRegister?
    ensures PostStore.Valid(o.state.store)
  {
    var viewUser := AttachIdentity(req.cookie, env.verify).user;
    match req.route
    case ShowLogin =>
      var (shown, after) := ConsumeFlash(session);
      Outcome(st, after, Reply(KeepCookie, LoginForm(shown)), viewUser)
    case SubmitLogin(username, password) =>
      var lo := Login(st.accounts.users, session, username, password, env.compare, env.sign, env.now);
      Outcome(st, lo.session, Reply(lo.cookie, RedirectTo(lo.location)), viewUser)
    case SubmitRegister(username, password) =>
      var ro := Register(st.accounts, session, username, password, env.hash);
      Outcome(st.(accounts := ro.accounts), ro.session, Reply(KeepCookie, RedirectTo(ro.location)), viewUser)
    case SignOut =>
      Outcome(st, session, Reply(ClearTokenCookie, RedirectTo(LoginPage)), viewUser)
    case _ =>
      match Guard(req.cookie, env.verify)
      case Redirect(location) => Outcome(st, session, Reply(KeepCookie, RedirectTo(location)), viewUser)
      case Continue(g) =>
        var (after, s, reply) := Protected(st, session, req.route, g.id, env.now);
        Outcome(after, s, reply, viewUser)
  }

  /** No request changes or removes a post of anyone but the user it acts for. */
  lemma OwnershipConfined(st: State, session: Session, req: Request, env: Env)
    requires PostStore.Valid(st.store)
    ensures var after := HandleAdmin(st, session, req, env).state.store.posts;
      forall id :: id in st.store.posts && Actor(req, env) != Some(st.store.posts[id].user) ==>
        id in after && after[id] == st.store.posts[id]
  {
  }

  /** Every post a request adds belongs to the user it acts for, whatever owner the form claims. */
  lemma NewPostsOwnedByActor(st: State, session: Session, req: Request, env: Env)
    requires PostStore.Valid(st.store)
    ensures var after := HandleAdmin(st, session, req, env).state.store.posts;
      forall id :: id in after && id !in st.store.posts ==> Actor(req, env) == Some(after[id].user)
  {
  }

  /** The owner of a created post does not depend on any owner field of the form. */
  lemma CreateIgnoresClaimedOwner(st: State, session: Session, cookie: Option<string>, env: Env,
                                  title: Option<string>, description: Option<string>, upload: Option<string>,
                                  claim1: Option<UserId>, claim2: Option<UserId>)
    requires PostStore.Valid(st.store)
    ensures HandleAdmin(st, session, Request(cookie, SubmitAddPost(title, description, upload, claim1)), env)
         == HandleAdmin(st, session, Request(cookie, SubmitAddPost(title, description, upload, claim2)), env)
  {
  }

  /** Every route keeps usernames unique and ids below their counters. */
  lemma StructurePreserved(st: State, session: Session, req: Request, env: Env)
    requires Accounts.Valid(st.accounts) && PostStore.Valid(st.store)
    ensures var after := HandleAdmin(st, session, req, env).state;
      Accounts.Valid(after.accounts) && PostStore.Valid(after.store)
  {
    if req.route.SubmitRegister? {
      RegisterPreservesValid(st.accounts, session, req.route.username, req.route.password, env.hash);
    }
  }

  /** Every route but the edit route also keeps every stored post valid. */
  lemma InvariantPreservedExceptEdit(st: State, session: Session, req: Request, env: Env)
    requires Invariant(st)
    requires !req.route.SubmitEdit?
    ensures Invariant(HandleAdmin(st, session, req, env).state)
  {
  }

  /** The edit route as written breaks post validity: the owner of a valid post submits the title
      `"   "`, the post is stored with title `""`, and the reply is the usual dashboard redirect. */
  lemma OwnerBlankEditBreaksValidity(accounts: UserStore, session: Session, token: string, env: Env)
    requires token != ""
    requires env.verify(token).Verified? && env.verify(token).claims.userId == 7
    ensures var st := State(accounts, Store(map[0 := Post("Hello", "World", Some(""), 7, 0, 0, 0)], 1));
            var o := HandleAdmin(st, session, Request(Some(token), SubmitEdit(0, Some("   "), Some("World"), None)), env);
            && AllPostsValid(st.store)
            && o.reply.body == RedirectTo(DashboardPath)
            && o.state.store.posts[0].title == ""
            && !AllPostsValid(o.state.store)
  {
    UpdateAsWrittenStoresBlankTitle(env.now);
  }

  /** The intended edit route: the schema's validators run on the update, so a patch that would blank
      a required field is answered with the route's server error and changes nothing. Every other
      request is handled as written. */
  function HandleAdminCorrected(st: State, session: Session, req: Request, env: Env): (o: Outcome)
    requires PostStore.Valid(st.store)
    ensures o.viewUser == Decode(req.cookie, env.verify)
    ensures req.route.SubmitEdit? && Actor(req, env).Some? ==>
      match UpdateOwned(st.store, Actor(req, env).value, req.route.id,
                        EditPatch(req.route.title, req.route.description, req.route.upload), env.now)
      case Err(_) => o.state == st && o.session == session
                     && o.reply == Reply(KeepCookie, ServerError("Error updating post"))
      case Ok(store) => o == HandleAdmin(st, session, req, env) && o.state.store == store
    ensures !(req.route.SubmitEdit? && Actor(req, env).Some?) ==> o == HandleAdmin(st, session, req, env)
  {
    if && req.route.SubmitEdit? && Actor(req, env).Some?
       && PatchErrors(EditPatch(req.route.title, req.route.description, req.route.upload)) != {}
    then
      Outcome(st, session, Reply(KeepCookie, ServerError("Error updating post")), Decode(req.cookie, env.verify))
    else
      HandleAdmin(st, session, req, env)
  }

  /** With validated edits, every route keeps the whole state invariant. */
  lemma CorrectedInvariantPreserved(st: State, session: Session, req: Request, env: Env)
    requires Invariant(st)
    ensures Invariant(HandleAdminCorrected(st, session, req, env).state)
  {
    if req.route.SubmitEdit? {
      StructurePreserved(st, session, req, env);
      if Actor(req, env).Some? {
        var patch := EditPatch(req.route.title, req.route.description, req.route.upload);
        if UpdateOwned(st.store, Actor(req, env).value, req.route.id, patch, env.now).Ok? {
          UpdateOwnedPreservesValidity(st.store, Actor(req, env).value, req.route.id, patch, env.now);
        }
      }
    } else {
      InvariantPreservedExceptEdit(st, session, req, env);
    }
  }

  /** The intended edit route refuses a whitespace-only title from any signed-in user. */
  lemma CorrectedRefusesBlankTitle(st: State, session: Session, token: string, env: Env, id: PostId,
                                   title: string, description: Option<string>, upload: Option<string>)
    requires PostStore.Valid(st.store)
    requires token != "" && env.verify(token).Verified?
    requires AllWhitespace(title)
    ensures var o := HandleAdminCorrected(st, session, Request(Some(token), SubmitEdit(id, Some(title), description, upload)), env);
            o.state == st && o.reply.body == ServerError("Error updating post")
  {
  }

  /** `GET /admin/register` turns an anonymous client away, while `POST /admin/register` lets the same
      client create an account. */
  lemma RegistrationGuardQuirk(st: State, session: Session, cookie: Option<string>, env: Env,
                               username: string, password: string)
    requires PostStore.Valid(st.store)
    requires Decode(cookie, env.verify).None?
    requires FindByUsername(st.accounts.users, username).None?
    ensures var shown := HandleAdmin(st, session, Request(cookie, ShowRegister), env);
      shown.state == st && shown.reply.body == RedirectTo(LoginPage)
    ensures var posted := HandleAdmin(st, session, Request(cookie, SubmitRegister(username, password)), env);
      posted.state.accounts.users == st.accounts.users + [User(st.accounts.nextId, username, env.hash(password))]
  {
  }

  /** An anonymous client that registers a taken name is bounced from the register form to the login
      page, and it is the login page that shows (and clears) the conflict message. */
  lemma RegisterConflictShownOnLoginPage(st: State, session: Session, cookie: Option<string>, env: Env,
                                         username: string, password: string)
    requires PostStore.Valid(st.store)
    requires Decode(cookie, env.verify).None?
    requires FindByUsername(st.accounts.users, username).Some?
    ensures var o1 := HandleAdmin(st, session, Request(cookie, SubmitRegister(username, password)), env);
            var o2 := HandleAdmin(o1.state, o1.session, Request(cookie, ShowRegister), env);
            var o3 := HandleAdmin(o2.state, o2.session, Request(cookie, ShowLogin), env);
            && o1.state == st && o1.reply.body == RedirectTo(RegisterPath)
            && o2.reply.body == RedirectTo(LoginPage)
            && o3.reply.body == LoginForm(Some(UsernameTaken))
            && o3.session.error == None
  {
  }

  /** A failed login's message is shown by the next login page and by no later one. */
  lemma FailedLoginMessageShownOnce(st: State, session: Session, cookie: Option<string>, env: Env,
                                    username: string, password: string)
    requires PostStore.Valid(st.store)
    requires FindByUsername(st.accounts.users, username).None?
    ensures var o1 := HandleAdmin(st, session, Request(cookie, SubmitLogin(username, password)), env);
            var o2 := HandleAdmin(o1.state, o1.session, Request(cookie, ShowLogin), env);
            var o3 := HandleAdmin(o2.state, o2.session, Request(cookie, ShowLogin), env);
            && o1.reply == Reply(KeepCookie, RedirectTo(LoginPage))
            && o2.reply.body == LoginForm(Some(InvalidCredentials))
            && o3.reply.body == LoginForm(None)
  {
  }

  /** After a successful login, the issued cookie opens the dashboard for that user for one hour and
      no longer, given a verifier that accepts the signed claims until they expire. */
  lemma LoginOpensDashboardForOneHour(st: State, session: Session, env: Env, later: Env,
                                      username: string, password: string, user: User)
    requires PostStore.Valid(st.store)
    requires FindByUsername(st.accounts.users, username) == Some(user)
    requires env.compare(password, user.password)
    requires var c := Issue(user.id, env.now); var token := env.sign(c);
      token != "" &&
      later.verify(token) == if Live(c, later.now) then Verified(c) else Rejected(Expired)
    ensures var login := HandleAdmin(st, session, Request(None, SubmitLogin(username, password)), env);
      && login.reply.cookie.SetTokenCookie?
      && login.reply.cookie.httpOnly
      && login.reply.body == RedirectTo(DashboardPath)
      && var dash := HandleAdmin(login.state, login.session, Request(Some(login.reply.cookie.value), ShowDashboard), later);
         if later.now < env.now + TokenLifetime
         then dash.reply.body == DashboardPage(ListByOwner(st.store, user.id))
         else dash.reply.body == RedirectTo(LoginPage)
  {
  }

  /** Another user's post looks missing on the edit form, and editing or deleting it changes nothing
      yet still redirects to the dashboard. */
  lemma ForeignPostUntouchable(st: State, session: Session, cookie: Option<string>, env: Env,
                               id: PostId, missing: PostId, title: Option<string>, description: Option<string>,
                               upload: Option<string>)
    requires PostStore.Valid(st.store)
    requires Decode(cookie, env.verify).Some?
    requires id in st.store.posts && st.store.posts[id].user != Decode(cookie, env.verify).value.userId
    requires missing !in st.store.posts
    ensures HandleAdmin(st, session, Request(cookie, ShowEdit(id)), env).reply.body == PostNotFound
    ensures HandleAdmin(st, session, Request(cookie, ShowEdit(missing)), env)
         == HandleAdmin(st, session, Request(cookie, ShowEdit(id)), env)
    ensures var o := HandleAdmin(st, session, Request(cookie, SubmitEdit(id, title, description, upload)), env);
      o.state == st && o.reply.body == RedirectTo(DashboardPath)
    ensures var o := HandleAdmin(st, session, Request(cookie, SubmitDelete(id)), env);
      o.state == st && o.reply.body == RedirectTo(DashboardPath)
  {
  }
}
