/**
 Admin accounts: registration, login and the one-shot session flash message.
 Password hashing is the oracle pair `hash`/`compare` (bcrypt with cost 10 in the
 system); token signing is the oracle `sign`.
 */
module Accounts {
  import opened Wrappers
  import opened Tokens
  import AuthMiddleware

  /** A user document; `password` holds the hash, never the plaintext. */
  datatype User = User(id: UserId, username: string, password: string)

  /** The user collection in natural order, and the id the next insertion receives. */
  datatype UserStore = UserStore(users: seq<User>, nextId: UserId)

  /** Per-client server-side session: only the flash `error` is modelled. */
  datatype Session = Session(error: Option<string>)

  /** What the login route does to the `token` cookie. */
  datatype CookieOp = KeepCookie | SetTokenCookie(value: string, httpOnly: bool) | ClearTokenCookie

  type Hasher = string -> string
  type Comparer = (string, string) -> bool
  type Signer = Claims -> string

  const UsernameTaken := "Username already taken"
  const InvalidCredentials := "Invalid username or password"
  const RegisterPath := "/admin/register"
  const DashboardPath := "/admin/dashboard"

  /** No two users share a username. */
  ghost predicate UniqueUsernames(users: seq<User>) {
    forall i, j :: 0 <= i < j < |users| ==> users[i].username != users[j].username
  }

  /** Ids are allocated in increasing order: strictly increasing along the collection, so distinct, and
      all below the id the next insertion receives. */
  ghost predicate IdsBelow(acc: UserStore) {
    && (forall i, j :: 0 <= i < j < |acc.users| ==> acc.users[i].id < acc.users[j].id)
    && (forall i :: 0 <= i < |acc.users| ==> acc.users[i].id < acc.nextId)
  }

  ghost predicate Valid(acc: UserStore) {
    UniqueUsernames(acc.users) && IdsBelow(acc)
  }

  /** `User.findOne({ username: name })`: the first user in natural order with that name. */
  function FindByUsername(users: seq<User>, name: string): (r: Option<User>)
    ensures r.None? <==> forall i :: 0 <= i < |users| ==> users[i].username != name
    ensures r.Some? ==> r.value in users && r.value.username == name
  {
    if users == [] then None
    else if users[0].username == name then Some(users[0])
    else
      var r := FindByUsername(users[1..], name);
      assert forall i :: 0 < i < |users| ==> users[i] == users[1..][i - 1];
      r
  }

  /** With unique usernames, the lookup finds the user of that name, wherever it sits. */
  lemma {:induction false} FindByUsernameUnique(users: seq<User>, i: nat)
    requires UniqueUsernames(users)
    requires i < |users|
    ensures FindByUsername(users, users[i].username) == Some(users[i])
  {
    if i > 0 {
      assert UniqueUsernames(users[1..]);
      FindByUsernameUnique(users[1..], i - 1);
    }
  }

  /** The result of `POST /admin/register`. `hashComputed` records whether the password hash was computed. */
  datatype RegisterOutcome = RegisterOutcome(accounts: UserStore, session: Session, location: string, hashComputed: bool)

  /** Registration: refuse a taken username before hashing; otherwise store the hashed password. */
  function Register(acc: UserStore, session: Session, username: string, password: string, hash: Hasher): (o: RegisterOutcome)
    ensures FindByUsername(acc.users, username).Some? ==>
      o == RegisterOutcome(acc, Session(Some(UsernameTaken)), RegisterPath, false)
    ensures FindByUsername(acc.users, username).None? ==>
      && o.accounts.users == acc.users + [User(acc.nextId, username, hash(password))]
      && o.accounts.nextId > acc.nextId
      && o.session == session && o.location == AuthMiddleware.LoginPage && o.hashComputed
  {
    if FindByUsername(acc.users, username).Some? then
      RegisterOutcome(acc, Session(Some(UsernameTaken)), RegisterPath, false)
    else
      var user := User(acc.nextId, username, hash(password));
      RegisterOutcome(UserStore(acc.users + [user], acc.nextId + 1), session, AuthMiddleware.LoginPage, true)
  }

  /** Registration keeps usernames unique and ids increasing. */
  lemma RegisterPreservesValid(acc: UserStore, session: Session, username: string, password: string, hash: Hasher)
    requires Valid(acc)
    ensures Valid(Register(acc, session, username, password, hash).accounts)
  {
  }

  /** A second registration of the same username is always refused and adds nobody. */
  lemma SecondRegistrationFails(acc: UserStore, s1: Session, s2: Session, username: string, p1: string, p2: string, hash: Hasher)
    ensures var first := Register(acc, s1, username, p1, hash);
            var second := Register(first.accounts, s2, username, p2, hash);
            && second.accounts == first.accounts
            && second.session.error == Some(UsernameTaken)
            && !second.hashComputed
  {
    var first := Register(acc, s1, username, p1, hash);
    var users := first.accounts.users;
    if FindByUsername(acc.users, username).None? {
      assert users[|users| - 1].username == username;
    }
  }

  /** The result of `POST /admin`. */
  datatype LoginOutcome = LoginOutcome(session: Session, cookie: CookieOp, location: string)

  /** Login: both failure paths set the same flash and redirect; success signs `{ userId }` for one hour
      into an httpOnly cookie and redirects to the dashboard. */
  function Login(users: seq<User>, session: Session, username: string, password: string,
                 compare: Comparer, sign: Signer, now: int): (o: LoginOutcome)
    ensures var found := FindByUsername(users, username);
      if found.Some? && compare(password, found.value.password) then
        && o.session == session
        && o.cookie.SetTokenCookie? && o.cookie.httpOnly
        && o.cookie.value == sign(Issue(found.value.id, now))
        && o.location == DashboardPath
      else
        o == LoginOutcome(Session(Some(InvalidCredentials)), KeepCookie, AuthMiddleware.LoginPage)
  {
    match FindByUsername(users, username)
    case None => LoginOutcome(Session(Some(InvalidCredentials)), KeepCookie, AuthMiddleware.LoginPage)
    case Some(user) =>
      if !compare(password, user.password) then
        LoginOutcome(Session(Some(InvalidCredentials)), KeepCookie, AuthMiddleware.LoginPage)
      else
        LoginOutcome(session, SetTokenCookie(sign(Issue(user.id, now)), true), DashboardPath)
  }

  /** An unknown username and a wrong password for a known one cannot be told apart. */
  lemma LoginFailuresIndistinguishable(users: seq<User>, session: Session, unknown: string, pw1: string,
                                       known: string, pw2: string, compare: Comparer, sign: Signer, now: int)
    requires FindByUsername(users, unknown).None?
    requires FindByUsername(users, known).Some?
    requires !compare(pw2, FindByUsername(users, known).value.password)
    ensures Login(users, session, unknown, pw1, compare, sign, now) == Login(users, session, known, pw2, compare, sign, now)
  {
  }

  /** A freshly registered user logs in with the same password, given that `compare` accepts a
      password against its own hash; the token names the new user's id. */
  lemma RegisteredUserCanLogIn(acc: UserStore, s1: Session, s2: Session, username: string, password: string,
                               hash: Hasher, compare: Comparer, sign: Signer, now: int)
    requires Valid(acc)
    requires FindByUsername(acc.users, username).None?
    requires compare(password, hash(password))
    ensures var reg := Register(acc, s1, username, password, hash);
            Login(reg.accounts.users, s2, username, password, compare, sign, now)
              == LoginOutcome(s2, SetTokenCookie(sign(Issue(acc.nextId, now)), true), DashboardPath)
  {
    var users := Register(acc, s1, username, password, hash).accounts.users;
    RegisterPreservesValid(acc, s1, username, password, hash);
    FindByUsernameUnique(users, |users| - 1);
  }

  /** Renders read the flash message and delete it from the session. */
  function ConsumeFlash(session: Session): (r: (Option<string>, Session))
    ensures r.0 == session.error
    ensures r.1.error == None
  {
    (session.error, Session(None))
  }

  /** A flash message is shown by exactly one render: the next render shows nothing. */
  lemma FlashShownOnce(session: Session)
    ensures ConsumeFlash(ConsumeFlash(session).1).0 == None
  {
  }
}
