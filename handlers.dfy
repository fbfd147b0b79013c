/**
  The request handlers as transitions: each takes the collection, the
  session and the request to the new collection, the new session and the
  response. Every handler is one atomic step.
 */
module Handlers {

  import opened Wrappers
  import opened Directory
  import opened Sessions
  import opened Validation
  import opened Credentials
  import opened Responses

  /** The foreign libraries the handlers call: bcrypt and Joi's email rule. */
  datatype Env = Env(hasher: Hasher, isEmail: string -> bool)

  /** The messages of the business-rule rejections. */
  const EmailExists: Message := Literal("Email already exists")
  const UserNotFound: Message := Literal("User not found")
  const IncorrectPassword: Message := Literal("Incorrect Password")

  /** The state after a request, and the response to it. */
  datatype Outcome = Outcome(users: seq<User>, session: Session, response: Response)

  /** The routes. GetUnknown is any GET to a path none of the others match. */
  datatype Request =
    | GetHome
    | GetSignup
    | PostSignup(signup: SignupForm)
    | GetLogin
    | PostLogin(login: LoginForm)
    | GetMembers
    | GetAdmin
    | PostChangeRole(email: string, newRole: string)
    | GetLogout
    | GetUnknown

  /** `GET /`: the homepage variant exactly when the session is authenticated, greeting its name. */
  function Home(s: Session): (r: Response)
    ensures r.Render? && r.status == Ok
    ensures r.page.HomePage? <==> s.Authenticated?
    ensures r.page.HomePage? ==> r.page.name == s.user.name
    ensures !r.page.HomePage? ==> r.page == WelcomePage
  {
    if s.Authenticated? then Render(Ok, HomePage(s.user.name)) else Render(Ok, WelcomePage)
  }

  /** The first tier of the gate: an unauthenticated session is sent to `/`. */
  function RequireLogin(s: Session): (r: Option<Response>)
    ensures r.None? <==> s.Authenticated?
    ensures r.Some? ==> r.value == Redirect(RootPath)
  {
    if s.Authenticated? then None else Some(Redirect(RootPath))
  }

  /**
    Both tiers, in order: first the login check, then the role check, which
    refuses every userType but "admin" with 403 and the no-access view.
   */
  function RequireAdmin(s: Session): (r: Option<Response>)
    ensures r.None? <==> IsAdmin(s)
    ensures s.Anonymous? ==> r == Some(Redirect(RootPath))
    ensures s.Authenticated? && !IsAdmin(s) ==> r == Some(Render(Forbidden, NoAccessPage))
  {
    match RequireLogin(s)
    case Some(rejection) => Some(rejection)
    case None => if s.user.userType != AdminType then Some(Render(Forbidden, NoAccessPage)) else None
  }

  /** `GET /members`: any authenticated session, of any userType, is greeted by name. */
  function Members(s: Session): (r: Response)
    ensures s.Anonymous? ==> r == Redirect(RootPath)
    ensures s.Authenticated? ==> r == Render(Ok, MembersPage(s.user.name))
  {
    match RequireLogin(s)
    case Some(rejection) => rejection
    case None => Render(Ok, MembersPage(s.user.name))
  }

  /** `GET /admin`: past the gate, the whole collection is listed, with no change to report. */
  function AdminPanel(db: seq<User>, s: Session): (r: Response)
    ensures !IsAdmin(s) ==> Some(r) == RequireAdmin(s)
    ensures IsAdmin(s) ==> r == Render(Ok, AdminPage(db, None, None))
  {
    match RequireAdmin(s)
    case Some(rejection) => rejection
    case None => Render(Ok, AdminPage(db, None, None))
  }

  /**
    `POST /signupSubmit`. It succeeds exactly when the checks pass and no
    document has the email; then it appends one member document with the
    hashed password, starts a member session and redirects to the members
    area. Every rejection re-renders the form and changes nothing.
   */
  function SubmitSignup(db: seq<User>, s: Session, form: SignupForm, salt: nat, env: Env): (r: Outcome)
    ensures r.response == Redirect(MembersPath) <==>
              SignupCheck(form, env.isEmail).None? && FindOne(db, form.email).None?
    ensures r.response == Redirect(MembersPath) ==>
              && r.users == db + [User(form.name, form.email, env.hasher.hash(form.password, salt), MemberType)]
              && r.session == Authenticated(Identity(form.name, form.email, MemberType))
    ensures r.response != Redirect(MembersPath) ==> r.users == db && r.session == s
    ensures SignupCheck(form, env.isEmail).Some? ==>
              r.response == Render(Ok, SignupPage(SignupCheck(form, env.isEmail)))
    ensures SignupCheck(form, env.isEmail).None? && FindOne(db, form.email).Some? ==>
              r.response == Render(Ok, SignupPage(Some(EmailExists)))
    ensures UniqueEmails(db) ==> UniqueEmails(r.users)
  {
    match SignupCheck(form, env.isEmail)
    case Some(message) => Outcome(db, s, Render(Ok, SignupPage(Some(message))))
    case None =>
      if FindOne(db, form.email).Some? then
        Outcome(db, s, Render(Ok, SignupPage(Some(EmailExists))))
      else
        var hashed := env.hasher.hash(form.password, salt);
        Outcome(db + [User(form.name, form.email, hashed, MemberType)],
                Authenticated(Identity(form.name, form.email, MemberType)),
                Redirect(MembersPath))
  }

  /**
    `POST /loginSubmit`. It succeeds exactly when the checks pass, exactly
    one document has the email and the password verifies against that
    document's hash; the session then holds that document's snapshot. It
    never changes the collection, and a rejection leaves the session as it was.
   */
  function SubmitLogin(db: seq<User>, s: Session, form: LoginForm, env: Env): (r: Outcome)
    ensures r.users == db
    ensures r.response == Redirect(MembersPath) <==>
              && LoginCheck(form, env.isEmail).None?
              && |Find(db, form.email)| == 1
              && env.hasher.verify(form.password, Find(db, form.email)[0].password)
    ensures r.response == Redirect(MembersPath) ==> r.session == Authenticated(Snapshot(Find(db, form.email)[0]))
    ensures r.response != Redirect(MembersPath) ==> r.session == s
    ensures LoginCheck(form, env.isEmail).Some? ==>
              r.response == Render(Ok, LoginPage(LoginCheck(form, env.isEmail)))
    ensures LoginCheck(form, env.isEmail).None? && |Find(db, form.email)| != 1 ==>
              r.response == Render(Ok, LoginPage(Some(UserNotFound)))
    ensures LoginCheck(form, env.isEmail).None? && |Find(db, form.email)| == 1 &&
            !env.hasher.verify(form.password, Find(db, form.email)[0].password) ==>
              r.response == Render(Ok, LoginPage(Some(IncorrectPassword)))
  {
    match LoginCheck(form, env.isEmail)
    case Some(message) => Outcome(db, s, Render(Ok, LoginPage(Some(message))))
    case None =>
      var result := Find(db, form.email);
      if |result| != 1 then
        Outcome(db, s, Render(Ok, LoginPage(Some(UserNotFound))))
      else if env.hasher.verify(form.password, result[0].password) then
        Outcome(db, Authenticated(Snapshot(result[0])), Redirect(MembersPath))
      else
        Outcome(db, s, Render(Ok, LoginPage(Some(IncorrectPassword))))
  }

  /**
    `POST /changeRole`. Past the gate, the first document with the email
    gets `newRole` verbatim and the admin view lists the updated collection,
    naming the changed account. With no such document the handler faults.
    The session, the admin's own snapshot included, never changes.
   */
  function ChangeRole(db: seq<User>, s: Session, email: string, newRole: string): (r: Outcome)
    ensures r.session == s
    ensures !IsAdmin(s) ==> r.users == db && Some(r.response) == RequireAdmin(s)
    ensures IsAdmin(s) ==> r.users == UpdateOne(db, email, newRole)
    ensures IsAdmin(s) && FindOne(db, email).None? ==> r.users == db && r.response == Fault
    ensures IsAdmin(s) && FindOne(db, email).Some? ==>
              r.response == Render(Ok, AdminPage(r.users, Some(db[FindOne(db, email).value].name), Some(newRole)))
  {
    match RequireAdmin(s)
    case Some(rejection) => Outcome(db, s, rejection)
    case None =>
      var updated := UpdateOne(db, email, newRole);
      FindOneSeesOnlyEmails(db, updated, email);
      match FindOne(updated, email)
      case None => Outcome(updated, s, Fault)
      case Some(k) => Outcome(updated, s, Render(Ok, AdminPage(updated, Some(updated[k].name), Some(newRole))))
  }

  /** `GET /logout`: the session is destroyed, whatever it held. */
  function Logout(db: seq<User>, s: Session): (r: Outcome)
    ensures r == Outcome(db, Anonymous, Render(Ok, LogoutPage))
  {
    Outcome(db, Anonymous, Render(Ok, LogoutPage))
  }

  /**
    One request, dispatched to its handler. Whatever the request: emails stay
    unique if they were, no document is ever removed or has anything but its
    userType changed, and only an admin session changes an existing document.
   */
  function Step(db: seq<User>, s: Session, req: Request, salt: nat, env: Env): (r: Outcome)
    ensures UniqueEmails(db) ==> UniqueEmails(r.users)
    ensures Retains(db, r.users)
    ensures !IsAdmin(s) ==> db <= r.users
    ensures r.users != db ==> req.PostSignup? || (req.PostChangeRole? && IsAdmin(s))
    ensures r.session != s ==> req.PostSignup? || req.PostLogin? || req.GetLogout?
  {
    match req
    case GetHome => Outcome(db, s, Home(s))
    case GetSignup => Outcome(db, s, Render(Ok, SignupPage(None)))
    case PostSignup(form) => SubmitSignup(db, s, form, salt, env)
    case GetLogin => Outcome(db, s, Render(Ok, LoginPage(None)))
    case PostLogin(form) => SubmitLogin(db, s, form, env)
    case GetMembers => Outcome(db, s, Members(s))
    case GetAdmin => Outcome(db, s, AdminPanel(db, s))
    case PostChangeRole(email, newRole) => ChangeRole(db, s, email, newRole)
    case GetLogout => Logout(db, s)
    case GetUnknown => Outcome(db, s, Render(NotFound, NotFoundPage))
  }

  /** The state after a run of requests, and the response to each. */
  datatype Run = Run(users: seq<User>, session: Session, responses: seq<Response>)

  /** Requests handled one after another; each carries the salt bcrypt would draw for it. */
  function Replay(db: seq<User>, s: Session, trace: seq<(Request, nat)>, env: Env): (r: Run)
    ensures |r.responses| == |trace|
    decreases |trace|
  {
    if trace == [] then Run(db, s, [])
    else
      var first := Step(db, s, trace[0].0, trace[0].1, env);
      var rest := Replay(first.users, first.session, trace[1..], env);
      Run(rest.users, rest.session, [first.response] + rest.responses)
  }
}
