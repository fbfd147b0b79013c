/**
  The running application: the users collection, changed in place by
  `insertOne` and `updateOne`, and the `req.session` object whose
  `authenticated` flag and `user` field the handlers assign. Each handler
  method does what the source does step by step and is proved to agree with
  the transition of the same name in Handlers.
 */
module Server {

  import opened Wrappers
  import opened Directory
  import opened Sessions
  import opened Validation
  import opened Responses
  import Handlers

  class App {

    const env: Handlers.Env
    var users: seq<User>
    var authenticated: bool
    var user: Option<Identity>

    /** An authenticated session always has an identity. */
    ghost predicate Valid()
      reads this
    {
      authenticated ==> user.Some?
    }

    /** The session as the handlers see it. */
    function CurrentSession(): Session
      reads this
      requires Valid()
    {
      if authenticated then Authenticated(user.value) else Anonymous
    }

    /** A server over an existing collection, before any browser has logged in. */
    constructor (env: Handlers.Env, users: seq<User>)
      ensures Valid() && this.env == env && this.users == users && CurrentSession() == Anonymous
    {
      this.env := env;
      this.users := users;
      authenticated := false;
      user := None;
    }

    method SubmitSignup(form: SignupForm, salt: nat) returns (r: Response)
      requires Valid()
      modifies this
      ensures Valid()
      ensures Handlers.Outcome(users, CurrentSession(), r) ==
              Handlers.SubmitSignup(old(users), old(CurrentSession()), form, salt, env)
    {
      if form.name == "" {
        return Render(Ok, SignupPage(Some(NameEmpty)));
      }
      if form.email == "" {
        return Render(Ok, SignupPage(Some(EmailEmpty)));
      }
      if form.password == "" {
        return Render(Ok, SignupPage(Some(PasswordEmpty)));
      }
      var validationResult := SignupSchemaError(form, env.isEmail);
      if validationResult.Some? {
        return Render(Ok, SignupPage(Some(Invalid(validationResult.value))));
      }
      var existingEmail := FindOne(users, form.email);
      if existingEmail.Some? {
        return Render(Ok, SignupPage(Some(Handlers.EmailExists)));
      }
      var hashedPassword := env.hasher.hash(form.password, salt);
      users := users + [User(form.name, form.email, hashedPassword, MemberType)];
      user := Some(Identity(form.name, form.email, MemberType));
      authenticated := true;
      r := Redirect(MembersPath);
    }

    method SubmitLogin(form: LoginForm) returns (r: Response)
      requires Valid()
      modifies this
      ensures Valid()
      ensures Handlers.Outcome(users, CurrentSession(), r) ==
              Handlers.SubmitLogin(old(users), old(CurrentSession()), form, env)
    {
      if form.email == "" {
        return Render(Ok, LoginPage(Some(EmailEmpty)));
      }
      if form.password == "" {
        return Render(Ok, LoginPage(Some(PasswordEmpty)));
      }
      var validationResult := LoginSchemaError(form, env.isEmail);
      if validationResult.Some? {
        return Render(Ok, LoginPage(Some(Invalid(validationResult.value))));
      }
      var result := Find(users, form.email);
      if |result| != 1 {
        return Render(Ok, LoginPage(Some(Handlers.UserNotFound)));
      }
      if env.hasher.verify(form.password, result[0].password) {
        authenticated := true;
        user := Some(Snapshot(result[0]));
        r := Redirect(MembersPath);
      } else {
        r := Render(Ok, LoginPage(Some(Handlers.IncorrectPassword)));
      }
    }

    method ChangeRole(email: string, newRole: string) returns (r: Response)
      requires Valid()
      modifies this
      ensures Valid()
      ensures Handlers.Outcome(users, CurrentSession(), r) ==
              Handlers.ChangeRole(old(users), old(CurrentSession()), email, newRole)
    {
      if !authenticated {
        return Redirect(RootPath);
      }
      if user.value.userType != AdminType {
        return Render(Forbidden, NoAccessPage);
      }
      var target := FindOne(users, email);
      if target.Some? {
        users := users[target.value := users[target.value].(userType := newRole)];
      }
      var userList := users;
      var updatedUser := FindOne(users, email);
      if updatedUser.None? {
        return Fault;
      }
      r := Render(Ok, AdminPage(userList, Some(users[updatedUser.value].name), Some(newRole)));
    }

    method Logout() returns (r: Response)
      requires Valid()
      modifies this
      ensures Valid()
      ensures Handlers.Outcome(users, CurrentSession(), r) == Handlers.Logout(old(users), old(CurrentSession()))
    {
      authenticated := false;
      user := None;
      r := Render(Ok, LogoutPage);
    }

    /** Route one request to its handler; the read-only routes are answered from the current state. */
    method Handle(req: Handlers.Request, salt: nat) returns (r: Response)
      requires Valid()
      modifies this
      ensures Valid()
      ensures Handlers.Outcome(users, CurrentSession(), r) ==
              Handlers.Step(old(users), old(CurrentSession()), req, salt, env)
    {
      match req
      case GetHome => r := Handlers.Home(CurrentSession());
      case GetSignup => r := Render(Ok, SignupPage(None));
      case PostSignup(form) => r := SubmitSignup(form, salt);
      case GetLogin => r := Render(Ok, LoginPage(None));
      case PostLogin(form) => r := SubmitLogin(form);
      case GetMembers => r := Handlers.Members(CurrentSession());
      case GetAdmin => r := Handlers.AdminPanel(users, CurrentSession());
      case PostChangeRole(email, newRole) => r := ChangeRole(email, newRole);
      case GetLogout => r := Logout();
      case GetUnknown => r := Render(NotFound, NotFoundPage);
    }
  }
}
