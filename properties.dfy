/**
  Properties of the application that relate several handlers or several
  requests.
 */
module Properties {

  import opened Wrappers
  import opened Directory
  import opened Sessions
  import opened Validation
  import opened Credentials
  import opened Responses
  import opened Handlers

  /** Run one after another, the handlers never let two documents share an email that did not already. */
  lemma {:induction false} ReplayKeepsEmailsUnique(db: seq<User>, s: Session, trace: seq<(Request, nat)>, env: Env)
    requires UniqueEmails(db)
    ensures UniqueEmails(Replay(db, s, trace, env).users)
    decreases |trace|
  {
    if trace != [] {
      var first := Step(db, s, trace[0].0, trace[0].1, env);
      ReplayKeepsEmailsUnique(first.users, first.session, trace[1..], env);
    }
  }

  /** Over any run of requests, no document is deleted or moved, and none changes anything but its userType. */
  lemma {:induction false} ReplayRetains(db: seq<User>, s: Session, trace: seq<(Request, nat)>, env: Env)
    ensures Retains(db, Replay(db, s, trace, env).users)
    decreases |trace|
  {
    if trace != [] {
      var first := Step(db, s, trace[0].0, trace[0].1, env);
      ReplayRetains(first.users, first.session, trace[1..], env);
    }
  }

  /**
    When emails are unique, "User not found" means exactly that no document
    has the email, and otherwise login succeeds exactly when the password
    verifies against that one document, whose snapshot it then stores.
   */
  lemma LoginWithUniqueEmails(db: seq<User>, s: Session, form: LoginForm, env: Env)
    requires UniqueEmails(db)
    requires LoginCheck(form, env.isEmail).None?
    ensures FindOne(db, form.email).None? <==>
              SubmitLogin(db, s, form, env).response == Render(Ok, LoginPage(Some(UserNotFound)))
    ensures FindOne(db, form.email).Some? ==>
              var u := db[FindOne(db, form.email).value];
              && (SubmitLogin(db, s, form, env).response == Redirect(MembersPath) <==> env.hasher.verify(form.password, u.password))
              && (env.hasher.verify(form.password, u.password) ==> SubmitLogin(db, s, form, env).session == Authenticated(Snapshot(u)))
  {
    UniqueFindAtMostOne(db, form.email);
    FindStartsAtFindOne(db, form.email);
  }

  /**
    When exactly one document has the login email, whatever the other
    emails are, login redirects exactly when the password verifies against
    that document, storing its snapshot, and otherwise answers
    "Incorrect Password" with the session unchanged.
   */
  lemma LoginWithOneMatch(db: seq<User>, s: Session, form: LoginForm, env: Env, i: nat)
    requires LoginCheck(form, env.isEmail).None?
    requires i < |db| && db[i].email == form.email
    requires forall j | 0 <= j < |db| && j != i :: db[j].email != form.email
    ensures env.hasher.verify(form.password, db[i].password) ==>
              SubmitLogin(db, s, form, env) == Outcome(db, Authenticated(Snapshot(db[i])), Redirect(MembersPath))
    ensures !env.hasher.verify(form.password, db[i].password) ==>
              SubmitLogin(db, s, form, env) == Outcome(db, s, Render(Ok, LoginPage(Some(IncorrectPassword))))
  {
    FindSingle(db, form.email, i);
  }

  /** Two documents with the login email make login fail with "User not found", whatever the password. */
  lemma LoginRejectsDuplicates(db: seq<User>, s: Session, form: LoginForm, env: Env, i: nat, j: nat)
    requires LoginCheck(form, env.isEmail).None?
    requires i < j < |db| && db[i].email == form.email && db[j].email == form.email
    ensures SubmitLogin(db, s, form, env) == Outcome(db, s, Render(Ok, LoginPage(Some(UserNotFound))))
  {
    DuplicateFindAtLeastTwo(db, form.email, i, j);
  }

  /**
    With a sound hasher, the credentials a successful signup stored log in
    from any session, and the login snapshot is the identity signup started.
   */
  lemma SignupThenLogin(db: seq<User>, s: Session, form: SignupForm, salt: nat, env: Env, later: Session)
    requires Sound(env.hasher)
    requires SubmitSignup(db, s, form, salt, env).response == Redirect(MembersPath)
    ensures var signedUp := SubmitSignup(db, s, form, salt, env);
            SubmitLogin(signedUp.users, later, LoginForm(form.email, form.password), env) ==
              Outcome(signedUp.users, signedUp.session, Redirect(MembersPath))
  {
    var u := User(form.name, form.email, env.hasher.hash(form.password, salt), MemberType);
    FindAppend(db, u, form.email);
    FindStartsAtFindOne(db, form.email);
    SignupValidIsLoginValid(form, env.isEmail);
    assert env.hasher.verify(form.password, u.password);
  }

  /** The routes behind the gate. */
  predicate Gated(req: Request)
  {
    req.GetMembers? || req.GetAdmin? || req.PostChangeRole?
  }

  /** An anonymous session is redirected to `/` by every gated route, and nothing changes. */
  lemma AnonymousIsRedirected(db: seq<User>, req: Request, salt: nat, env: Env)
    requires Gated(req)
    ensures Step(db, Anonymous, req, salt, env) == Outcome(db, Anonymous, Redirect(RootPath))
  {
  }

  /** An authenticated session without the "admin" userType gets 403 on the admin routes, and nothing changes. */
  lemma NonAdminIsForbidden(db: seq<User>, s: Session, req: Request, salt: nat, env: Env)
    requires s.Authenticated? && !IsAdmin(s)
    requires req.GetAdmin? || req.PostChangeRole?
    ensures Step(db, s, req, salt, env) == Outcome(db, s, Render(Forbidden, NoAccessPage))
  {
  }

  /**
    After a logout, any run of requests goes exactly as it would for a
    browser that never logged in, and the landing page is the welcome view.
   */
  lemma {:induction false} LogoutForgets(db: seq<User>, s: Session, salt: nat, trace: seq<(Request, nat)>, env: Env)
    ensures var unseen := Replay(db, Anonymous, trace, env);
            Replay(db, s, [(GetLogout, salt)] + trace, env) ==
              Run(unseen.users, unseen.session, [Render(Ok, LogoutPage)] + unseen.responses)
    ensures Step(db, Logout(db, s).session, GetHome, salt, env).response == Render(Ok, WelcomePage)
  {
    assert ([(GetLogout, salt)] + trace)[1..] == trace;
  }

  /**
    An admin may set any string as a role: the next `GET /admin` lists the
    first document with that email with exactly that userType, and every
    other document as it was.
   */
  lemma ChangeRoleIsVerbatim(db: seq<User>, s: Session, email: string, newRole: string, i: nat, env: Env)
    requires IsAdmin(s)
    requires FindOne(db, email) == Some(i)
    ensures var run := Replay(db, s, [(PostChangeRole(email, newRole), 0), (GetAdmin, 0)], env);
            && run.responses[1] == Render(Ok, AdminPage(run.users, None, None))
            && |run.users| == |db|
            && run.users[i] == db[i].(userType := newRole)
            && forall k | 0 <= k < |db| && k != i :: run.users[k] == db[k]
  {
    var trace: seq<(Request, nat)> := [(PostChangeRole(email, newRole), 0), (GetAdmin, 0)];
    var changed := Step(db, s, trace[0].0, 0, env);
    var listed := Step(changed.users, changed.session, trace[1].0, 0, env);
    assert trace[1..][1..] == [];
    assert Replay(changed.users, changed.session, trace[1..], env) ==
           Run(listed.users, listed.session, [listed.response]);
  }

  /**
    The session is a snapshot: an admin who demotes their own account keeps
    the admin session, and `GET /admin` still lets them in.
   */
  lemma SnapshotIsStale(db: seq<User>, s: Session, env: Env)
    requires IsAdmin(s)
    requires FindOne(db, s.user.email).Some?
    ensures var after := ChangeRole(db, s, s.user.email, MemberType);
            && after.users[FindOne(db, s.user.email).value].userType == MemberType
            && after.session == s
            && AdminPanel(after.users, after.session) == Render(Ok, AdminPage(after.users, None, None))
  {
  }

  /**
    A new visitor signs up as Ann, is sent to the members area, is greeted
    there by name, and is refused the admin page.
   */
  lemma SignupScenario(db: seq<User>, s: Session, salt: nat, env: Env)
    requires env.isEmail("ann@x.com")
    requires FindOne(db, "ann@x.com").None?
    ensures Replay(db, s, [(PostSignup(SignupForm("Ann", "ann@x.com", "pw1")), salt), (GetMembers, 0), (GetAdmin, 0)], env).responses ==
              [Redirect(MembersPath), Render(Ok, MembersPage("Ann")), Render(Forbidden, NoAccessPage)]
  {
    var form := SignupForm("Ann", "ann@x.com", "pw1");
    assert Alphanum(form.name) by {
      assert AlphanumChar(form.name[0]) && AlphanumChar(form.name[1]) && AlphanumChar(form.name[2]);
    }
    var trace: seq<(Request, nat)> := [(PostSignup(form), salt), (GetMembers, 0), (GetAdmin, 0)];
    var signedUp := Step(db, s, trace[0].0, salt, env);
    assert signedUp.session == Authenticated(Identity("Ann", "ann@x.com", MemberType));
    var members := Step(signedUp.users, signedUp.session, trace[1].0, 0, env);
    var admin := Step(members.users, members.session, trace[2].0, 0, env);
    assert trace[1..][1..][1..] == [];
    assert Replay(members.users, members.session, trace[1..][1..], env) ==
           Run(admin.users, admin.session, [admin.response]);
    assert Replay(signedUp.users, signedUp.session, trace[1..], env) ==
           Run(admin.users, admin.session, [members.response, admin.response]);
  }
}
