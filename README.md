# Membership app: sign-up, login and role gate, modelled in Dafny

The application is a small Express server (`app.js`). Users sign up and log in.
Logged-in users see a members page. Administrators list all accounts and change
their roles. This project models its request handlers as a state machine. The
state is the `users` collection, held as a sequence of documents so that
duplicate emails can be represented, together with the browser's session. The
session is either anonymous or authenticated with a `{name, email, userType}`
snapshot. Each handler takes the collection, the session and the request to a
new collection, a new session and a response. A response is a rendered page
with its status, a redirect, or an unhandled fault.

Modules:

- `Wrappers` (wrappers.dfy): `Option`.
- `Directory` (directory.dfy): the collection: `findOne`, `find`, `updateOne` and lemmas relating them.
- `Credentials` (credentials.dfy): bcrypt as two function values, `hash` and `verify`. The one assumption, that every password verifies against each of its hashes, is the predicate `Sound`. Lemmas that need it require it.
- `Sessions` (sessions.dfy): the identity snapshot and the session.
- `Validation` (validation.dfy): the forms, the empty-field checks and the Joi schemas. Each schema is a predicate plus a function giving its first violated rule. Email syntax is a parameter, `isEmail`.
- `Responses` (responses.dfy): views, statuses and paths.
- `Handlers` (handlers.dfy): one pure transition per route, the dispatcher `Step`, and `Replay` for runs of requests.
- `Properties` (properties.dfy): properties that span several handlers or requests.
- `Server` (server.dfy): class `App`. It holds the collection and the session fields (`authenticated`, `user`), which the handler methods assign step by step as the source does. Each method is proved equal to its transition in `Handlers`.

I/O, randomness and foreign code are handled as follows:

- The document store becomes the `users` field, and the session store becomes the `authenticated` and `user` fields.
- bcrypt's random salt is a parameter of signup.
- bcrypt itself and Joi's email grammar are parameters (`Env`).

## Model

| member | source | states |
|---|---|---|
| Directory.FindOne | app.js:101-102 | `findOne({email})` gives the position of the FIRST document with that email, or none when no document has it |
| Directory.Find | app.js:160-162 | `find({email}).toArray()` holds only documents with that email, each taken from the collection, and holds every such document; it is empty when none matches |
| Directory.UpdateOne | app.js:227 | `updateOne` sets the userType of the first matching document to the given string verbatim and leaves every other document and field alone; with no match, the collection is unchanged |
| Directory.FindStartsAtFindOne | app.js:160-168 | `find` is empty exactly when `findOne` finds nothing, and otherwise its first element is the document `findOne` finds |
| Directory.UniqueFindAtMostOne | app.js:164 | when emails are unique, login's `find` returns at most one document |
| Directory.FindSingle | app.js:160-164 | when exactly one document has the email, whatever the other emails are, `find` returns exactly that document |
| Directory.DuplicateFindAtLeastTwo | app.js:164-165 | two documents sharing an email make `find` return at least two, so the "exactly one" test fails |
| Directory.FindAppend | app.js:109-114 | inserting a document adds it at the end of `find`'s result exactly when its email matches |
| Directory.FindOneSeesOnlyEmails | app.js:227-231 | `findOne` only depends on the emails, so after `updateOne` the lookup in changeRole finds the same document |
| Validation.SignupSchemaError | app.js:87-99 | the signup schema check reports nothing exactly when the name is alphanumeric and at most 30 long, the email is valid and the password is at most 30 long; otherwise it reports a rule the form breaks, and the form keeps every earlier rule in Joi's order |
| Validation.LoginSchemaError | app.js:147-158 | the same for the login schema (email, then password) |
| Validation.SignupCheck | app.js:72-99 | signup's checks pass exactly when no field is empty and the schema holds; the first empty field in the order name, email, password gives its own message; only when none is empty is the schema's first violation reported |
| Validation.LoginCheck | app.js:137-158 | login's checks: empty email, then empty password, then the login schema |
| Validation.SignupValidIsLoginValid | app.js:147-151 | a form accepted by signup's checks gives an email and password accepted by login's checks |
| Handlers.Home | app.js:56-63 | `GET /` renders the homepage with the session's name exactly when the session is authenticated, and the welcome page otherwise |
| Handlers.RequireLogin | app.js:185-189 | the first tier of the gate passes exactly the authenticated sessions and redirects all others to `/` |
| Handlers.RequireAdmin | app.js:195-204 | the admin gate passes exactly the sessions with userType "admin"; anonymous sessions are redirected before any role check; other authenticated sessions get 403 and the no-access view |
| Handlers.Members | app.js:185-192 | `/members` redirects anonymous sessions to `/` and greets any authenticated session by its snapshot name |
| Handlers.AdminPanel | app.js:194-210 | `/admin` answers a non-admin with the gate's rejection and an admin with the full collection listing |
| Handlers.SubmitSignup | app.js:69-127 | signup succeeds exactly when the checks pass and no document has the email; it then appends exactly one record {name, email, hash(password, salt), "member"}, starts a session with userType "member" and redirects to `/members`; each rejection re-renders with its message and leaves collection and session unchanged; unique emails stay unique |
| Handlers.SubmitLogin | app.js:133-183 | login never changes the collection; it succeeds exactly when the checks pass, exactly one document has the email and the password verifies against its hash, and then the session snapshot is that document's name, email and userType; zero or several matches give "User not found", a mismatch "Incorrect Password", and every rejection leaves the session unchanged |
| Handlers.ChangeRole | app.js:212-234 | a non-admin gets the gate's rejection and nothing changes; for an admin the collection becomes `updateOne`'s result; with no matching document the handler faults; otherwise it renders the updated listing, naming the changed account and the new role; the session, the admin's own snapshot included, never changes |
| Handlers.Logout | app.js:236-239 | logout leaves the collection as it is, makes the session anonymous and renders the logout view |
| Handlers.Step | app.js:56-244 | for every request, unique emails stay unique; no document is removed, moved or has anything but its userType changed; only an admin session changes an existing document; the collection changes only on signup or on an admin's changeRole; the session changes only on signup, login or logout |
| Properties.ReplayKeepsEmailsUnique | app.js:101-126 | when requests are handled one at a time, no run of requests makes two documents share an email |
| Properties.ReplayRetains | app.js:109-114 | over any run of requests, every document keeps its place, name, email and password hash |
| Properties.LoginWithUniqueEmails | app.js:160-182 | when emails are unique, "User not found" happens exactly when no document has the email; otherwise login succeeds exactly when the password verifies against that document, and stores its snapshot |
| Properties.LoginWithOneMatch | app.js:164-182 | with exactly one document for the email and no assumption about other emails, login redirects and stores that document's snapshot exactly when the password verifies, and otherwise answers "Incorrect Password" with collection and session unchanged |
| Properties.LoginRejectsDuplicates | app.js:164-166 | two documents with the login email give "User not found" for any password, and the session is unchanged |
| Properties.SignupThenLogin | app.js:107-126 | with a sound hasher, the credentials a successful signup stored then log in from any session, and login stores the same identity that signup did |
| Properties.AnonymousIsRedirected | app.js:185-189 | an anonymous session is redirected to `/` by `/members`, `/admin` and `/changeRole` whatever the request, and nothing changes |
| Properties.NonAdminIsForbidden | app.js:200-204 | an authenticated session without userType "admin" gets 403 and the no-access view on `/admin` and `/changeRole`, and nothing changes |
| Properties.LogoutForgets | app.js:236-239 | after logout, any run of requests produces the same responses and state as it would for a browser that never logged in, and `GET /` shows the welcome view |
| Properties.ChangeRoleIsVerbatim | app.js:224-233 | whatever string an admin submits as the new role, the next `GET /admin` lists the first matching document with exactly that userType, and every other document as it was |
| Properties.SnapshotIsStale | app.js:218-233 | an admin who demotes their own account keeps the admin session snapshot and can still open `/admin` |
| Properties.SignupScenario | app.js:69-210 | a new visitor who signs up as Ann is redirected to `/members`, then greeted there as "Ann", then refused `/admin` with 403 |
| Server.App.constructor | app.js:24 | a server starts with the given collection and an anonymous session |
| Server.App.SubmitSignup | app.js:69-127 | the in-place signup handler leaves exactly the collection, session and response that `Handlers.SubmitSignup` describes, and keeps "authenticated implies a user snapshot" |
| Server.App.SubmitLogin | app.js:133-183 | the in-place login handler agrees with `Handlers.SubmitLogin` |
| Server.App.ChangeRole | app.js:212-234 | the in-place changeRole handler agrees with `Handlers.ChangeRole`, including the fault when no document matches |
| Server.App.Logout | app.js:236-239 | the in-place logout clears the session and agrees with `Handlers.Logout` |
| Server.App.Handle | app.js:56-244 | dispatching a request on the live state agrees with `Handlers.Step` |

## Left out

- Express routing and middleware, static files, body parsing, views, titles and the navigation links (app.js:33-54, 246-248). A response is a view plus the fields that vary.
- The connections to the document store and to the session store, and the environment configuration (app.js:1-31). These are replaced by the `users` field and the session fields.
- bcrypt's internals and its cost factor of 12. Hashing is the function value `Env.hasher.hash`, taking the salt as a parameter. Verifying is `Env.hasher.verify`. The model assumes only `Sound`, that every password verifies against each of its own hashes. A wrong password that happens to verify is therefore not excluded. Hashing errors, which the source does not catch, are not modelled.
- Joi's email grammar and its message wording. The email rule is the parameter `isEmail`, and a schema error is reported as the rule that failed (`Invalid(rule)`).
- Joi rejects body keys that the schema does not name. The forms here carry only the schema's keys, so that rejection is not modelled. "" stands for both a missing and an empty field.
- Joi measures length in UTF-16 code units. Here strings are sequences of Unicode characters, so names and passwords outside the Basic Multilingual Plane are measured differently.
- The one-hour cookie lifetime (app.js:13, 38), because it depends on wall-clock time. Sessions here never expire.
- Concurrency. Each request is one atomic step, so the duplicate-email race between two concurrent signups cannot occur in the model. The collection is still a sequence, so duplicates already present are represented and `Properties.LoginRejectsDuplicates` covers them.
- `console.log` calls.
- POST requests to unknown paths. Only the GET catch-all (`GetUnknown`, 404) is modelled.
- changeRole writes any string into `userType` (app.js:224-227), and the model does the same. A changeRole for an email that no document has faults in the code, because `updatedUser` is null at app.js:231-233; the model returns `Fault`.
- `findOne` and `updateOne` run without a sort (app.js:101, 227, 231), so "first" is the store's natural order. The model takes that order to be insertion order, which the store does not guarantee.
