/**
  The `users` collection of the document store. It is modelled as the
  sequence of its documents in insertion order, so that two documents with
  the same email can both be present: nothing but the signup handler's own
  existence check keeps emails apart.
 */
module Directory {

  import opened Wrappers

  /** The userType a signup gives every new account. */
  const MemberType: string := "member"

  /** The userType the admin routes ask for. */
  const AdminType: string := "admin"

  /** One document: the password field holds the bcrypt hash, never the plaintext. */
  datatype User = User(name: string, email: string, password: string, userType: string)

  /** At most one document per email. */
  predicate UniqueEmails(db: seq<User>)
  {
    forall i, j | 0 <= i < j < |db| :: db[i].email != db[j].email
  }

  /** Two documents for the same account: only the userType may differ. */
  predicate SameAccount(u: User, v: User)
  {
    u.name == v.name && u.email == v.email && u.password == v.password
  }

  /**
    `after` keeps every document of `before` at its place, with at most its
    userType changed, and may hold further documents after them: documents
    are never deleted, reordered or renamed.
   */
  predicate Retains(before: seq<User>, after: seq<User>)
  {
    |before| <= |after| && forall k | 0 <= k < |before| :: SameAccount(before[k], after[k])
  }

  /** `findOne({email})`: the position of the first document with this email, if any. */
  function FindOne(db: seq<User>, email: string): (r: Option<nat>)
    ensures r.Some? ==> r.value < |db| && db[r.value].email == email
    ensures r.Some? ==> forall j | 0 <= j < r.value :: db[j].email != email
    ensures r.None? ==> forall j | 0 <= j < |db| :: db[j].email != email
  {
    if db == [] then None
    else if db[0].email == email then Some(0)
    else match FindOne(db[1..], email)
      case None => None
      case Some(i) => Some(i + 1)
  }

  /** `find({email}).toArray()`: every document with this email, in collection order. */
  function Find(db: seq<User>, email: string): (r: seq<User>)
    ensures |r| <= |db|
    ensures forall k | 0 <= k < |r| :: r[k].email == email && r[k] in db
    ensures forall i | 0 <= i < |db| && db[i].email == email :: db[i] in r
    ensures (forall i | 0 <= i < |db| :: db[i].email != email) ==> r == []
  {
    if db == [] then []
    else
      var rest := Find(db[1..], email);
      assert forall i | 1 <= i < |db| :: db[i] == db[1..][i - 1];
      if db[0].email == email then [db[0]] + rest else rest
  }

  /**
    `updateOne({email}, {$set: {userType}})`: the first document with this
    email gets the new userType, verbatim; every other document and field
    stays as it is. With no such document nothing changes.
   */
  function UpdateOne(db: seq<User>, email: string, userType: string): (r: seq<User>)
    ensures FindOne(db, email).None? ==> r == db
    ensures FindOne(db, email).Some? ==>
              var i := FindOne(db, email).value; r == db[i := db[i].(userType := userType)]
  {
    if db == [] then []
    else if db[0].email == email then [db[0].(userType := userType)] + db[1..]
    else
      var rest := UpdateOne(db[1..], email, userType);
      assert FindOne(db[1..], email).Some? ==>
               var i := FindOne(db[1..], email).value;
               [db[0]] + db[1..][i := db[1..][i].(userType := userType)] == db[i + 1 := db[i + 1].(userType := userType)];
      [db[0]] + rest
  }

  /** The first match of `findOne` is the first element of `find`'s result, and one is empty exactly when the other is. */
  lemma {:induction false} FindStartsAtFindOne(db: seq<User>, email: string)
    ensures FindOne(db, email).None? <==> Find(db, email) == []
    ensures FindOne(db, email).Some? ==> Find(db, email)[0] == db[FindOne(db, email).value]
  {
    if db != [] && db[0].email != email {
      FindStartsAtFindOne(db[1..], email);
    }
  }

  /** With unique emails, `find` returns at most one document. */
  lemma {:induction false} UniqueFindAtMostOne(db: seq<User>, email: string)
    requires UniqueEmails(db)
    ensures |Find(db, email)| <= 1
  {
    if db != [] {
      assert UniqueEmails(db[1..]);
      if db[0].email == email {
        forall k | 0 <= k < |db| - 1 ensures db[1..][k].email != email {
          assert db[1..][k] == db[k + 1];
        }
      } else {
        UniqueFindAtMostOne(db[1..], email);
      }
    }
  }

  /** A document whose email no other document has is all that `find` returns for that email. */
  lemma {:induction false} FindSingle(db: seq<User>, email: string, i: nat)
    requires i < |db| && db[i].email == email
    requires forall j | 0 <= j < |db| && j != i :: db[j].email != email
    ensures Find(db, email) == [db[i]]
  {
    if i == 0 {
      assert forall j | 0 <= j < |db| - 1 :: db[1..][j] == db[j + 1];
    } else {
      assert forall j | 0 <= j < |db| - 1 :: db[1..][j] == db[j + 1];
      FindSingle(db[1..], email, i - 1);
    }
  }

  /** Two documents sharing an email make `find` return at least two. */
  lemma {:induction false} DuplicateFindAtLeastTwo(db: seq<User>, email: string, i: nat, j: nat)
    requires i < j < |db| && db[i].email == email && db[j].email == email
    ensures |Find(db, email)| >= 2
  {
    if i == 0 {
      assert db[j] == db[1..][j - 1];
      assert Find(db[1..], email) != [];
    } else {
      DuplicateFindAtLeastTwo(db[1..], email, i - 1, j - 1);
    }
  }

  /** Appending a document appends its match, if it is one, to `find`'s result. */
  lemma {:induction false} FindAppend(db: seq<User>, u: User, email: string)
    ensures Find(db + [u], email) == Find(db, email) + (if u.email == email then [u] else [])
  {
    if db != [] {
      assert (db + [u])[1..] == db[1..] + [u];
      FindAppend(db[1..], u, email);
    }
  }

  /** `findOne` only looks at the emails, so two collections with the same emails at the same places agree on it. */
  lemma {:induction false} FindOneSeesOnlyEmails(a: seq<User>, b: seq<User>, email: string)
    requires |a| == |b|
    requires forall k | 0 <= k < |a| :: a[k].email == b[k].email
    ensures FindOne(a, email) == FindOne(b, email)
  {
    if a != [] && a[0].email != email {
      FindOneSeesOnlyEmails(a[1..], b[1..], email);
    }
  }
}
