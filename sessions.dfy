/**
  The per-browser session. Signup and login copy a snapshot of the account
  into it; the snapshot is not linked to the document and does not follow
  later changes to it.
 */
module Sessions {

  import opened Directory

  /** The `req.session.user` object. */
  datatype Identity = Identity(name: string, email: string, userType: string)

  /** A session is either anonymous or authenticated, and then always carries an identity. */
  datatype Session = Anonymous | Authenticated(user: Identity)

  /** The snapshot login takes of a stored document. */
  function Snapshot(u: User): Identity
  {
    Identity(u.name, u.email, u.userType)
  }

  /** The session passes the admin routes' role check. */
  predicate IsAdmin(s: Session)
  {
    s.Authenticated? && s.user.userType == AdminType
  }
}
