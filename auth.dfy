/** The session middlewares: `isAuthenticated` and `isAdmin` gate a route on
    the session's user and copy it to `req.user`; `setUserSession` writes that
    user after a login. */
module Auth {
  import opened Js
  import opened Store

  /** The two request fields the middlewares touch. `session` is
      `req.session.user` (express-session always provides `req.session`),
      `user` is `req.user`. */
  class Request {
    var session: Option<Profile>
    var user: Option<Profile>

    /** A request arriving with the given session user and no `req.user` yet. */
    constructor (session: Option<Profile>)
      ensures this.session == session && user == None
    {
      this.session := session;
      user := None;
    }
  }

  /** What a middleware does with the request: call `next()`, or answer it itself. */
  datatype Gate = Next | Halt(status: int, message: string)

  /** `isAuthenticated`: only a request whose session holds a user goes on. */
  function AuthenticatedGate(session: Option<Profile>): (g: Gate)
    ensures g.Next? <==> session.Some?
    ensures g.Halt? ==> g == Halt(401, "Unauthorized")
  {
    if session.Some? then Next else Halt(401, "Unauthorized")
  }

  /** `isAdmin`: only a session user whose role is `'admin'` goes on. */
  function AdminGate(session: Option<Profile>): (g: Gate)
    ensures g.Next? <==> session.Some? && session.value.role == "admin"
    ensures g.Halt? ==> g == Halt(403, "Forbidden: Admins only")
  {
    if session.Some? && session.value.role == "admin" then Next
    else Halt(403, "Forbidden: Admins only")
  }

  method IsAuthenticated(req: Request) returns (g: Gate)
    modifies req`user
    ensures g == AuthenticatedGate(req.session)
    ensures g.Next? ==> req.user == req.session
    ensures g.Halt? ==> req.user == old(req.user)
  {
    if req.session.Some? {
      req.user := req.session;
      return Next;
    }
    return Halt(401, "Unauthorized");
  }

  method IsAdmin(req: Request) returns (g: Gate)
    modifies req`user
    ensures g == AdminGate(req.session)
    ensures g.Next? ==> req.user == req.session
    ensures g.Halt? ==> req.user == old(req.user)
  {
    if req.session.Some? && req.session.value.role == "admin" {
      req.user := req.session;
      return Next;
    }
    return Halt(403, "Forbidden: Admins only");
  }

  /** Copies exactly id, username, email, first and last name and role of the
      given user into the session; the password hash is not among them. */
  method SetUserSession(req: Request, u: User)
    modifies req`session
    ensures req.session == Some(Profile(u.id, u.username, u.email, u.firstName, u.lastName, u.role))
  {
    req.session := Some(Profile(u.id, u.username, u.email, u.firstName, u.lastName, u.role));
  }

  /** Every request the admin gate lets through also passes authentication;
      a missing session and a non-admin session get the same 403. */
  lemma AdminGateStricter(session: Option<Profile>, other: Profile)
    requires other.role != "admin"
    ensures AdminGate(session).Next? ==> AuthenticatedGate(session).Next?
    ensures AdminGate(None) == AdminGate(Some(other)) == Halt(403, "Forbidden: Admins only")
  {
  }
}
