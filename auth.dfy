/**
 * The credentials provider of src/lib/auth.ts: the built-in user table, the
 * `authorize` lookup and the `jwt` / `session` callbacks.
 */
module Auth {
  import opened Wrappers
  import opened Roles

  datatype User = User(id: string, name: string, email: string, password: string, role: string)

  /** The submitted form; either field may be missing. */
  datatype Credentials = Credentials(email: Option<string>, password: Option<string>)

  /** The `users` table. */
  const Users: seq<User> := [
    User("1", "Admin", "admin@company.com", "admin123", "ADMIN"),
    User("2", "HR User", "hr@company.com", "hr123", "HR"),
    User("3", "Payroll User", "payroll@company.com", "payroll123", "PAYROLL"),
    User("4", "Manager User", "manager@company.com", "manager123", "MANAGER")
  ]

  predicate MatchesCredentials(u: User, email: string, password: string) {
    u.email == email && u.password == password
  }

  /** `users.find(...)`: the first user whose email and password both match. */
  function FindUser(users: seq<User>, email: string, password: string): (r: Option<nat>)
    ensures r.Some? ==> r.value < |users| && MatchesCredentials(users[r.value], email, password)
    ensures r.Some? ==> forall j :: 0 <= j < r.value ==> !MatchesCredentials(users[j], email, password)
    ensures r.None? <==> forall j :: 0 <= j < |users| ==> !MatchesCredentials(users[j], email, password)
  {
    if users == [] then None
    else if MatchesCredentials(users[0], email, password) then Some(0)
    else match FindUser(users[1..], email, password)
      case None => None
      case Some(k) => Some(k + 1)
  }

  /** A JavaScript string is truthy when it is present and not empty. */
  predicate Truthy(s: Option<string>) {
    s.Some? && s.value != ""
  }

  /** `authorize(credentials)`. */
  function Authorize(credentials: Option<Credentials>): (r: Option<User>)
    ensures credentials.None? || !Truthy(credentials.value.email) || !Truthy(credentials.value.password) ==> r.None?
    ensures r.Some? ==>
              && r.value in Users
              && Some(r.value.email) == credentials.value.email
              && Some(r.value.password) == credentials.value.password
    ensures r.None? && credentials.Some? && Truthy(credentials.value.email) && Truthy(credentials.value.password) ==>
              forall u :: u in Users ==> !MatchesCredentials(u, credentials.value.email.value, credentials.value.password.value)
  {
    if credentials.None? || !Truthy(credentials.value.email) || !Truthy(credentials.value.password) then None
    else
      match FindUser(Users, credentials.value.email.value, credentials.value.password.value)
      case Some(i) => Some(Users[i])
      case None => None
  }

  /** The built-in emails are pairwise distinct, so at most one user can match. */
  lemma EmailsDistinct()
    ensures forall i, j :: 0 <= i < j < |Users| ==> Users[i].email != Users[j].email
  {
  }

  /** Whatever credentials are given, a successful lookup names the one user with that email. */
  lemma AuthorizeUnique(credentials: Option<Credentials>, u: User)
    requires Authorize(credentials) == Some(u)
    ensures forall v :: v in Users && v.email == u.email ==> v == u
  {
    EmailsDistinct();
  }

  /** Every built-in user's role is one of the four `Role` literals. */
  lemma UserRolesAreRoles()
    ensures forall u :: u in Users ==> ParseRole(u.role).Some?
  {
  }

  /** The JWT being built; `role` is the custom claim. */
  class JwtToken {
    var role: Option<string>
    constructor (role: Option<string>)
      ensures this.role == role
    {
      this.role := role;
    }
  }

  class SessionUser {
    var role: Option<string>
    constructor (role: Option<string>)
      ensures this.role == role
    {
      this.role := role;
    }
  }

  class Session {
    var user: SessionUser?
    constructor (user: SessionUser?)
      ensures this.user == user
    {
      this.user := user;
    }
  }

  /** The `jwt` callback: copies the user's role onto the token when a user is supplied. */
  method Jwt(token: JwtToken, user: Option<User>) returns (result: JwtToken)
    modifies token
    ensures result == token
    ensures token.role == if user.Some? then Some(user.value.role) else old(token.role)
  {
    if user.Some? {
      token.role := Some(user.value.role);
    }
    result := token;
  }

  /** The `session` callback: copies the token's role onto `session.user` when there is one. */
  method SessionCallback(session: Session, token: JwtToken) returns (result: Session)
    modifies session.user
    ensures result == session && session.user == old(session.user)
    ensures session.user != null ==> session.user.role == token.role
  {
    if session.user != null {
      session.user.role := token.role;
    }
    result := session;
  }
}
