/**
 * The backend's `POST /api/auth/login` handler: a decision on the request
 * body's `email` and `password` that answers 400, 200 or 401. The only
 * account it accepts is the built-in test administrator.
 */
module Server {
  import opened Wrappers
  import opened Text
  import opened Accounts

  /** A property of the parsed JSON body, as JavaScript sees it. */
  datatype Field = Absent | Null | Text(s: string) | Number(n: int) | Flag(b: bool)

  /** JavaScript truthiness: a missing property, `null`, `""`, `0` and `false` are falsy. */
  predicate Truthy(f: Field)
  {
    match f
    case Absent => false
    case Null => false
    case Text(s) => s != ""
    case Number(n) => n != 0
    case Flag(b) => b
  }

  datatype Request = Request(email: Field, password: Field)

  /** Status code and JSON body `{ok, message, user?}`. */
  datatype Response = Response(status: int, ok: bool, message: string, user: Option<User>)

  const AdminEmail := "admin@test.com"
  const AdminPassword := "123456"

  /** The user object of a successful login. It has no password property. */
  function AdminUser(): User
  {
    User(Num(1), "Admin User", AdminEmail, AdminRole, "")
  }

  /** The handler: 400 when a field is missing or empty, 200 for the test
      administrator's exact credentials, 401 for everything else. */
  function Login(req: Request): (r: Response)
    ensures r.status == 400 || r.status == 200 || r.status == 401
    ensures r.ok <==> r.status == 200
    ensures r.user.Some? <==> r.ok
    ensures r.status == 400 <==> !Truthy(req.email) || !Truthy(req.password)
    ensures r.status == 200 <==> req.email == Text(AdminEmail) && req.password == Text(AdminPassword)
    ensures r.ok ==> r.user == Some(AdminUser())
    ensures r.message != ""
  {
    if !Truthy(req.email) || !Truthy(req.password) then
      Response(400, false, "Email and password are required", None)
    else if req.email == Text(AdminEmail) && req.password == Text(AdminPassword) then
      Response(200, true, "Login successful", Some(User(Num(1), "Admin User", req.email.s, AdminRole, "")))
    else
      Response(401, false, "Invalid email or password", None)
  }

  /** Every pair of non-empty values other than the administrator's credentials is refused with 401. */
  lemma OthersUnauthorized(req: Request)
    requires Truthy(req.email) && Truthy(req.password)
    requires req.email != Text(AdminEmail) || req.password != Text(AdminPassword)
    ensures Login(req).status == 401 && !Login(req).ok && Login(req).user.None?
  {
  }

  /** Matching is case-sensitive: "Admin@test.com", equal to the administrator's
      email ignoring case, is refused even with the right password. */
  lemma CapitalisedAdminEmailRefused()
    ensures SameIgnoringCase("Admin@test.com", AdminEmail)
    ensures Login(Request(Text("Admin@test.com"), Text(AdminPassword))).status == 401
  {
    OthersUnauthorized(Request(Text("Admin@test.com"), Text(AdminPassword)));
  }
}
