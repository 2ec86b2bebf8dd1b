/**
 * The `/register` and `/login` handlers. Password hashing and comparison
 * (bcrypt) are given functions; token issuance is not part of the model.
 */
module AuthRoutes {
  import opened Wrappers
  import opened JsStrings
  import opened Json
  import opened Users
  import opened Audit
  import opened AuthMiddleware

  /** The fields of a registration request body; a missing field is `None`. */
  datatype RegisterBody = RegisterBody(
    name: Option<string>,
    email: Option<string>,
    password: Option<string>,
    role: Option<string>,
    branchId: Option<string>,
    customerId: Option<string>)

  /** The user as returned in a response body (never the password hash) */
  datatype UserView = UserView(
    id: int,
    email: string,
    name: string,
    role: string,
    branchId: Option<int>,
    customerId: Option<int>)

  function View(u: User): UserView {
    UserView(u.id, u.email, u.name, u.role, u.branchId, u.customerId)
  }

  datatype AuthReply =
    | Registered(user: UserView)      // 201
    | LoggedIn(user: UserView)        // 200
    | Failure(status: int, error: string)

  const MinPasswordLength: nat := 6
  const MissingFields: AuthReply := Failure(400, "Name, email, and password are required")
  const ShortPassword: AuthReply := Failure(400, "Password must be at least 6 characters")
  const EmailTaken: AuthReply := Failure(400, "User already exists with this email")
  const BadCredentials: AuthReply := Failure(401, "Invalid email or password")
  const IpBlocked: AuthReply := Failure(403, "Access denied from this IP address")
  const ServerError: AuthReply := Failure(500, "Internal server error")

  // ---------------------------------------------------------------------------
  // /register
  // ---------------------------------------------------------------------------

  predicate HasRequiredFields(body: RegisterBody) {
    Truthy(body.name) && Truthy(body.email) && Truthy(body.password)
  }

  /** The first registration check that fails, in the handler's order:
      required fields, then password length (in UTF-16 code units, as
      `password.length` counts), then an existing email. */
  function RegistrationError(body: RegisterBody, rows: seq<User>): (r: Option<AuthReply>)
    ensures !HasRequiredFields(body) ==> r == Some(MissingFields)
    ensures HasRequiredFields(body) && JsLength(body.password.value) < MinPasswordLength ==> r == Some(ShortPassword)
    ensures (HasRequiredFields(body) && JsLength(body.password.value) >= MinPasswordLength
             && FindByEmail(rows, body.email.value).Some?) ==> r == Some(EmailTaken)
    ensures r.None? <==>
      HasRequiredFields(body) && JsLength(body.password.value) >= MinPasswordLength
      && forall k :: 0 <= k < |rows| ==> rows[k].email != body.email.value
  {
    if !HasRequiredFields(body) then Some(MissingFields)
    else if JsLength(body.password.value) < MinPasswordLength then Some(ShortPassword)
    else if FindByEmail(rows, body.email.value).Some? then Some(EmailTaken)
    else None
  }

  /** The stored role: the requested one when it is a valid role, otherwise SALES */
  function StoredRole(role: Option<string>): (r: string)
    ensures r in Roles
    ensures role.Some? && role.value in Roles ==> r == role.value
    ensures !(role.Some? && role.value in Roles) ==> r == "SALES"
  {
    if Truthy(role) && role.value in Roles then role.value else "SALES"
  }

  /** `branchId` / `customerId`: parsed with `parseInt` when supplied
      (truthy), otherwise null. `None` stands for both null and `NaN` here. */
  function StoredId(v: Option<string>): (r: Option<int>)
    ensures !Truthy(v) ==> r == None
    ensures Truthy(v) ==> r == ParseInt(v.value)
  {
    if Truthy(v) then ParseInt(v.value) else None
  }

  /** A password of three characters outside the Basic Multilingual Plane
      has length 6, so it passes the length check. */
  lemma SupplementaryPasswordLength(c: char)
    requires IsSupplementary(c)
    ensures JsLength([c, c, c]) == MinPasswordLength
  {
    assert [c, c, c] == [c] + [c, c];
    assert [c, c] == [c] + [c];
    JsLengthAppend([c], [c, c]);
    JsLengthAppend([c], [c]);
  }

  /** An id sent in its decimal form is stored as that number. */
  lemma StoredIdOfDecimal(id: int)
    ensures StoredId(Some(IntToString(id))) == Some(id)
  {
    ParseIntOfIntToString(id);
  }

  /** `POST /register`. Every rejected request leaves the table unchanged;
      an accepted one adds exactly one user, whose password is stored only as
      its hash. */
  method Register(store: UserStore, body: RegisterBody, hash: string -> string, storeFails: bool)
    returns (reply: AuthReply)
    requires store.Valid()
    modifies store
    ensures store.Valid()
    ensures RegistrationError(body, old(store.rows)).Some? ==>
      reply == RegistrationError(body, old(store.rows)).value
      && store.rows == old(store.rows) && store.nextId == old(store.nextId)
    ensures RegistrationError(body, old(store.rows)).None? && storeFails ==>
      reply == ServerError && store.rows == old(store.rows) && store.nextId == old(store.nextId)
    ensures RegistrationError(body, old(store.rows)).None? && !storeFails ==>
      var u := User(old(store.nextId), body.name.value, body.email.value, hash(body.password.value),
                    StoredRole(body.role), StoredId(body.branchId),
                    StoredId(body.customerId), None);
      store.rows == old(store.rows) + [u] && reply == Registered(View(u))
  {
    if !Truthy(body.name) || !Truthy(body.email) || !Truthy(body.password) {
      return MissingFields;
    }
    if JsLength(body.password.value) < MinPasswordLength {
      return ShortPassword;
    }
    var existing := FindByEmail(store.rows, body.email.value);
    if existing.Some? {
      return EmailTaken;
    }
    var userRole := StoredRole(body.role);
    var hashed := hash(body.password.value);
    var created := store.Create(body.name.value, body.email.value, hashed, userRole,
                                StoredId(body.branchId), StoredId(body.customerId),
                                storeFails);
    if created.None? {
      return ServerError;
    }
    reply := Registered(View(created.value));
  }

  // ---------------------------------------------------------------------------
  // /login
  // ---------------------------------------------------------------------------

  /** `req.ip || req.connection.remoteAddress || ''` */
  function LoginClientIp(ip: Option<string>, remoteAddress: Option<string>): (r: string)
    ensures Truthy(ip) ==> r == ip.value
    ensures !Truthy(ip) && Truthy(remoteAddress) ==> r == remoteAddress.value
    ensures !Truthy(ip) && !Truthy(remoteAddress) ==> r == ""
  {
    if Truthy(ip) then ip.value else if Truthy(remoteAddress) then remoteAddress.value else ""
  }

  /** The login route reads the same address as `checkIP`, with the empty
      text when there is none. */
  lemma LoginAddressFallsBack(ip: Option<string>, remoteAddress: Option<string>)
    ensures LoginClientIp(ip, remoteAddress) == ClientIp(ip, remoteAddress).GetOr("")
  {
  }

  /** A user's allow-list admits the address (an absent or empty list admits all) */
  predicate IpPermits(u: User, clientIP: string) {
    !Truthy(u.allowedIPs) || IpAllowed(u.allowedIPs.value, clientIP)
  }

  /** The answer of `POST /login`: the user is looked up by email, then the IP
      restriction is checked, and only then the password. An unknown email and
      a wrong password get the same 401 answer. */
  function LoginDecision(rows: seq<User>, email: string, password: string, clientIP: string,
                         compare: (string, string) -> bool): (r: AuthReply)
    ensures FindByEmail(rows, email).None? ==> r == BadCredentials
    ensures FindByEmail(rows, email).Some? && !IpPermits(FindByEmail(rows, email).value, clientIP) ==>
      r == IpBlocked
    ensures r.LoggedIn? <==>
      && FindByEmail(rows, email).Some?
      && IpPermits(FindByEmail(rows, email).value, clientIP)
      && compare(password, FindByEmail(rows, email).value.passwordHash)
    ensures r.LoggedIn? ==> r.user == View(FindByEmail(rows, email).value) && r.user.email == email
    ensures (FindByEmail(rows, email).Some? && IpPermits(FindByEmail(rows, email).value, clientIP)
             && !compare(password, FindByEmail(rows, email).value.passwordHash)) ==> r == BadCredentials
    ensures !r.Registered?
    ensures r.Failure? ==> r == BadCredentials || r == IpBlocked
  {
    match FindByEmail(rows, email)
    case None => BadCredentials
    case Some(u) =>
      if !IpPermits(u, clientIP) then IpBlocked
      else if !compare(password, u.passwordHash) then BadCredentials
      else LoggedIn(View(u))
  }

  /** The audit row of a successful login: `{ ip: req.ip }` as details */
  function LoginRecord(userId: int, ip: Option<string>): (r: AuditRecord)
    ensures r.userId == userId && r.action == "LOGIN" && r.entity == "User"
    ensures r.details.JString?
  {
    NewRecord(userId, "LOGIN", "User", JNumber(userId),
              JObject([("ip", if ip.Some? then JString(ip.value) else JUndefined)]))
  }

  /** The details text of a login row is the JSON object holding the request's
      address, and `{}` when the request has none. */
  lemma LoginRecordDetails(userId: int, ip: Option<string>)
    ensures ip.Some? ==> LoginRecord(userId, ip).details == JString("{\"ip\":" + Quote(ip.value) + "}")
    ensures ip.None? ==> LoginRecord(userId, ip).details == JString("{}")
    ensures LoginRecord(userId, ip).entityId == IntToString(userId)
  {
    if ip.Some? {
      var details := JObject([("ip", JString(ip.value))]);
      assert LoginRecord(userId, ip).details == DetailsColumn(details);
      StringifyOneMember("ip", JString(ip.value));
      QuoteIpKey(Quote(ip.value));
      assert Stringify(details) == "{\"ip\":" + Quote(ip.value) + "}";
    } else {
      var details := JObject([("ip", JUndefined)]);
      assert LoginRecord(userId, ip).details == DetailsColumn(details);
      StringifyUndefinedMember("ip");
    }
  }

  /** The printed key of the `ip` member */
  lemma QuoteIpKey(q: string)
    ensures "{" + Quote("ip") + ":" + q + "}" == "{\"ip\":" + q + "}"
  {
    assert EscapeString("p") == EscapeChar('p') + EscapeString("");
    assert EscapeString("ip") == EscapeChar('i') + EscapeString("p");
    assert Quote("ip") == "\"ip\"";
    assert "{" + "\"ip\"" + ":" == "{\"ip\":";
  }

  /** `POST /login`. The store is only read; the audit log gains one LOGIN row
      exactly when the login succeeds and the audit write does not fail, and a
      failed audit write does not change the answer. */
  method Login(store: UserStore, audit: AuditLog, email: string, password: string,
               ip: Option<string>, remoteAddress: Option<string>,
               compare: (string, string) -> bool, auditFails: bool)
    returns (reply: AuthReply)
    modifies audit
    ensures reply == LoginDecision(store.rows, email, password, LoginClientIp(ip, remoteAddress), compare)
    ensures audit.entries ==
      if reply.LoggedIn? && !auditFails then old(audit.entries) + [LoginRecord(reply.user.id, ip)]
      else old(audit.entries)
  {
    var found := FindByEmail(store.rows, email);
    if found.None? {
      return BadCredentials;
    }
    var user := found.value;
    if Truthy(user.allowedIPs) {
      var clientIP := LoginClientIp(ip, remoteAddress);
      if !IpAllowed(user.allowedIPs.value, clientIP) {
        return IpBlocked;
      }
    }
    if !compare(password, user.passwordHash) {
      return BadCredentials;
    }
    audit.LogAction(user.id, "LOGIN", "User", JNumber(user.id),
                    JObject([("ip", if ip.Some? then JString(ip.value) else JUndefined)]), auditFails);
    reply := LoggedIn(View(user));
  }
}
