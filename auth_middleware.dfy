/**
 * The server's request gates: bearer-token authentication (which fills in
 * `req.user`), the role gate `checkRole` and the IP allow-list gate
 * `checkIP`. Token verification is a given function from a token to the user
 * id it carries (`None` for an invalid or expired token).
 */
module AuthMiddleware {
  import opened Wrappers
  import opened JsStrings
  import opened Users

  /** The attributes of `req.user`; the password hash is never selected. */
  datatype SessionUser = SessionUser(
    id: int,
    email: string,
    name: string,
    role: string,
    branchId: Option<int>,
    customerId: Option<int>,
    allowedIPs: Option<string>)

  function ToSession(u: User): SessionUser {
    SessionUser(u.id, u.email, u.name, u.role, u.branchId, u.customerId, u.allowedIPs)
  }

  /** The JSON body of an error response */
  datatype ErrorBody =
    | Message(error: string)
    | RoleDenied(error: string, requiredRole: seq<string>, userRole: string)

  /** What a middleware does with a request: hand it on (`next()`), answer it
      with an error status, or throw (the framework's error handler answers). */
  datatype Reply = Next | Reject(status: int, body: ErrorBody) | Fault

  const BearerPrefix: string := "Bearer "
  const InternalError: Reply := Reject(500, Message("Internal server error"))

  /** A JavaScript string or absent value is truthy when present and non-empty. */
  predicate Truthy(v: Option<string>) {
    v.Some? && v.value != ""
  }

  // ---------------------------------------------------------------------------
  // authMiddleware
  // ---------------------------------------------------------------------------

  /** The token of an `Authorization` header: the header without its first
      seven characters, when it starts with "Bearer ". */
  function BearerToken(header: Option<string>): (token: Option<string>)
    ensures token.Some? <==> header.Some? && StartsWith(header.value, BearerPrefix)
    ensures token.Some? ==> BearerPrefix + token.value == header.value
  {
    if Truthy(header) && StartsWith(header.value, BearerPrefix) then Some(header.value[7..]) else None
  }

  datatype AuthResult = Authenticated(user: SessionUser) | Rejected(reply: Reply)

  /** The decision `authMiddleware` reaches, step by step: a missing or
      non-bearer header, an unverifiable token and an unknown user are each
      answered with 401; a storage failure while loading the user with 500. */
  function Authenticate(header: Option<string>, verify: string -> Option<int>,
                        rows: seq<User>, storeFails: bool): (r: AuthResult)
    ensures BearerToken(header).None? ==> r == Rejected(Reject(401, Message("No token provided")))
    ensures r.Authenticated? <==>
      && BearerToken(header).Some?
      && verify(BearerToken(header).value).Some?
      && !storeFails
      && FindById(rows, verify(BearerToken(header).value).value).Some?
    ensures r.Authenticated? ==>
      exists u :: u in rows && u.id == verify(BearerToken(header).value).value && r.user == ToSession(u)
    ensures BearerToken(header).Some? && verify(BearerToken(header).value).None? ==>
      r == Rejected(Reject(401, Message("Invalid or expired token")))
    ensures BearerToken(header).Some? && verify(BearerToken(header).value).Some? && storeFails ==>
      r == Rejected(InternalError)
    ensures BearerToken(header).Some? && verify(BearerToken(header).value).Some? && !storeFails
            && FindById(rows, verify(BearerToken(header).value).value).None? ==>
      r == Rejected(Reject(401, Message("User not found")))
    ensures r.Rejected? ==> r.reply.Reject? && r.reply.status in {401, 500}
  {
    match BearerToken(header)
    case None => Rejected(Reject(401, Message("No token provided")))
    case Some(token) =>
      match verify(token)
      case None => Rejected(Reject(401, Message("Invalid or expired token")))
      case Some(userId) =>
        if storeFails then Rejected(InternalError)
        else match FindById(rows, userId)
          case None => Rejected(Reject(401, Message("User not found")))
          case Some(u) => Authenticated(ToSession(u))
  }

  /** The parts of an incoming request the gates look at; `user` is filled in
      by the authentication step. */
  class Request {
    const authorization: Option<string>
    const ip: Option<string>
    const remoteAddress: Option<string>
    var user: Option<SessionUser>

    constructor (authorization: Option<string>, ip: Option<string>, remoteAddress: Option<string>)
      ensures this.authorization == authorization && this.ip == ip && this.remoteAddress == remoteAddress
      ensures user == None
    {
      this.authorization := authorization;
      this.ip := ip;
      this.remoteAddress := remoteAddress;
      user := None;
    }
  }

  /** `authMiddleware`: the early-return steps, ending by assigning `req.user`
      and passing the request on. A rejected request keeps its previous user. */
  method RunAuthMiddleware(req: Request, verify: string -> Option<int>, rows: seq<User>, storeFails: bool)
    returns (reply: Reply)
    modifies req
    ensures reply == match Authenticate(req.authorization, verify, rows, storeFails)
                     case Authenticated(_) => Next
                     case Rejected(rejection) => rejection
    ensures req.user == match Authenticate(req.authorization, verify, rows, storeFails)
                        case Authenticated(u) => Some(u)
                        case Rejected(_) => old(req.user)
  {
    var header := req.authorization;
    if header.None? || header.value == "" || !StartsWith(header.value, BearerPrefix) {
      return Reject(401, Message("No token provided"));
    }
    var token := header.value[7..];
    var decoded := verify(token);
    if decoded.None? {
      return Reject(401, Message("Invalid or expired token"));
    }
    if storeFails {
      return InternalError;
    }
    var user := FindById(rows, decoded.value);
    if user.None? {
      return Reject(401, Message("User not found"));
    }
    req.user := Some(ToSession(user.value));
    reply := Next;
  }

  // ---------------------------------------------------------------------------
  // checkRole
  // ---------------------------------------------------------------------------

  /** `checkRole(roles)`: 401 without an authenticated user, 403 when the
      user's role is not listed, and the request passes otherwise. */
  function CheckRole(roles: seq<string>, user: Option<SessionUser>): (r: Reply)
    ensures r == Next <==> user.Some? && user.value.role in roles
    ensures user.None? ==> r == Reject(401, Message("Unauthorized"))
    ensures user.Some? && user.value.role !in roles ==>
      r == Reject(403, RoleDenied("Access denied: Insufficient permissions", roles, user.value.role))
  {
    if user.None? then Reject(401, Message("Unauthorized"))
    else if user.value.role !in roles then
      Reject(403, RoleDenied("Access denied: Insufficient permissions", roles, user.value.role))
    else Next
  }

  // ---------------------------------------------------------------------------
  // checkIP and the allow-list rule (shared with the login route)
  // ---------------------------------------------------------------------------

  function TrimAll(parts: seq<string>): (r: seq<string>)
    ensures |r| == |parts|
    ensures forall k :: 0 <= k < |r| ==> r[k] == Trim(parts[k])
    decreases |parts|
  {
    if |parts| == 0 then [] else [Trim(parts[0])] + TrimAll(parts[1..])
  }

  /** `allowedIPs.split(',').map(ip => ip.trim())`: one trimmed entry per
      comma-separated piece, in the order written; no entry keeps white space
      at either end. */
  function AllowList(allowedIPs: string): (entries: seq<string>)
    ensures |entries| == |Split(allowedIPs, ',')|
    ensures forall k :: 0 <= k < |entries| ==>
      entries[k] == Trim(Split(allowedIPs, ',')[k]) && Trimmed(entries[k])
  {
    TrimAll(Split(allowedIPs, ','))
  }

  /** `allowed.some(ip => clientIP.includes(ip))`: an address is refused
      only when no entry is empty. */
  predicate IpAllowed(allowedIPs: string, clientIP: string): (r: bool)
    ensures !r ==> forall k :: 0 <= k < |AllowList(allowedIPs)| ==> AllowList(allowedIPs)[k] != ""
  {
    var entries := AllowList(allowedIPs);
    exists k :: 0 <= k < |entries| && Includes(clientIP, entries[k])
  }

  /** `req.ip || req.connection.remoteAddress`: the request's own address
      when it is non-empty, otherwise the connection's, which may be absent. */
  function ClientIp(ip: Option<string>, remoteAddress: Option<string>): (r: Option<string>)
    ensures Truthy(ip) ==> r == ip
    ensures !Truthy(ip) ==> r == remoteAddress
    ensures r.None? <==> !Truthy(ip) && remoteAddress.None?
  {
    if Truthy(ip) then ip else remoteAddress
  }

  /** `checkIP`: passes when there is no user or the user has no allow-list;
      otherwise the client address must contain some allow-list entry, or the
      request is answered with 403. Without any client address, `includes` is
      called on `undefined` and throws. */
  function CheckIP(user: Option<SessionUser>, clientIP: Option<string>): (r: Reply)
    ensures user.None? || !Truthy(user.value.allowedIPs) ==> r == Next
    ensures r == Next <==>
      user.None? || !Truthy(user.value.allowedIPs)
      || (clientIP.Some? && IpAllowed(user.value.allowedIPs.value, clientIP.value))
    ensures r.Reject? ==> clientIP.Some? && r == Reject(403, Message("Access denied from IP: " + clientIP.value))
  {
    if user.None? || !Truthy(user.value.allowedIPs) then Next
    else if clientIP.None? then Fault
    else if IpAllowed(user.value.allowedIPs.value, clientIP.value) then Next
    else Reject(403, Message("Access denied from IP: " + clientIP.value))
  }

  /** `checkIP` on a request: the address it checks is `req.ip`, falling back
      to the connection's remote address. The request is not changed. */
  method RunCheckIP(req: Request) returns (reply: Reply)
    ensures reply == CheckIP(req.user, ClientIp(req.ip, req.remoteAddress))
    ensures reply.Reject? ==> reply.status == 403
  {
    var user := req.user;
    if user.None? || !Truthy(user.value.allowedIPs) {
      return Next;
    }
    var clientIP := if Truthy(req.ip) then req.ip else req.remoteAddress;
    if clientIP.None? {
      return Fault;
    }
    if !IpAllowed(user.value.allowedIPs.value, clientIP.value) {
      return Reject(403, Message("Access denied from IP: " + clientIP.value));
    }
    reply := Next;
  }

  /** Matching is by substring: an entry admits every address that contains
      it, so "10.0.0.1" also admits "10.0.0.12". */
  lemma EntryAdmitsContainingAddress(entry: string, clientIP: string)
    requires Trimmed(entry) && ',' !in entry
    requires Includes(clientIP, entry)
    ensures IpAllowed(entry, clientIP)
  {
    SplitWithoutSeparator(entry, ',');
    TrimPadded("", entry, "");
    assert "" + entry + "" == entry;
    var entries := AllowList(entry);
    assert entries[0] == Trim(entry) == entry;
    assert 0 < |entries| && Includes(clientIP, entries[0]);
  }

  lemma PrefixEntryAdmitsLongerAddress()
    ensures IpAllowed("10.0.0.1", "10.0.0.12")
  {
    assert "10.0.0.1" <= "10.0.0.12";
    assert ',' !in "10.0.0.1";
    EntryAdmitsContainingAddress("10.0.0.1", "10.0.0.12");
  }

  /** An empty entry is contained in every address. */
  lemma EmptyEntryAdmitsAll(allowedIPs: string, clientIP: string, k: nat)
    requires k < |AllowList(allowedIPs)| && AllowList(allowedIPs)[k] == ""
    ensures IpAllowed(allowedIPs, clientIP)
  {
    assert Includes(clientIP, AllowList(allowedIPs)[k]);
  }

  lemma {:induction false} SplitTrailingSeparator(s: string, sep: char)
    ensures Split(s + [sep], sep) == Split(s, sep) + [""]
    decreases |s|
  {
    if |s| == 0 {
      assert [sep][1..] == "";
    } else {
      assert (s + [sep])[1..] == s[1..] + [sep];
      SplitTrailingSeparator(s[1..], sep);
    }
  }

  /** An empty piece gives an empty entry. */
  lemma EmptyPieceEmptyEntry(allowedIPs: string, k: nat)
    requires k < |Split(allowedIPs, ',')| && Split(allowedIPs, ',')[k] == ""
    ensures k < |AllowList(allowedIPs)| && AllowList(allowedIPs)[k] == ""
  {
    assert Trim("") == "";
  }

  /** A trailing comma leaves an empty last entry, so such a list admits
      every client address. */
  lemma TrailingCommaAdmitsAll(allowedIPs: string, clientIP: string)
    ensures IpAllowed(allowedIPs + ",", clientIP)
  {
    var full := allowedIPs + [','];
    assert allowedIPs + "," == full;
    SplitTrailingSeparator(allowedIPs, ',');
    var k := |Split(allowedIPs, ',')|;
    assert Split(full, ',')[k] == "";
    EmptyPieceEmptyEntry(full, k);
    EmptyEntryAdmitsAll(full, clientIP, k);
  }

  /** Written without padding, the allow-list reads back as exactly the
      entries it was built from, in order. */
  lemma AllowListOfJoin(entries: seq<string>)
    requires |entries| >= 1
    requires forall k :: 0 <= k < |entries| ==> Trimmed(entries[k]) && ',' !in entries[k]
    ensures AllowList(Join(entries, ",")) == entries
  {
    SplitJoin(entries, ',');
    forall k | 0 <= k < |entries| ensures Trim(entries[k]) == entries[k] {
      TrimPadded("", entries[k], "");
      assert "" + entries[k] + "" == entries[k];
    }
  }
}
