/**
  Sessions and the authentication cookie. A session is established by
  forwarding the tenant's authentication cookie to the tenant backend's
  "current user" endpoint; every failure gives the empty session. Cookies are
  read from the raw `Cookie` header and written as one `Set-Cookie` header.

  As for the proxy, the backend's answer is a parameter (`reply`) and `now`,
  the clock reading taken after the answer, is another.
 */
module Auth {
  import opened Options
  import opened Text
  import opened Decimal
  import opened Http
  import opened Environment
  import opened DomainResolver
  import opened DomainConfig

  datatype User = User(id: int, name: string, email: string, roles: seq<string>, avatar: string, meta: Json)

  datatype Session = Session(user: Option<User>, isLoggedIn: bool, expiresAt: int, domain: string)

  /** The request headers the session verifier reads. */
  datatype AuthRequest = AuthRequest(host: Option<string>, cookie: Option<string>)

  /** A session that is not logged in has no user and expiry 0; one that is has a user. */
  predicate WellFormed(s: Session)
  {
    && (!s.isLoggedIn ==> s.user.None? && s.expiresAt == 0)
    && (s.isLoggedIn ==> s.user.Some?)
  }

  // ---------------------------------------------------------------------------
  // Roles

  /** hasRole: false without a user, otherwise whether the role is among the user's roles. */
  function HasRole(user: Option<User>, role: string): (r: bool)
    ensures user.None? ==> !r
    ensures user.Some? ==> (r <==> exists i :: 0 <= i < |user.value.roles| && user.value.roles[i] == role)
  {
    user.Some? && role in user.value.roles
  }

  const AdministratorRole: string := "administrator"

  /** isAdmin: the administrator role check. */
  function IsAdmin(user: Option<User>): (r: bool)
    ensures r == HasRole(user, AdministratorRole)
    ensures r ==> user.Some? && AdministratorRole in user.value.roles
  {
    HasRole(user, AdministratorRole)
  }

  // ---------------------------------------------------------------------------
  // Sessions

  /** createEmptySession: logged out, for the given domain. */
  function CreateEmptySession(domain: string): (s: Session)
    ensures WellFormed(s) && !s.isLoggedIn && s.domain == domain
  {
    Session(None, false, 0, domain)
  }

  /** getHostFromRequest: the `host` header, port dropped. */
  function GetHostFromRequest(req: AuthRequest): (domain: string)
    ensures domain == ResolveDomain(req.host)
    ensures req.host.None? ==> domain == ""
  {
    StripPort(HostOf(req.host))
  }

  // ---------------------------------------------------------------------------
  // Reading the Cookie header

  /**
    One `;`-separated piece of the header, trimmed: its name is the text before
    the first `=`, its value the text between the first and the second `=`,
    undefined (None) when there is no `=`. PieceIsSplit shows that these are
    the first two parts of splitting the trimmed piece on `=`.
   */
  function CookiePiece(raw: string): (string, Option<string>)
  {
    var t := Trim(raw);
    var i := FirstIndex(t, '=');
    (t[..i], if i == |t| then None else Some(t[i + 1..][..FirstIndex(t[i + 1..], '=')]))
  }

  /** The pieces of the header, each as its name and value. */
  function Pieces(raw: seq<string>): (pairs: seq<(string, Option<string>)>)
    ensures |pairs| == |raw|
  {
    if raw == [] then [] else Pieces(raw[..|raw| - 1]) + [CookiePiece(raw[|raw| - 1])]
  }

  /** Storing the pairs in order, so that a later pair overwrites an earlier one of the same name. */
  function Store(pairs: seq<(string, Option<string>)>): map<string, Option<string>>
  {
    if pairs == [] then map[]
    else
      var last := pairs[|pairs| - 1];
      Store(pairs[..|pairs| - 1])[last.0 := last.1]
  }

  /** What parseCookies returns: nothing for an absent or empty header. */
  function CookieJar(header: Option<string>): map<string, Option<string>>
  {
    if header.None? || header.value == "" then map[] else Store(Pieces(Split(header.value, ';')))
  }

  lemma StoreStep(raw: seq<string>, i: int)
    requires 0 <= i < |raw|
    ensures Store(Pieces(raw[..i + 1])) == Store(Pieces(raw[..i]))[CookiePiece(raw[i]).0 := CookiePiece(raw[i]).1]
  {
    assert raw[..i + 1][..i] == raw[..i];
  }

  /** parseCookies, filling the dictionary piece by piece. */
  method ParseCookies(header: Option<string>) returns (cookies: map<string, Option<string>>)
    ensures cookies == CookieJar(header)
  {
    cookies := map[];
    if header.None? || header.value == "" {
      return;
    }
    var pieces := Split(header.value, ';');
    var i := 0;
    while i < |pieces|
      invariant 0 <= i <= |pieces|
      invariant cookies == Store(Pieces(pieces[..i]))
    {
      var piece := CookiePiece(pieces[i]);
      StoreStep(pieces, i);
      cookies := cookies[piece.0 := piece.1];
      i := i + 1;
    }
    assert pieces[..i] == pieces;
  }

  /** The value of the named cookie, when it is present, defined and non-empty. */
  function CookieValue(header: Option<string>, name: string): (v: Option<string>)
    ensures v.Some? <==> name in CookieJar(header) && CookieJar(header)[name].Some? && CookieJar(header)[name].value != ""
    ensures v.Some? ==> v == CookieJar(header)[name]
  {
    var jar := CookieJar(header);
    if name in jar && jar[name].Some? && jar[name].value != "" then jar[name] else None
  }

  /** getAuthCookie: `cookies[cookieName] || null`. */
  function GetAuthCookie(req: AuthRequest, env: Settings): (v: Option<string>)
    ensures var jar, name := CookieJar(req.cookie), CookieName(env);
      v.Some? <==> name in jar && jar[name].Some? && jar[name].value != ""
    ensures var jar, name := CookieJar(req.cookie), CookieName(env);
      v.Some? ==> v == jar[name]
    ensures req.cookie.None? ==> v.None?
  {
    CookieValue(req.cookie, CookieName(env))
  }

  /** A piece is read as the first two parts of the trimmed piece split on `=`, the value undefined when there is one part. */
  lemma PieceIsSplit(raw: string)
    ensures var parts := Split(Trim(raw), '=');
      CookiePiece(raw) == (parts[0], if |parts| >= 2 then Some(parts[1]) else None)
  {
    var t := Trim(raw);
    SplitHead(t, '=');
    var i := FirstIndex(t, '=');
    if i < |t| {
      SplitTail(t, '=');
      SplitHead(t[i + 1..], '=');
    } else {
      assert '=' !in t;
      SplitNoSeparator(t, '=');
    }
  }

  /** The names stored are exactly the names of the pairs. */
  lemma {:induction false} StoreNames(pairs: seq<(string, Option<string>)>, name: string)
    ensures name in Store(pairs) <==> exists k :: 0 <= k < |pairs| && pairs[k].0 == name
  {
    if pairs != [] {
      var n := |pairs| - 1;
      StoreNames(pairs[..n], name);
      if pairs[n].0 != name {
        forall k | 0 <= k < |pairs| && pairs[k].0 == name
          ensures exists k' :: 0 <= k' < n && pairs[..n][k'].0 == name
        {
          assert pairs[..n][k] == pairs[k];
        }
      }
    }
  }

  /** A name holds the value of the last pair that carries it. */
  lemma {:induction false} StoreLastWins(pairs: seq<(string, Option<string>)>, k: int)
    requires 0 <= k < |pairs|
    requires forall j :: k < j < |pairs| ==> pairs[j].0 != pairs[k].0
    ensures pairs[k].0 in Store(pairs)
    ensures Store(pairs)[pairs[k].0] == pairs[k].1
  {
    var n := |pairs| - 1;
    if k < n {
      assert pairs[..n][k] == pairs[k];
      StoreLastWinsStep(pairs, k, n);
      StoreLastWins(pairs[..n], k);
    }
  }

  lemma StoreLastWinsStep(pairs: seq<(string, Option<string>)>, k: int, n: int)
    requires 0 <= k < n == |pairs| - 1
    requires forall j :: k < j < |pairs| ==> pairs[j].0 != pairs[k].0
    ensures forall j :: k < j < n ==> pairs[..n][j].0 != pairs[..n][k].0
  {
  }

  /** A cookie name the header can carry back intact. */
  predicate IsPlainName(name: string)
  {
    name != [] && ';' !in name && '=' !in name && !IsSpace(name[0])
  }

  /** A cookie value the header can carry back intact. */
  predicate IsPlainValue(value: string)
  {
    value != [] && ';' !in value && '=' !in value && !IsSpace(value[|value| - 1])
  }

  /**
    A piece that trims to `name=rest` has that name, and its value is the part
    of `rest` before the first `=`.
   */
  lemma PieceOfTrimmed(raw: string, name: string, rest: string, value: string)
    requires Trim(raw) == name + "=" + rest && '=' !in name
    requires '=' !in value && |value| <= |rest| && rest[..|value|] == value
    requires |value| < |rest| ==> rest[|value|] == '='
    ensures CookiePiece(raw) == (name, Some(value))
  {
    NameBeforeEquals(name, rest);
    ValueBeforeEquals(rest, value);
  }

  lemma NameBeforeEquals(name: string, rest: string)
    requires '=' !in name
    ensures var t := name + "=" + rest;
      FirstIndex(t, '=') == |name| && t[..|name|] == name && t[|name| + 1..] == rest
  {
    var t := name + "=" + rest;
    FirstIndexIs(t, '=', |name|);
    assert t[..|name|] == name;
    assert t[|name| + 1..] == rest;
  }

  lemma ValueBeforeEquals(rest: string, value: string)
    requires '=' !in value && |value| <= |rest| && rest[..|value|] == value
    requires |value| < |rest| ==> rest[|value|] == '='
    ensures FirstIndex(rest, '=') == |value|
  {
    forall k | 0 <= k < |value| ensures rest[k] != '=' {
      assert rest[k] == value[k];
    }
    FirstIndexIs(rest, '=', |value|);
  }

  /** A piece that trims to `name=value`, neither holding `=`, is read as that pair. */
  lemma PieceOfPair(raw: string, name: string, value: string)
    requires Trim(raw) == name + "=" + value && '=' !in name && '=' !in value
    ensures CookiePiece(raw) == (name, Some(value))
  {
    assert value[..|value|] == value;
    PieceOfTrimmed(raw, name, value, value);
  }

  lemma PlainIsTrimmed(name: string, value: string)
    requires IsPlainName(name) && IsPlainValue(value)
    ensures IsTrimmed(name + "=" + value)
  {
    var t := name + "=" + value;
    assert t[0] == name[0];
    assert t[|t| - 1] == value[|value| - 1];
  }

  /** `name=value` is read as that name and that value. */
  lemma PlainPiece(name: string, value: string)
    requires IsPlainName(name) && IsPlainValue(value)
    ensures CookiePiece(name + "=" + value) == (name, Some(value))
  {
    PlainIsTrimmed(name, value);
    TrimTrimmed(name + "=" + value);
    PieceOfPair(name + "=" + value, name, value);
  }

  /** The space after a `;` does not change a piece. */
  lemma SpacedPlainPiece(name: string, value: string)
    requires IsPlainName(name) && IsPlainValue(value)
    ensures CookiePiece(" " + (name + "=" + value)) == (name, Some(value))
  {
    PlainIsTrimmed(name, value);
    TrimLeading(" ", name + "=" + value);
    PieceOfPair(" " + (name + "=" + value), name, value);
  }

  /** The last piece of a non-empty header decides the value read for its name. */
  lemma LastPieceIsRead(header: string, raw: seq<string>, name: string, v: Option<string>)
    requires header != "" && Split(header, ';') == raw && |raw| >= 1
    requires CookiePiece(raw[|raw| - 1]) == (name, v)
    ensures name in CookieJar(Some(header)) && CookieJar(Some(header))[name] == v
  {
    StoreOfLastPiece(raw, name, v);
  }

  lemma LastPiece(raw: seq<string>)
    requires |raw| >= 1
    ensures Pieces(raw)[|raw| - 1] == CookiePiece(raw[|raw| - 1])
  {
  }

  lemma StoreOfLastPiece(raw: seq<string>, name: string, v: Option<string>)
    requires |raw| >= 1 && CookiePiece(raw[|raw| - 1]) == (name, v)
    ensures name in Store(Pieces(raw)) && Store(Pieces(raw))[name] == v
  {
    LastPiece(raw);
    StoreLastWins(Pieces(raw), |raw| - 1);
  }

  /** A header without `;` is one piece. */
  lemma OnlyPieceIsRead(h: string, name: string, v: Option<string>)
    requires h != "" && ';' !in h && CookiePiece(h) == (name, v)
    ensures name in CookieJar(Some(h)) && CookieJar(Some(h))[name] == v
  {
    SplitNoSeparator(h, ';');
    LastPieceIsRead(h, [h], name, v);
  }

  /** A header holding one plain cookie reads it back. */
  lemma SingleCookieIsRead(name: string, value: string)
    requires IsPlainName(name) && IsPlainValue(value)
    ensures CookieValue(Some(name + "=" + value), name) == Some(value)
  {
    PlainPiece(name, value);
    var h := name + "=" + value;
    assert ';' !in h;
    OnlyPieceIsRead(h, name, Some(value));
  }

  lemma AppendedHeader(before: string, name: string, value: string)
    ensures before + "; " + name + "=" + value == before + [';'] + (" " + (name + "=" + value))
  {
  }

  lemma AppendedSplit(before: string, piece: string)
    requires ';' !in piece
    ensures Split(before + [';'] + piece, ';') == Split(before, ';') + [piece]
  {
    SplitAppend(before, piece, ';');
    SplitNoSeparator(piece, ';');
  }

  /** A piece appended after a `;` is the last piece of the header. */
  lemma AppendedPieceIsRead(before: string, piece: string, name: string, v: Option<string>)
    requires ';' !in piece && CookiePiece(piece) == (name, v)
    ensures name in CookieJar(Some(before + [';'] + piece)) && CookieJar(Some(before + [';'] + piece))[name] == v
  {
    var raw := Split(before, ';') + [piece];
    AppendedSplit(before, piece);
    assert raw[|raw| - 1] == piece;
    LastPieceIsRead(before + [';'] + piece, raw, name, v);
  }

  lemma SpacedPlainLacksSemicolon(name: string, value: string)
    requires IsPlainName(name) && IsPlainValue(value)
    ensures ';' !in " " + (name + "=" + value)
  {
  }

  /** Whatever precedes it, a cookie appended last to the header is the one read. */
  lemma LastCookieIsRead(before: string, name: string, value: string)
    requires IsPlainName(name) && IsPlainValue(value)
    ensures CookieValue(Some(before + "; " + name + "=" + value), name) == Some(value)
  {
    var piece := " " + (name + "=" + value);
    SpacedPlainPiece(name, value);
    SpacedPlainLacksSemicolon(name, value);
    AppendedPieceIsRead(before, piece, name, Some(value));
    AppendedHeader(before, name, value);
  }

  lemma PaddedPiece(name: string, t: string)
    requires IsPlainName(name) && IsPlainValue(t)
    ensures CookiePiece(name + "=" + t + "==") == (name, Some(t))
  {
    var h := name + "=" + t + "==";
    var rest := t + "==";
    assert h == name + "=" + rest;
    TrimTrimmed(h);
    assert rest[..|t|] == t && rest[|t|] == '=';
    PieceOfTrimmed(h, name, rest, t);
  }

  /** A value holding `=` is cut at it: a base64 token `t==` reads back as `t`. */
  lemma PaddedValueIsCut(name: string, t: string)
    requires IsPlainName(name) && IsPlainValue(t)
    ensures CookieValue(Some(name + "=" + t + "=="), name) == Some(t)
  {
    var h := name + "=" + t + "==";
    assert ';' !in h;
    PaddedPiece(name, t);
    OnlyPieceIsRead(h, name, Some(t));
  }

  // ---------------------------------------------------------------------------
  // getSession

  /** The backend's user, as decoded; an absent optional field is None. */
  datatype UserPayload = UserPayload(
    id: int, name: string, email: string, roles: Option<seq<string>>, avatar96: Option<string>, meta: Option<Json>)

  /**
    The backend's answer to the identity call: a status and a payload that is
    None when the body is not JSON or is null (reading a field of it throws),
    or a failed call.
   */
  datatype IdentityReply = Reply(status: int, payload: Option<UserPayload>) | NetworkError

  /** The identity call: its URL and its `Cookie` header. */
  datatype IdentityRequest = IdentityRequest(url: string, cookie: string)

  /** Why the session is what it is; the source collapses the first three into the empty session. */
  datatype SessionKind = NoCookie | Rejected | Failed | Authenticated

  datatype SessionOutcome = SessionOutcome(session: Session, sent: Option<IdentityRequest>, kind: SessionKind)

  /** 24 hours, in milliseconds. */
  const SessionLifetimeMs: int := 24 * 60 * 60 * 1000

  const IdentityPath: string := "/wp-json/wp/v2/users/me"

  /** The identity endpoint: the GraphQL endpoint with its first `/graphql` removed, then the users/me path. */
  function IdentityUrl(endpoint: string): (url: string)
    ensures IndexOf(endpoint, "/graphql").None? ==> url == endpoint + IdentityPath
    ensures IndexOf(endpoint, "/graphql").Some? ==>
      var i := IndexOf(endpoint, "/graphql").value;
      url == endpoint[..i] + endpoint[i + 8..] + IdentityPath
  {
    ReplaceFirst(endpoint, "/graphql", "") + IdentityPath
  }

  /** A tenant endpoint `https://<d>/graphql` whose host holds no `/graphql` becomes `https://<d>/wp-json/wp/v2/users/me`. */
  lemma IdentityUrlOfTenant(d: string)
    requires forall k :: 0 <= k < |d| + 8 ==> !OccursAt("https://" + d + "/graphql", "/graphql", k)
    ensures IdentityUrl("https://" + d + "/graphql") == "https://" + d + IdentityPath
  {
    var e := "https://" + d + "/graphql";
    var i := |d| + 8;
    assert e[i..i + 8] == "/graphql";
    IndexOfIs(e, "/graphql", i);
    assert e[..i] == "https://" + d;
    assert e[i + 8..] == [];
  }

  /**
    The first occurrence may lie in the host: for a host that starts with
    `graphql`, the `/graphql` removed is the one after `https:/`.
   */
  lemma IdentityUrlCutsHost(rest: string)
    ensures IdentityUrl("https://graphql" + rest) == "https:/" + rest + IdentityPath
  {
    var lit := "https://graphql";
    var e := lit + rest;
    assert e[7..15] == lit[7..15] == "/graphql";
    forall k | 0 <= k < 7 ensures !OccursAt(e, "/graphql", k) {
      assert e[k..k + 8][1] == lit[k + 1] != 'g';
    }
    IndexOfIs(e, "/graphql", 7);
    assert e[..7] == "https:/";
    assert e[15..] == rest;
  }

  /** The user built from the backend's answer: roles default to none, avatar to "", meta to `{}`. */
  function UserFrom(p: UserPayload): (u: User)
    ensures u.id == p.id && u.name == p.name && u.email == p.email
    ensures u.roles == (if p.roles.Some? then p.roles.value else [])
    ensures u.avatar == (if p.avatar96.Some? then p.avatar96.value else "")
    ensures u.meta == (if p.meta.Some? then p.meta.value else EmptyObject)
  {
    User(p.id, p.name, p.email,
         if p.roles.Some? then p.roles.value else [],
         if p.avatar96.Some? && p.avatar96.value != "" then p.avatar96.value else "",
         if p.meta.Some? then p.meta.value else EmptyObject)
  }

  /** getSession. */
  function GetSession(req: AuthRequest, env: Settings, now: int, reply: IdentityReply): (out: SessionOutcome)
    ensures WellFormed(out.session)
    ensures out.session.domain == GetHostFromRequest(req)
    ensures out.sent.None? <==> GetAuthCookie(req, env).None?
    ensures out.sent.Some? ==> out.sent.value == IdentityRequest(
      IdentityUrl(GetApiEndpoint(GetHostFromRequest(req), env.wordpressApiUrl)),
      CookieName(env) + "=" + GetAuthCookie(req, env).value)
    ensures out.session.isLoggedIn <==> out.sent.Some? && reply.Reply? && IsOk(reply.status) && reply.payload.Some?
    ensures out.session.isLoggedIn ==>
      out.session.expiresAt == now + SessionLifetimeMs && out.session.user == Some(UserFrom(reply.payload.value))
    ensures !out.session.isLoggedIn ==> out.session == CreateEmptySession(GetHostFromRequest(req))
    ensures out.kind == NoCookie <==> out.sent.None?
    ensures out.kind == Authenticated <==> out.session.isLoggedIn
  {
    var domain := GetHostFromRequest(req);
    var endpoint := GetApiEndpoint(domain, env.wordpressApiUrl);
    match GetAuthCookie(req, env)
    case None => SessionOutcome(CreateEmptySession(domain), None, NoCookie)
    case Some(cookie) =>
      var call := IdentityRequest(IdentityUrl(endpoint), CookieName(env) + "=" + cookie);
      match reply
      case NetworkError => SessionOutcome(CreateEmptySession(domain), Some(call), Failed)
      case Reply(status, payload) =>
        if !IsOk(status) then SessionOutcome(CreateEmptySession(domain), Some(call), Rejected)
        else if payload.None? then SessionOutcome(CreateEmptySession(domain), Some(call), Failed)
        else
          var user := UserFrom(payload.value);
          SessionOutcome(Session(Some(user), true, now + SessionLifetimeMs, domain), Some(call), Authenticated)
  }

  /** A logged-in session expires a day after the clock reading. */
  lemma LoggedInExpiresLater(req: AuthRequest, env: Settings, now: int, reply: IdentityReply)
    requires GetSession(req, env, now, reply).session.isLoggedIn
    ensures GetSession(req, env, now, reply).session.expiresAt == now + 86_400_000 > now
  {
  }

  /** Without a cookie the answer is never consulted: every reply gives the same empty session. */
  lemma NoCookieNoCall(req: AuthRequest, env: Settings, now1: int, now2: int, r1: IdentityReply, r2: IdentityReply)
    requires GetAuthCookie(req, env).None?
    ensures GetSession(req, env, now1, r1) == GetSession(req, env, now2, r2)
    ensures GetSession(req, env, now1, r1).session == CreateEmptySession(GetHostFromRequest(req))
  {
  }

  // ---------------------------------------------------------------------------
  // Writing the cookie

  /** 24 hours, in seconds. */
  const CookieMaxAge: nat := 24 * 60 * 60

  /** The `Set-Cookie` value of setAuthCookie. */
  function SetCookieValue(name: string, token: string, domain: string, secure: bool): string
  {
    name + "=" + token + "; Path=/; HttpOnly; " + (if secure then "Secure; " else "")
      + "SameSite=Lax; Domain=." + domain + "; Max-Age=" + NatToDecimal(CookieMaxAge)
  }

  /** The `Set-Cookie` value of clearAuthCookie. */
  function ClearCookieValue(name: string, domain: string): string
  {
    name + "=" + "; Path=/; HttpOnly; " + "Expires=Thu, 01 Jan 1970 00:00:00 GMT" + "; Domain=." + domain
  }

  /** The attributes of setAuthCookie, one per `;`-separated piece; Secure only in production. */
  function SetCookieAttributes(name: string, token: string, domain: string, secure: bool): seq<string>
  {
    [name + "=" + token, " Path=/", " HttpOnly"] + (if secure then [" Secure"] else [])
      + [" SameSite=Lax", " Domain=." + domain, " Max-Age=86400"]
  }

  lemma MaxAgeText()
    ensures NatToDecimal(CookieMaxAge) == "86400"
  {
    assert NatToDecimal(8) == "8";
    assert NatToDecimal(86) == "86";
    assert NatToDecimal(864) == "864";
    assert NatToDecimal(8640) == "8640";
  }

  lemma Join3(a: string, b: string, c: string)
    ensures Join([a, b, c], ';') == a + [';'] + (b + [';'] + c)
  {
    var l := [a, b, c];
    assert l[1..][1..] == [c];
    assert Join(l[1..], ';') == b + [';'] + c;
  }

  /** The same text, with the literals grouped as the join produces them. */
  lemma AttributesTailText(domain: string)
    ensures " SameSite=Lax" + [';'] + (" Domain=." + domain + [';'] + " Max-Age=86400")
      == " " + ("SameSite=Lax; Domain=." + domain + "; Max-Age=" + "86400")
  {
  }

  lemma AttributesTailJoin(domain: string)
    ensures Join([" SameSite=Lax", " Domain=." + domain, " Max-Age=86400"], ';')
      == " " + ("SameSite=Lax; Domain=." + domain + "; Max-Age=" + "86400")
  {
    Join3(" SameSite=Lax", " Domain=." + domain, " Max-Age=86400");
    AttributesTailText(domain);
  }

  lemma AttributesHeadJoin(p: string, rest: seq<string>, jr: string)
    requires |rest| >= 1 && Join(rest, ';') == jr
    ensures Join([p, " Path=/", " HttpOnly"] + rest, ';') == p + [';'] + (" Path=/" + [';'] + (" HttpOnly" + [';'] + jr))
  {
    var a := [p, " Path=/", " HttpOnly"] + rest;
    assert a[2..][1..] == rest;
    assert Join(a[2..], ';') == " HttpOnly" + [';'] + jr;
    assert a[1..][1..] == a[2..];
    assert Join(a[1..], ';') == " Path=/" + [';'] + (" HttpOnly" + [';'] + jr);
    assert a[0] == p;
  }

  lemma AttributesHeadText(p: string, sec: string, d: string)
    ensures p + [';'] + (" Path=/" + [';'] + (" HttpOnly" + [';'] + (" " + sec + d)))
      == p + "; Path=/; HttpOnly; " + sec + d
  {
    assert " HttpOnly" + [';'] + (" " + sec + d) == " HttpOnly; " + sec + d;
  }

  /** The same text, with the literals grouped as the join produces them. */
  lemma ValueText(p: string, sec: string, domain: string)
    ensures p + "; Path=/; HttpOnly; " + sec + "SameSite=Lax; Domain=." + domain + "; Max-Age=" + "86400"
      == p + "; Path=/; HttpOnly; " + sec + ("SameSite=Lax; Domain=." + domain + "; Max-Age=" + "86400")
  {
  }

  lemma SecureJoin(tail: seq<string>, d: string)
    requires |tail| >= 1 && Join(tail, ';') == " " + d
    ensures Join([" Secure"] + tail, ';') == " " + "Secure; " + d
  {
    JoinCons(" Secure", tail);
    SecureText(d);
  }

  lemma JoinCons(first: string, tail: seq<string>)
    requires |tail| >= 1
    ensures Join([first] + tail, ';') == first + [';'] + Join(tail, ';')
  {
    assert ([first] + tail)[1..] == tail;
  }

  /** The same text, with the literals grouped as the join produces them. */
  lemma SecureText(d: string)
    ensures " Secure" + [';'] + (" " + d) == " " + "Secure; " + d
  {
  }

  /** Joined by `;`, the attributes give back the cookie string. */
  lemma AttributesJoin(name: string, token: string, domain: string, secure: bool)
    ensures Join(SetCookieAttributes(name, token, domain, secure), ';') == SetCookieValue(name, token, domain, secure)
  {
    MaxAgeText();
    var d := "SameSite=Lax; Domain=." + domain + "; Max-Age=" + "86400";
    var tail := [" SameSite=Lax", " Domain=." + domain, " Max-Age=86400"];
    AttributesTailJoin(domain);
    var sec := if secure then "Secure; " else "";
    var rest := if secure then [" Secure"] + tail else tail;
    if secure {
      SecureJoin(tail, d);
    } else {
      assert " " + sec + d == " " + d;
    }
    var p := name + "=" + token;
    AttributesHeadJoin(p, rest, " " + sec + d);
    AttributesHeadText(p, sec, d);
    ValueText(p, sec, domain);
    assert SetCookieAttributes(name, token, domain, secure) == [p, " Path=/", " HttpOnly"] + rest;
  }

  /** The cookie string is exactly its attributes joined by `;`. */
  lemma SetCookieIsAttributes(name: string, token: string, domain: string, secure: bool)
    requires ';' !in name && ';' !in token && ';' !in domain
    ensures Split(SetCookieValue(name, token, domain, secure), ';') == SetCookieAttributes(name, token, domain, secure)
  {
    var a := SetCookieAttributes(name, token, domain, secure);
    assert forall i :: 0 <= i < |a| ==> ';' !in a[i];
    SplitJoin(a, ';');
    AttributesJoin(name, token, domain, secure);
  }

  /** The cookie set is read back as the token by a later request on the same name. */
  lemma SetCookieCarriesToken(name: string, token: string, domain: string, secure: bool)
    requires IsPlainName(name) && IsPlainValue(token) && ';' !in domain
    ensures CookieValue(Some(Split(SetCookieValue(name, token, domain, secure), ';')[0]), name) == Some(token)
  {
    SetCookieIsAttributes(name, token, domain, secure);
    SingleCookieIsRead(name, token);
  }

  /** The cleared cookie's first piece is its name with an empty value. */
  lemma ClearedCookieFirstPiece(name: string, domain: string)
    requires ';' !in name
    ensures Split(ClearCookieValue(name, domain), ';')[0] == name + "="
  {
    var c := ClearCookieValue(name, domain);
    var i := |name| + 1;
    assert c[i] == ';';
    assert forall k :: 0 <= k < i ==> c[k] == (name + "=")[k];
    assert FirstIndex(c, ';') == i;
    assert c[..i] == name + "=";
    SplitHead(c, ';');
  }

  lemma EmptyPiece(name: string)
    requires IsPlainName(name)
    ensures CookiePiece(name + "=") == (name, Some(""))
  {
    assert name + "=" == name + "=" + [];
    TrimTrimmed(name + "=");
    PieceOfTrimmed(name + "=", name, [], []);
  }

  /** An empty value reads as no cookie at all. */
  lemma EmptyValueReadsAsAbsent(name: string)
    requires IsPlainName(name)
    ensures CookieValue(Some(name + "="), name).None?
  {
    var h := name + "=";
    assert ';' !in h;
    EmptyPiece(name);
    OnlyPieceIsRead(h, name, Some(""));
  }

  /** The outgoing response whose `Set-Cookie` header the cookie writers replace. */
  class ApiResponse {
    var headers: map<string, string>

    constructor ()
      ensures headers == map[]
    {
      headers := map[];
    }

    /** setAuthCookie; header names are stored in lower case, as Node.js does. */
    method SetAuthCookie(token: string, domain: string, env: Settings)
      modifies this
      ensures headers == old(headers)["set-cookie" := SetCookieValue(CookieName(env), token, domain, IsProduction(env))]
    {
      headers := headers["set-cookie" := SetCookieValue(CookieName(env), token, domain, IsProduction(env))];
    }

    /** clearAuthCookie. */
    method ClearAuthCookie(domain: string, env: Settings)
      modifies this
      ensures headers == old(headers)["set-cookie" := ClearCookieValue(CookieName(env), domain)]
    {
      headers := headers["set-cookie" := ClearCookieValue(CookieName(env), domain)];
    }
  }
}
