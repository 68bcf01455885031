/** The authentication middleware of the multi-provider server: it finds an ID token
    (session cookie first, then a `Bearer provider:jwt` header), has the provider
    that issued it verify it, and either passes the request on with the user or
    answers with a login redirect or a 401. Token verification and cookie decoding
    are foreign calls and arrive as parameters. */
module AuthMiddleware {
  import opened Wrappers
  import opened Strings

  datatype TokenError = EmptyToken | BadFormat | EmptyProvider | EmptyJWT

  /** Splits `provider:jwt` at the first ':'; the jwt part may contain more. */
  function ParseProviderToken(token: string): (r: Result<(string, string), TokenError>)
    ensures token == "" ==> r == Err(EmptyToken)
    ensures token != "" && ':' !in token ==> r == Err(BadFormat)
    ensures token != "" && token[0] == ':' ==> r == Err(EmptyProvider)
    ensures r.Ok? ==> r.value.0 != "" && r.value.1 != "" && ':' !in r.value.0
    ensures r.Ok? ==> r.value.0 + ":" + r.value.1 == token
  {
    if token == "" then Err(EmptyToken)
    else
      match IndexOf(token, ':')
      case None => Err(BadFormat)
      case Some(i) =>
        var providerID, jwt := token[..i], token[i + 1..];
        assert token == providerID + ":" + jwt;
        if providerID == "" then Err(EmptyProvider)
        else if jwt == "" then Err(EmptyJWT)
        else Ok((providerID, jwt))
  }

  /** The token `callback` stores in the session cookie parses back into the
      provider ID and raw token it was built from, provided the ID has no ':'. */
  lemma ParseProviderTokenRoundTrip(id: string, raw: string)
    requires id != "" && ':' !in id && raw != ""
    ensures ParseProviderToken(id + ":" + raw) == Ok((id, raw))
  {
    var token := id + ":" + raw;
    BeforeFirstOfJoin(id, ':', raw);
    assert token[..|id|] == id && token[|id| + 1..] == raw;
  }

  /** A token ending in the first ':' has no jwt part. */
  lemma EmptyJWTRejected(id: string)
    requires id != "" && ':' !in id
    ensures ParseProviderToken(id + ":") == Err(EmptyJWT)
  {
    BeforeFirstOfJoin(id, ':', "");
    assert (id + ":")[..|id|] == id;
  }

  /** Only the first ':' separates: "google:a:b" names provider "google" and the
      token "a:b". */
  lemma FirstColonSplits()
    ensures ParseProviderToken("google:a:b") == Ok(("google", "a:b"))
  {
    ParseProviderTokenRoundTrip("google", "a:b");
    assert "google" + ":" + "a:b" == "google:a:b";
  }

  /** `acceptsHTML`: the Accept header is empty or mentions text/html. */
  predicate AcceptsHTML(accept: string) {
    Contains(accept, "text/html") || accept == ""
  }

  lemma AcceptsHTMLMeans(accept: string)
    ensures AcceptsHTML(accept) <==> accept == "" || exists i: nat :: OccursAt(accept, "text/html", i)
  {
    if Contains(accept, "text/html") {
      var i := ContainsWitness(accept, "text/html");
    }
    if i: nat :| OccursAt(accept, "text/html", i) {
      ContainsAt(accept, "text/html", i);
    }
  }

  /** A claim value: a JSON string, or anything else. */
  datatype Claim = StringClaim(s: string) | OtherClaim

  /** `strClaim`: the claim under `k` when it is a string, "" otherwise. */
  function StrClaim(m: map<string, Claim>, k: string): (r: string)
    ensures k in m && m[k].StringClaim? ==> r == m[k].s
    ensures k !in m || m[k].OtherClaim? ==> r == ""
  {
    if k in m && m[k].StringClaim? then m[k].s else ""
  }

  /** A request as the middleware sees it. `Session` is the decoded value of the
      "session" cookie, `None` when there is no such cookie or it does not decode. */
  datatype Request = Request(Method: string, Accept: string, Session: Option<string>, Authorization: string)

  const BearerPrefix := "Bearer "

  /** The (provider ID, raw ID token) the middleware goes on with; ("", "") when no
      usable token was found. A well-formed session cookie wins; a Bearer header
      is used only when the cookie is not, and only for a configured provider. */
  function Credential(req: Request, configured: set<string>): (r: (string, string))
    ensures r.0 == "" <==> r.1 == ""
    ensures req.Session.Some? && ParseProviderToken(req.Session.value).Ok? ==>
              r == ParseProviderToken(req.Session.value).value
    ensures r.1 != "" ==>
              && ':' !in r.0
              && (|| req.Session == Some(r.0 + ":" + r.1)
                  || (r.0 in configured && req.Authorization == BearerPrefix + r.0 + ":" + r.1))
    ensures !(req.Session.Some? && ParseProviderToken(req.Session.value).Ok?) ==>
              r == BearerCredential(req.Authorization, configured)
  {
    if req.Session.Some? && ParseProviderToken(req.Session.value).Ok? then
      var (p, t) := ParseProviderToken(req.Session.value).value;
      assert req.Session == Some(p + ":" + t);
      (p, t)
    else BearerCredential(req.Authorization, configured)
  }

  /** The credential a Bearer header gives on its own: the parsed token when the
      header has the prefix and the token names a configured provider, else
      ("", ""). */
  function BearerCredential(auth: string, configured: set<string>): (r: (string, string))
    ensures r.1 != "" ==> r.0 in configured && auth == BearerPrefix + r.0 + ":" + r.1
    ensures r.0 == "" <==> r.1 == ""
  {
    if HasPrefix(auth, BearerPrefix) then
      var token := auth[|BearerPrefix|..];
      var parsed := ParseProviderToken(token);
      if parsed.Ok? && parsed.value.0 in configured then
        var (p, t) := parsed.value;
        BearerJoin(auth, token, p, t);
        (p, t)
      else ("", "")
    else ("", "")
  }

  /** The header is the Bearer prefix followed by the token it carries. */
  lemma BearerJoin(auth: string, token: string, p: string, t: string)
    requires HasPrefix(auth, BearerPrefix) && token == auth[|BearerPrefix|..]
    requires p + ":" + t == token
    ensures auth == BearerPrefix + p + ":" + t
  {
    assert auth == BearerPrefix + token;
    assert BearerPrefix + p + ":" + t == BearerPrefix + (p + ":" + t);
  }

  /** Without a session cookie, or with one whose value does not parse, a Bearer
      header carrying the string `callback` builds for a configured provider is
      the credential. */
  lemma BearerTokenAccepted(req: Request, configured: set<string>, id: string, raw: string)
    requires (req.Session.None? || ParseProviderToken(req.Session.value).Err?) && id in configured
    requires id != "" && ':' !in id && raw != ""
    requires req.Authorization == BearerPrefix + id + ":" + raw
    ensures Credential(req, configured) == (id, raw)
  {
    var token := req.Authorization[|BearerPrefix|..];
    assert token == id + ":" + raw;
    ParseProviderTokenRoundTrip(id, raw);
  }

  /** A Bearer header naming an unconfigured provider is ignored, whether or not
      a session cookie was sent that does not parse. */
  lemma UnknownProviderIgnored(req: Request, configured: set<string>, id: string, raw: string)
    requires (req.Session.None? || ParseProviderToken(req.Session.value).Err?) && id !in configured
    requires id != "" && ':' !in id && raw != ""
    requires req.Authorization == BearerPrefix + id + ":" + raw
    ensures Credential(req, configured) == ("", "")
  {
    var token := req.Authorization[|BearerPrefix|..];
    assert token == id + ":" + raw;
    ParseProviderTokenRoundTrip(id, raw);
  }

  /** What the ID-token verifier returns on success. */
  datatype IDToken = IDToken(Subject: string, Claims: map<string, Claim>)

  datatype User = User(Subject: string, Email: string, Claims: map<string, Claim>)

  /** The middleware's answer. `Panic` is the nil dereference of an unconfigured
      provider's entry, after which no response is written. */
  datatype Outcome =
    | Proceed(user: User)
    | Redirect(Location: string, ClearSession: bool)
    | Unauthorized(Challenge: string, ClearSession: bool)
    | Panic

  const LoginPath := "/auth/login"
  const RealmChallenge := "Bearer realm=\"habits\""
  const InvalidTokenChallenge := "Bearer error=\"invalid_token\""

  function StatusCode(o: Outcome): (code: int)
    ensures o.Redirect? <==> code == 302
    ensures o.Unauthorized? <==> code == 401
  {
    match o
    case Proceed(_) => 200
    case Redirect(_, _) => 302
    case Unauthorized(_, _) => 401
    case Panic => 0
  }

  /** A browser page load (GET accepting HTML) is redirected to the login page;
      anything else gets a 401 with the given challenge. */
  function Reject(req: Request, challenge: string, clear: bool): (o: Outcome)
    ensures o.Redirect? <==> req.Method == "GET" && AcceptsHTML(req.Accept)
    ensures o.Redirect? ==> o == Redirect(LoginPath, clear)
    ensures !o.Redirect? ==> o == Unauthorized(challenge, clear)
  {
    if req.Method == "GET" && AcceptsHTML(req.Accept) then Redirect(LoginPath, clear)
    else Unauthorized(challenge, clear)
  }

  /** The middleware's decision, with the verifier of each provider given as
      `verify(providerID, rawIDToken)`. */
  method Authenticate(req: Request, configured: set<string>, verify: (string, string) -> Option<IDToken>)
    returns (o: Outcome)
    ensures var (p, t) := Credential(req, configured);
      && (t == "" ==> o == Reject(req, RealmChallenge, false))
      && (t != "" && p !in configured ==> o == Panic)
      && (t != "" && p in configured && verify(p, t).None? ==> o == Reject(req, InvalidTokenChallenge, true))
      && (t != "" && p in configured && verify(p, t).Some? ==>
            o == Proceed(User(verify(p, t).value.Subject, StrClaim(verify(p, t).value.Claims, "email"),
                              verify(p, t).value.Claims)))
  {
    var rawIDToken := "";
    var providerID := "";
    // 1) the session cookie
    if req.Session.Some? {
      var parsed := ParseProviderToken(req.Session.value);
      if parsed.Ok? {
        providerID, rawIDToken := parsed.value.0, parsed.value.1;
      }
    }
    // 2) a Bearer header, when the cookie gave nothing
    if rawIDToken == "" {
      if HasPrefix(req.Authorization, BearerPrefix) {
        var token := req.Authorization[|BearerPrefix|..];
        var parsed := ParseProviderToken(token);
        if parsed.Ok? && parsed.value.0 in configured {
          providerID, rawIDToken := parsed.value.0, parsed.value.1;
        }
      }
    }
    // 3) nothing usable
    if rawIDToken == "" || providerID == "" {
      o := Reject(req, RealmChallenge, false);
      return;
    }
    // 4) verification by the token's provider
    if providerID !in configured {
      o := Panic;
      return;
    }
    var idTok := verify(providerID, rawIDToken);
    if idTok.None? {
      o := Reject(req, InvalidTokenChallenge, true);
      return;
    }
    // 5) the user
    o := Proceed(User(idTok.value.Subject, StrClaim(idTok.value.Claims, "email"), idTok.value.Claims));
  }

  /** A POST with neither a session cookie nor an Authorization header is a 401
      asking for a Bearer token. */
  method NoCredentialAPIRequest(configured: set<string>, verify: (string, string) -> Option<IDToken>)
    returns (o: Outcome)
    ensures o == Unauthorized(RealmChallenge, false) && StatusCode(o) == 401
  {
    var req := Request("POST", "", None, "");
    o := Authenticate(req, configured, verify);
  }
}
