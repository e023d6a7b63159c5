/** The `authenticateToken` middleware of the server: it reads the
    `Authorization` header, takes the second space-separated word as the token,
    verifies it with the process-wide secret and passes the `userId` of its
    payload to the route handler. */
module Auth {
  import opened Wrappers
  import opened Text
  import opened Crypto

  /** The signing secret, fixed when the server starts. */
  const SecretKey: string := "jameela_secret_key"

  /** The middleware's outcome; only `Authorized` lets the request through. */
  datatype AuthOutcome =
    | NoHeader                 // 401 'No authorization header'
    | NoToken                  // 401 'No token provided'
    | InvalidToken             // 403 'Invalid or expired token'
    | Authorized(userId: nat)  // next(), with request.user.userId set

  /** `header.split(' ')[1]`: the second piece, or `undefined` when there is none. */
  function BearerToken(header: string): (r: Option<string>)
    ensures r.Some? ==> ' ' !in r.value
  {
    var parts := Split(header, ' ');
    if |parts| >= 2 then Some(parts[1]) else None
  }

  /** The middleware run at clock time `now` on the optional header value. */
  function Authenticate(header: Option<string>, now: nat): (r: AuthOutcome)
    ensures r == NoHeader <==> !Truthy(header)
    ensures r == NoToken <==> Truthy(header) && !Truthy(BearerToken(header.value))
    ensures r.Authorized? ==> exists c :: Verify(BearerToken(header.value).value, SecretKey, now) == Verified(c) && c.userId == r.userId
    ensures Truthy(header) && Truthy(BearerToken(header.value)) ==>
      var v := Verify(BearerToken(header.value).value, SecretKey, now);
      r == if v.Verified? then Authorized(v.claims.userId) else InvalidToken
  {
    if !Truthy(header) then NoHeader
    else
      var token := BearerToken(header.value);
      if !Truthy(token) then NoToken
      else
        match Verify(token.value, SecretKey, now)
        case Verified(c) => Authorized(c.userId)
        case _ => InvalidToken
  }

  /** The token is the word after the first space, up to the next space or the end. */
  lemma BearerTokenOf(scheme: string, token: string, rest: string)
    requires ' ' !in scheme && ' ' !in token
    requires rest == [] || rest[0] == ' '
    ensures BearerToken(scheme + [' '] + token + rest) == Some(token)
  {
    assert scheme + [' '] + token + rest == scheme + [' '] + (token + rest);
    SplitAfterPiece(scheme, ' ', token + rest);
    if rest == [] {
      assert token + rest == token;
      SplitNoSeparator(token, ' ');
    } else {
      assert token + rest == token + [' '] + rest[1..];
      SplitAfterPiece(token, ' ', rest[1..]);
    }
  }

  /** A header without a space carries no token. */
  lemma BearerTokenWithoutSpace(header: string)
    requires ' ' !in header
    ensures BearerToken(header) == None
  {
    SplitNoSeparator(header, ' ');
  }

  /** The header the client sends, `Bearer <token>`, yields the token. */
  lemma BearerHeader(token: string)
    requires ' ' !in token
    ensures BearerToken("Bearer " + token) == Some(token)
  {
    var scheme := "Bearer";
    assert "Bearer " == scheme + [' '];
    assert "Bearer " + token == scheme + [' '] + token + [];
    BearerTokenOf(scheme, token, []);
  }

  /** `Bearer <token>` with a token the server signed lets the request through
      as that user until the token's hour is up, and is refused with 403 after. */
  lemma AuthenticateSigned(userId: nat, issuedAt: nat, now: nat)
    ensures Authenticate(Some("Bearer " + Sign(userId, issuedAt, SecretKey)), now) ==
      if now < issuedAt + Lifetime then Authorized(userId) else InvalidToken
  {
    var token := Sign(userId, issuedAt, SecretKey);
    BearerHeader(token);
    VerifySign(userId, issuedAt, SecretKey, now);
  }
}
