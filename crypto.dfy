/** Stand-ins for the two cryptographic libraries the server calls: `bcrypt`
    (password digests) and `jsonwebtoken` (signed, expiring bearer tokens).
    Only their observable contracts are modelled: a digest accepts the password
    it was made from, and a token signed for a user verifies to that user until
    it expires. Neither stand-in has any cryptographic strength. */
module Crypto {
  import opened Text

  /** The cost factor the server passes to `bcrypt.hash`. */
  const SaltRounds: nat := 13

  /** A bcrypt digest. The model keeps the pre-image, so comparing is exact. */
  datatype Digest = Digest(cost: nat, salt: nat, preimage: string)

  /** `bcrypt.hash(password, SaltRounds)` with the random salt as a parameter. */
  function Hash(password: string, salt: nat): (d: Digest)
    ensures Compare(password, d)
    ensures d.cost == SaltRounds
  {
    Digest(SaltRounds, salt, password)
  }

  /** `bcrypt.compare(candidate, d)`. */
  predicate Compare(candidate: string, d: Digest) {
    candidate == d.preimage
  }

  /** A digest accepts exactly the password it was made from, whatever the salt. */
  lemma CompareHash(password: string, candidate: string, salt: nat)
    ensures Compare(candidate, Hash(password, salt)) <==> candidate == password
  {
  }

  /** The `expiresIn: '1h'` option, in seconds. */
  const Lifetime: nat := 3600

  /** The payload of a token: `{ userId, iat, exp }`, times in seconds. */
  datatype Claims = Claims(userId: nat, issuedAt: nat, expiresAt: nat)

  /** What `jwt.verify` reports. */
  datatype Verification =
    | Verified(claims: Claims)
    | Malformed
    | BadSignature
    | Expired

  /** A keyed checksum of the secret's characters: stands in for the secret's
      contribution to the HMAC. */
  function SecretCode(secret: string): nat
    decreases |secret|
  {
    if secret == [] then 0 else secret[0] as nat + 31 * SecretCode(secret[1..])
  }

  /** Stand-in for the HMAC signature over the payload. */
  function Mac(c: Claims, secret: string): nat {
    (c.userId + 3 * c.issuedAt + 7 * c.expiresAt + SecretCode(secret)) % 1_000_000_007
  }

  /** A non-empty run of decimal digits. */
  predicate Numeral(s: string) {
    s != [] && AllDigits(s)
  }

  /** The compact text form `userId.iat.exp.signature`. */
  function Encode(c: Claims, secret: string): string {
    Digits(c.userId) + ['.'] + (Digits(c.issuedAt) + ['.'] + (Digits(c.expiresAt) + ['.'] + Digits(Mac(c, secret))))
  }

  /** `jwt.sign({ userId }, secret, { expiresIn: '1h' })` at clock time `now`. */
  function Sign(userId: nat, now: nat, secret: string): (token: string)
    ensures token != [] && ' ' !in token
  {
    var token := Encode(Claims(userId, now, now + Lifetime), secret);
    NoSpaceInEncoding(Claims(userId, now, now + Lifetime), secret);
    token
  }

  /** `jwt.verify(token, secret)` at clock time `now`: the signature is checked
      first, then the expiry, which is reached when `now >= exp`. */
  function Verify(token: string, secret: string, now: nat): (r: Verification)
    ensures r.Verified? ==> now < r.claims.expiresAt
    ensures r.Verified? || r.Expired? ==> |Split(token, '.')| == 4
  {
    var parts := Split(token, '.');
    if |parts| != 4 || !Numeral(parts[0]) || !Numeral(parts[1]) || !Numeral(parts[2]) || !Numeral(parts[3]) then
      Malformed
    else
      var c := Claims(ParseDigits(parts[0]), ParseDigits(parts[1]), ParseDigits(parts[2]));
      if ParseDigits(parts[3]) != Mac(c, secret) then BadSignature
      else if now >= c.expiresAt then Expired
      else Verified(c)
  }

  lemma NoSpaceInEncoding(c: Claims, secret: string)
    ensures Encode(c, secret) != [] && ' ' !in Encode(c, secret)
  {
    var a, b, e, m := Digits(c.userId), Digits(c.issuedAt), Digits(c.expiresAt), Digits(Mac(c, secret));
    assert ' ' !in a && ' ' !in b && ' ' !in e && ' ' !in m by {
      assert forall s: string :: AllDigits(s) ==> ' ' !in s;
    }
  }

  /** The encoding splits at its dots into the four numerals. */
  lemma SplitEncoding(c: Claims, secret: string)
    ensures Split(Encode(c, secret), '.') ==
      [Digits(c.userId), Digits(c.issuedAt), Digits(c.expiresAt), Digits(Mac(c, secret))]
  {
    var a, b, e, m := Digits(c.userId), Digits(c.issuedAt), Digits(c.expiresAt), Digits(Mac(c, secret));
    assert forall s: string :: AllDigits(s) ==> '.' !in s;
    SplitNoSeparator(m, '.');
    SplitAfterPiece(e, '.', m);
    SplitAfterPiece(b, '.', e + ['.'] + m);
    SplitAfterPiece(a, '.', b + ['.'] + (e + ['.'] + m));
  }

  /** A token verifies to the user it was signed for until its hour is up, and
      is reported expired from then on. */
  lemma VerifySign(userId: nat, now: nat, secret: string, at: nat)
    ensures Verify(Sign(userId, now, secret), secret, at) ==
      if at < now + Lifetime then Verified(Claims(userId, now, now + Lifetime)) else Expired
  {
    var c := Claims(userId, now, now + Lifetime);
    SplitEncoding(c, secret);
    ParseDigitsOfDigits(userId);
    ParseDigitsOfDigits(now);
    ParseDigitsOfDigits(now + Lifetime);
    ParseDigitsOfDigits(Mac(c, secret));
  }
}
