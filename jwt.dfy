/** JwtUtil: issuing and reading the JSON Web Tokens (RFC 7519) the API uses,
    signed with HMAC SHA-256 (section 3.2 of RFC 7518), and the role gate the
    controllers put in front of their handlers. The signing library is a
    `Codec` passed in, a pair of functions this model does not look into, and
    the clock is a parameter. */
module Jwt {
  import opened Common

  const SecretKey := "key for jwt"
  const Issuer := "mazgi production"

  /** Lifetime of a login token, in minutes. */
  const SessionMinutes := 60
  /** Lifetime of the tokens sent in verification and email-change links. */
  const LinkMinutes := 3

  /** The payload of a token: `sub`, `iat`, `exp`, `iss` and the optional
      private claims `role` and `email`. `iat` and `exp` are NumericDates
      (section 2 of RFC 7519), in whole seconds. */
  datatype Claims = Claims(
    subject: Id, issuedAt: int, expiration: int, issuer: string,
    role: Option<Role>, email: Option<string>)

  /** The NumericDate the library stores for a `Date`: `getTime() / 1000`,
      Java's division, which truncates toward zero. */
  function EpochSeconds(t: Instant): int {
    if t >= 0 then t / 1000 else -((-t) / 1000)
  }

  /** The last instant at which a token issued at `now` for `minute` minutes
      still parses: its `exp` is the truncated second, and the parser refuses
      only once the clock is after it. */
  function Expiry(now: Instant, minute: int): Instant {
    EpochSeconds(now + minute * 60 * 1000) * 1000
  }

  /** The token lives its `minute` minutes to within a second, and never longer
      when the expiry is after 1970. */
  lemma ExpiryWithinASecond(now: Instant, minute: int)
    ensures now + minute * 60 * 1000 - 1000 < Expiry(now, minute) < now + minute * 60 * 1000 + 1000
    ensures now + minute * 60 * 1000 >= 0 ==> Expiry(now, minute) <= now + minute * 60 * 1000
  {
    var x := now + minute * 60 * 1000;
    if x >= 0 {
      assert x / 1000 * 1000 <= x < x / 1000 * 1000 + 1000;
    } else {
      assert (-x) / 1000 * 1000 <= -x < (-x) / 1000 * 1000 + 1000;
    }
  }

  datatype Rejection = BadSignature | Expired | Malformed

  /** What parsing a compact token yields: its claims, or the `JwtException`
      the parser throws. */
  datatype Parsed = Parsed(claims: Claims) | Rejected(reason: Rejection)

  /** The signing library: `compact(claims, key)` serializes and signs,
      `parse(token, key, now)` checks the signature and the expiry and reads the
      claims back. */
  datatype Codec = Codec(compact: (Claims, string) -> string, parse: (string, string, Instant) -> Parsed)

  /** What the model assumes of the library: a token signed with a key parses
      under that key until the clock is after its `exp` (section 4.1.4 of
      RFC 7519), and never under another key. */
  ghost predicate Sound(codec: Codec) {
    && (forall c, key, now :: codec.parse(codec.compact(c, key), key, now) ==
          if now <= c.expiration * 1000 then Parsed(c) else Rejected(Expired))
    && (forall c, key, other, now :: key != other ==>
          codec.parse(codec.compact(c, key), other, now) == Rejected(BadSignature))
  }

  /** ProfileJwtDTO: the identity read from a token. */
  datatype ProfileJwt = ProfileJwt(id: Id, role: Option<Role>, email: Option<string>)

  /** The claim set `doEncode` promises for a token issued at `now`. */
  function IssuedClaims(id: Id, email: Option<string>, role: Option<Role>, minute: int, now: Instant): Claims {
    Claims(id, EpochSeconds(now), EpochSeconds(now + minute * 60 * 1000), Issuer, role, email)
  }

  /** doEncode: the builder receives the subject, the issue time, the expiry
      and the issuer, then the role and the email claims when they are given. */
  method DoEncode(codec: Codec, id: Id, email: Option<string>, role: Option<Role>, minute: int, now: Instant)
    returns (jwt: string)
    ensures jwt == codec.compact(IssuedClaims(id, email, role, minute, now), SecretKey)
    ensures Sound(codec) ==> forall t :: t <= Expiry(now, minute) ==>
      codec.parse(jwt, SecretKey, t) ==
        Parsed(Claims(id, EpochSeconds(now), EpochSeconds(now + minute * 60 * 1000), Issuer, role, email))
  {
    var claims := Claims(id, 0, 0, "", None, None);
    claims := claims.(issuedAt := EpochSeconds(now));
    claims := claims.(expiration := EpochSeconds(now + minute * 60 * 1000));
    claims := claims.(issuer := Issuer);
    if role.Some? {
      claims := claims.(role := role);
    }
    if email.Some? {
      claims := claims.(email := email);
    }
    jwt := codec.compact(claims, SecretKey);
  }

  /** decode: the identity in a token, with the email as `String.valueOf`
      renders it ("null" when the claim is absent). A token without a role
      claim makes `ProfileRole.valueOf("null")` throw an
      IllegalArgumentException, which the `catch (JwtException e)` does not
      catch. The cases below are what decode does with each parse outcome;
      what it means for issued tokens is stated by Encode, EncodeEmail and
      DecodeAgreesOnId. */
  function Decode(codec: Codec, jwt: string, now: Instant): (r: Result<ProfileJwt>)
    ensures codec.parse(jwt, SecretKey, now).Rejected? ==> r == Err(BadRequest("JWT invalid!"))
    ensures r.Ok? <==> codec.parse(jwt, SecretKey, now).Parsed? && codec.parse(jwt, SecretKey, now).claims.role.Some?
    ensures codec.parse(jwt, SecretKey, now).Parsed? && codec.parse(jwt, SecretKey, now).claims.role.None? ==>
      r == Err(Runtime("IllegalArgumentException"))
    ensures r.Ok? ==>
      var c := codec.parse(jwt, SecretKey, now).claims;
      && r.value.id == c.subject && r.value.role == c.role
      && (c.email.None? ==> r.value.email == Some("null"))
      && (c.email.Some? ==> r.value.email == c.email)
  {
    match codec.parse(jwt, SecretKey, now)
    case Rejected(_) => Err(BadRequest("JWT invalid!"))
    case Parsed(c) =>
      if c.role.None? then Err(Runtime("IllegalArgumentException"))
      else Ok(ProfileJwt(c.subject, c.role, Some(if c.email.Some? then c.email.value else "null")))
  }

  /** decodeAndGetId: the subject of a valid token. */
  function DecodeAndGetId(codec: Codec, jwt: string, now: Instant): (r: Result<Id>)
    ensures r.Ok? <==> codec.parse(jwt, SecretKey, now).Parsed?
    ensures r.Ok? ==> r.value == codec.parse(jwt, SecretKey, now).claims.subject
    ensures r.Err? ==> r.error == BadRequest("JWT invalid!")
  {
    match codec.parse(jwt, SecretKey, now)
    case Rejected(_) => Err(BadRequest("JWT invalid!"))
    case Parsed(c) => Ok(c.subject)
  }

  /** The two readers agree: whatever identity decode reads, decodeAndGetId
      reads its id, and a token decodeAndGetId refuses is refused by decode
      with the same error. Only a token without a role separates them. */
  lemma {:induction false} DecodeAgreesOnId(codec: Codec, jwt: string, now: Instant)
    ensures Decode(codec, jwt, now).Ok? ==> DecodeAndGetId(codec, jwt, now) == Ok(Decode(codec, jwt, now).value.id)
    ensures DecodeAndGetId(codec, jwt, now).Err? ==>
      Decode(codec, jwt, now) == Err(DecodeAndGetId(codec, jwt, now).error)
    ensures (DecodeAndGetId(codec, jwt, now).Ok? && Decode(codec, jwt, now).Err?) <==>
      (codec.parse(jwt, SecretKey, now).Parsed? && codec.parse(jwt, SecretKey, now).claims.role.None?)
  {
  }

  /** encode(id, role): the login token. */
  method Encode(codec: Codec, id: Id, role: Role, now: Instant) returns (jwt: string)
    ensures jwt == codec.compact(IssuedClaims(id, None, Some(role), SessionMinutes, now), SecretKey)
    ensures Sound(codec) ==> forall t :: t <= Expiry(now, SessionMinutes) ==>
      Decode(codec, jwt, t) == Ok(ProfileJwt(id, Some(role), Some("null")))
    ensures Sound(codec) ==> forall t :: t > Expiry(now, SessionMinutes) ==>
      Decode(codec, jwt, t) == Err(BadRequest("JWT invalid!"))
  {
    jwt := DoEncode(codec, id, None, Some(role), SessionMinutes, now);
  }

  /** encode(id): the token of a verification link, with neither role nor
      email. Its id reads back until it expires, but `decode` of it throws. */
  method EncodeId(codec: Codec, id: Id, now: Instant) returns (jwt: string)
    ensures jwt == codec.compact(IssuedClaims(id, None, None, LinkMinutes, now), SecretKey)
    ensures Sound(codec) ==> forall t :: t <= Expiry(now, LinkMinutes) ==>
      DecodeAndGetId(codec, jwt, t) == Ok(id) && Decode(codec, jwt, t) == Err(Runtime("IllegalArgumentException"))
    ensures Sound(codec) ==> forall t :: t > Expiry(now, LinkMinutes) ==>
      DecodeAndGetId(codec, jwt, t) == Err(BadRequest("JWT invalid!"))
  {
    jwt := DoEncode(codec, id, None, None, LinkMinutes, now);
  }

  /** encodeEmail: the token of an email-change link. */
  method EncodeEmail(codec: Codec, id: Id, email: string, role: Role, now: Instant) returns (jwt: string)
    ensures jwt == codec.compact(IssuedClaims(id, Some(email), Some(role), LinkMinutes, now), SecretKey)
    ensures Sound(codec) ==> forall t :: t <= Expiry(now, LinkMinutes) ==>
      Decode(codec, jwt, t) == Ok(ProfileJwt(id, Some(role), Some(email)))
    ensures Sound(codec) ==> forall t :: t > Expiry(now, LinkMinutes) ==>
      Decode(codec, jwt, t) == Err(BadRequest("JWT invalid!"))
  {
    jwt := DoEncode(codec, id, Some(email), Some(role), LinkMinutes, now);
  }

  /** A token signed with any other key is refused, whatever it claims and
      whenever it is read. */
  lemma ForeignKeyRefused(codec: Codec, c: Claims, key: string, now: Instant)
    requires Sound(codec) && key != SecretKey
    ensures DecodeAndGetId(codec, codec.compact(c, key), now) == Err(BadRequest("JWT invalid!"))
    ensures Decode(codec, codec.compact(c, key), now) == Err(BadRequest("JWT invalid!"))
  {
  }

  /** The `profileJwtDTO` request attribute that the upstream filter sets: not
      set, set to an object of another class, or an identity. */
  datatype Attribute = Missing | Foreign | Identity(dto: ProfileJwt)

  /** The `for` loop of getIdFromHeader: some required role equals the
      identity's role. */
  predicate AnyRoleMatches(roles: seq<Role>, role: Option<Role>) {
    |roles| > 0 && (Some(roles[0]) == role || AnyRoleMatches(roles[1..], role))
  }

  lemma {:induction false} AnyRoleMatchesIff(roles: seq<Role>, role: Option<Role>)
    ensures AnyRoleMatches(roles, role) <==> role.Some? && role.value in roles
  {
    if |roles| > 0 {
      AnyRoleMatchesIff(roles[1..], role);
      assert roles == [roles[0]] + roles[1..];
    }
  }

  /** getIdFromHeader: without an identity the request is not authorized; with
      no required role any identity passes; otherwise its role must be one of
      them. */
  function GetIdFromHeader(attribute: Attribute, requiredRoles: seq<Role>): (r: Result<Id>)
    ensures !attribute.Identity? ==> r == Err(TokenNotValid("Not Authorized!"))
    ensures attribute.Identity? && |requiredRoles| == 0 ==> r == Ok(attribute.dto.id)
    ensures attribute.Identity? && |requiredRoles| > 0 ==>
      r == if attribute.dto.role.Some? && attribute.dto.role.value in requiredRoles
           then Ok(attribute.dto.id) else Err(Forbidden("Not Access!"))
  {
    match attribute
    case Identity(dto) =>
      AnyRoleMatchesIff(requiredRoles, dto.role);
      if |requiredRoles| == 0 then Ok(dto.id)
      else if AnyRoleMatches(requiredRoles, dto.role) then Ok(dto.id)
      else Err(Forbidden("Not Access!"))
    case _ => Err(TokenNotValid("Not Authorized!"))
  }

  /** The scenario of a login token for profile 42 with role ADMIN: read back
      at once it gives that identity, which passes a gate for ADMIN and is
      refused by a gate for USER; a verification token for profile 7 gives 7
      at once and is refused a second after three minutes have passed. */
  lemma LoginAndLinkScenarios(codec: Codec, now: Instant)
    requires Sound(codec)
    ensures var dto := Decode(codec, codec.compact(IssuedClaims(42, None, Some(ADMIN), SessionMinutes, now), SecretKey), now);
      && dto == Ok(ProfileJwt(42, Some(ADMIN), Some("null")))
      && GetIdFromHeader(Identity(dto.value), [ADMIN]) == Ok(42)
      && GetIdFromHeader(Identity(dto.value), [USER]) == Err(Forbidden("Not Access!"))
    ensures var link := codec.compact(IssuedClaims(7, None, None, LinkMinutes, now), SecretKey);
      && DecodeAndGetId(codec, link, now) == Ok(7)
      && DecodeAndGetId(codec, link, now + 3 * 60 * 1000 + 1000) == Err(BadRequest("JWT invalid!"))
  {
    ExpiryWithinASecond(now, SessionMinutes);
    ExpiryWithinASecond(now, LinkMinutes);
  }
}
