/**
 * The Passport strategies of loaders/passport.loader.ts: the Basic verify
 * callback (empty-field check, then the first account whose email and
 * SHA-256 password digest match), the JWT verify callback that hands the
 * decoded payload through, and the signing secret. The hash, the account
 * store and the token encoding of `jsonwebtoken` are abstract.
 */
module PassportLoader {
  import opened Wrappers

  /** An account row: `password` holds the hex SHA-256 digest. */
  datatype Account = Account(id: int, email: string, password: string)

  /** The arguments a strategy hands to `done`: an error, or a user (`false` as `None`). */
  datatype Done = Done(error: Option<string>, user: Option<Account>)

  const InvalidLoginData := "Invalid login data."
  const InvalidCredentials := "Invalid credentials."

  predicate Matches(a: Account, email: string, digest: string) {
    a.email == email && a.password == digest
  }

  /** `findFirst({where: {email, password}})` over the accounts in store order. */
  function FindFirst(accounts: seq<Account>, email: string, digest: string): (r: Option<Account>)
    ensures r.None? <==> forall i :: 0 <= i < |accounts| ==> !Matches(accounts[i], email, digest)
    ensures r.Some? ==> exists i ::
      && 0 <= i < |accounts|
      && accounts[i] == r.value
      && Matches(r.value, email, digest)
      && forall j :: 0 <= j < i ==> !Matches(accounts[j], email, digest)
  {
    if accounts == [] then None
    else if Matches(accounts[0], email, digest) then Some(accounts[0])
    else
      var r := FindFirst(accounts[1..], email, digest);
      if r.Some? then
        ghost var i :| 0 <= i < |accounts[1..]| && accounts[1..][i] == r.value
          && forall j :: 0 <= j < i ==> !Matches(accounts[1..][j], email, digest);
        assert accounts[i + 1] == r.value;
        r
      else r
  }

  /** The Basic strategy's verify callback; `sha256Hex` stands for `createHash('sha256')…digest('hex')`. */
  function VerifyBasic(email: string, password: string, accounts: seq<Account>, sha256Hex: string -> string): (d: Done)
    ensures d.error.Some? != d.user.Some?
    ensures d.error == Some(InvalidLoginData) <==> email == "" || password == ""
    ensures d.user.Some? <==>
      && email != ""
      && password != ""
      && exists i :: 0 <= i < |accounts| && Matches(accounts[i], email, sha256Hex(password))
    ensures d.user.Some? ==> d.user == FindFirst(accounts, email, sha256Hex(password))
    ensures d.error == Some(InvalidCredentials) <==> email != "" && password != "" && d.user.None?
  {
    if email == "" || password == "" then Done(Some(InvalidLoginData), None)
    else
      var user := FindFirst(accounts, email, sha256Hex(password));
      if user.None? then Done(Some(InvalidCredentials), None)
      else Done(None, user)
  }

  /** `process.env.SECRET_KEY || new Date().toISOString()`, the start time given as text. */
  function SecretOrKey(env: Option<string>, startIso: string): (key: string)
    ensures env.Some? && env.value != "" ==> key == env.value
    ensures env.None? || env.value == "" ==> key == startIso
  {
    if env.Some? && env.value != "" then env.value else startIso
  }

  // ---------------------------------------------------------------------
  // Tokens
  // ---------------------------------------------------------------------

  /** The `account` claim: `{id: user?.id}`; an undefined id is dropped when serialised. */
  datatype AccountClaim = AccountClaim(id: Option<int>)

  /** A token's payload: the claims and the issue time `iat` that signing adds. */
  datatype Payload = Payload(permissions: Option<seq<string>>, account: Option<AccountClaim>, iat: int)

  /** A signed token; its text encoding is not modelled. */
  datatype Jwt = Jwt(payload: Payload, key: string)

  /** `jwt.sign(payload, key)`. */
  function Sign(payload: Payload, key: string): Jwt {
    Jwt(payload, key)
  }

  /** Signature check and decoding: only the signing key opens a token. */
  function Decode(token: Jwt, key: string): (r: Option<Payload>)
    ensures r.Some? <==> token.key == key
  {
    if token.key == key then Some(token.payload) else None
  }

  /** What the JWT strategy reports to the route callback as `(error, data, info)`. */
  datatype JwtVerdict = StrategyError(message: string) | Rejected(info: string) | Authenticated(data: Payload)

  /** The JWT verify callback: `done(null, payload)`. */
  function JwtVerify(payload: Payload): (v: JwtVerdict)
    ensures v.Authenticated? && v.data == payload
  {
    Authenticated(payload)
  }

  /**
   * passport-jwt around that callback: no bearer token and a bad signature
   * are reported as `info`; a good token reaches `JwtVerify`.
   */
  function AuthenticateJwt(token: Option<Jwt>, key: string): JwtVerdict {
    if token.None? then Rejected("No auth token")
    else
      match Decode(token.value, key)
      case None => Rejected("invalid signature")
      case Some(payload) => JwtVerify(payload)
  }

  /** Signing then decoding with the same key gives the payload back; any other key fails. */
  lemma SignDecodeRoundTrip(payload: Payload, key: string, other: string)
    requires other != key
    ensures Decode(Sign(payload, key), key) == Some(payload)
    ensures Decode(Sign(payload, key), other).None?
  {
  }

  /** A token signed with the server's key is authenticated with its payload unchanged. */
  lemma JwtPassThrough(payload: Payload, key: string)
    ensures AuthenticateJwt(Some(Sign(payload, key)), key) == Authenticated(payload)
  {
  }
}
