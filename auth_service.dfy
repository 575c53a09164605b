/**
 * Login (src/auth/auth.service.ts, reached through src/auth/auth.api.ts):
 * after `basicAuth`, the caller gets a token whose claims are
 * `["read", "write"]` and the account id for an authenticated account, and
 * `["read"]` with no id for anyone else.
 */
module AuthService {
  import opened Wrappers
  import opened ResponseErrors
  import opened PassportLoader
  import opened AuthMiddleware
  import opened PermissionsMiddleware

  /** `user ? ["read", "write"] : ["read"]`. */
  function LoginPermissions(user: Option<Account>): (ps: seq<string>)
    ensures user.Some? ==> ps == [Read, Write]
    ensures user.None? ==> ps == [Read]
  {
    if user.Some? then [Read, Write] else [Read]
  }

  /** `{id: user?.id}`. */
  function LoginAccountClaim(user: Option<Account>): (c: AccountClaim)
    ensures c.id.Some? <==> user.Some?
    ensures user.Some? ==> c.id.value == user.value.id
  {
    AccountClaim(if user.Some? then Some(user.value.id) else None)
  }

  /** `AuthService.login(user)`: the token signed with the secret, issued at `iat`. */
  function Login(user: Option<Account>, key: string, iat: int): (token: Jwt)
    ensures Decode(token, key) == Some(Payload(Some(LoginPermissions(user)), Some(LoginAccountClaim(user)), iat))
  {
    Sign(Payload(Some(LoginPermissions(user)), Some(LoginAccountClaim(user)), iat), key)
  }

  /** `POST /api/auth`: `basicAuth`, then `login(req.account)`. */
  function LoginEndpoint(header: Header, done: Done, key: string, iat: int): (r: Result<Jwt, Error>)
    ensures r.Success? <==> BasicAuth(header, done).next.Proceed?
    ensures r.Success? ==> r.value == Login(BasicAuth(header, done).account, key, iat)
  {
    var outcome := BasicAuth(header, done);
    match outcome.next
    case Fail(error) => Failure(error)
    case Proceed => Success(Login(outcome.account, key, iat))
  }

  /** A logged-in account's token passes both the read and the write gate. */
  lemma AccountTokenPassesGates(user: Account)
    ensures CheckPermissions([Read], Some(LoginPermissions(Some(user)))).Proceed?
    ensures CheckPermissions([Write], Some(LoginPermissions(Some(user)))).Proceed?
  {
    assert [Read, Write][1] == Write;
  }

  /** An anonymous token passes the read gate and fails the write gate with "Permission not found.". */
  lemma AnonymousTokenIsReadOnly()
    ensures CheckPermissions([Read], Some(LoginPermissions(None))).Proceed?
    ensures CheckPermissions([Write], Some(LoginPermissions(None))) == Fail(PermissionNotFound)
  {
    assert Write != Read by { assert Write[0] != Read[0]; }
    assert Write in [Write];
  }

  /** Wrong Basic credentials: 401 with "Invalid credentials." and no token. */
  lemma InvalidCredentialsRejected(h: string, email: string, password: string, accounts: seq<Account>,
                                   sha256Hex: string -> string, key: string, iat: int)
    requires IsBasicRequest(Some(h))
    requires email != "" && password != ""
    requires forall i :: 0 <= i < |accounts| ==> !Matches(accounts[i], email, sha256Hex(password))
    ensures LoginEndpoint(Some(h), VerifyBasic(email, password, accounts, sha256Hex), key, iat)
      == Failure(ResponseError(401, InvalidCredentials))
  {
  }

  /** Right Basic credentials: a token for the matching account, with read and write. */
  lemma ValidCredentialsGiveReadWrite(h: string, email: string, password: string, accounts: seq<Account>,
                                      sha256Hex: string -> string, key: string, iat: int)
    requires IsBasicRequest(Some(h))
    requires email != "" && password != ""
    requires exists i :: 0 <= i < |accounts| && Matches(accounts[i], email, sha256Hex(password))
    ensures var r := LoginEndpoint(Some(h), VerifyBasic(email, password, accounts, sha256Hex), key, iat);
      && r.Success?
      && Decode(r.value, key).value.permissions == Some([Read, Write])
      && Decode(r.value, key).value.account.value.id == Some(FindFirst(accounts, email, sha256Hex(password)).value.id)
  {
  }

  /** A request without Basic credentials (as `Bearer aaa`) still gets a read-only token. */
  lemma NoBasicGivesReadOnly(header: Header, done: Done, key: string, iat: int)
    requires !IsBasicRequest(header)
    ensures var r := LoginEndpoint(header, done, key, iat);
      r.Success? && Decode(r.value, key) == Some(Payload(Some([Read]), Some(AccountClaim(None)), iat))
  {
  }

  /** `Bearer aaa` is not a Basic request. */
  lemma BearerIsNotBasic()
    ensures !IsBasicRequest(Some("Bearer aaa"))
  {
    var h := "Bearer aaa";
    FirstWordOf("Bearer", " aaa");
    assert "Bearer" + " aaa" == h;
    assert "Bearer" != "Basic" by { assert "Bearer"[1] != "Basic"[1]; }
  }

  /**
   * The login token of a stored account, presented twice with the same
   * header: the first request is admitted, the second fails with
   * "Token already used.".
   */
  lemma LoginTokenAdmittedOnce(user: Account, accounts: seq<Account>, key: string, iat: int, header: Header, used: set<Header>)
    requires user in accounts
    requires header !in used
    ensures var verdict := AuthenticateJwt(Some(Login(Some(user), key, iat)), key);
      Replay(used, [JwtRequest(header, verdict), JwtRequest(header, verdict)], accounts).0 == [Proceed, Fail(TokenAlreadyUsed)]
  {
    var token := Login(Some(user), key, iat);
    var data := token.payload;
    JwtPassThrough(data, key);
    assert LookupAccount(data.account, accounts).Success? by {
      var i :| 0 <= i < |accounts| && accounts[i] == user;
      assert accounts[i].id == data.account.value.id.value;
    }
    TokenReuseRejected(used, header, data, accounts);
  }
}
