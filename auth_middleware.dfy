/**
 * The authentication middlewares of middlewares/auth.middleware.ts.
 *
 * `basicAuth` runs the Basic strategy only when the `Authorization` header's
 * first space-separated word is exactly `Basic`. `jwtAuth` runs the JWT
 * strategy, looks the account claim up, defaults the permissions, and lets
 * each raw header string through at most once, remembering it in the
 * module-level `tokenRevocationList` set.
 */
module AuthMiddleware {
  import opened Wrappers
  import opened ResponseErrors
  import opened PassportLoader

  /** The raw `Authorization` header; `undefined` as `None`. */
  type Header = Option<string>

  // ---------------------------------------------------------------------
  // basicAuth
  // ---------------------------------------------------------------------

  /** `header.split(' ')[0]`. */
  function FirstWord(h: string): (w: string)
    ensures ' ' !in w
    ensures w == h || (|w| < |h| && h[..|w|] == w && h[|w|] == ' ')
  {
    if h == [] || h[0] == ' ' then []
    else
      var w := FirstWord(h[1..]);
      assert h == [h[0]] + h[1..];
      [h[0]] + w
  }

  /** The first word of a space-free word followed by nothing or a space is that word. */
  lemma {:induction false} FirstWordOf(w: string, rest: string)
    requires ' ' !in w
    requires rest == [] || rest[0] == ' '
    ensures FirstWord(w + rest) == w
  {
    if w != [] {
      assert (w + rest)[1..] == w[1..] + rest;
      FirstWordOf(w[1..], rest);
    }
  }

  /** The negation of line 25's pass-through test. */
  predicate IsBasicRequest(header: Header) {
    header.Some? && header.value != "" && FirstWord(header.value) == "Basic"
  }

  /** A header is a Basic request exactly when it is `Basic` or starts with `Basic `. */
  lemma BasicRequestIff(h: string)
    ensures IsBasicRequest(Some(h)) <==> h == "Basic" || (|h| >= 6 && h[..6] == "Basic ")
  {
    if h == "Basic" {
      FirstWordOf("Basic", []);
      assert "Basic" + [] == h;
    } else if |h| >= 6 && h[..6] == "Basic " {
      assert h == "Basic" + h[5..];
      FirstWordOf("Basic", h[5..]);
    }
  }

  /** The outcome of an authentication middleware: how it continues and the account it attached. */
  datatype BasicAuthOutcome = BasicAuthOutcome(next: Next, account: Option<Account>)

  /**
   * `basicAuth()` on a request with this header; `done` is what the Basic
   * strategy reports (a failed challenge reports neither error nor user).
   */
  function BasicAuth(header: Header, done: Done): (r: BasicAuthOutcome)
    ensures !IsBasicRequest(header) ==> r == BasicAuthOutcome(Proceed, None)
    ensures r.next.Proceed? <==> !IsBasicRequest(header) || (done.error.None? && done.user.Some?)
    ensures r.account.Some? ==> r.next.Proceed? && r.account == done.user
    ensures IsBasicRequest(header) && r.next.Proceed? ==> r.account == done.user
    ensures IsBasicRequest(header) && done.error.Some? ==> r.next == Fail(ResponseError(401, done.error.value))
    ensures IsBasicRequest(header) && done.error.None? && done.user.None? ==>
      r.next == Fail(ResponseError(401, "Unauthorized. Invalid credentials."))
  {
    if !IsBasicRequest(header) then BasicAuthOutcome(Proceed, None)
    else if done.error.Some? then BasicAuthOutcome(Fail(ResponseError(401, done.error.value)), None)
    else if done.user.None? then BasicAuthOutcome(Fail(ResponseError(401, "Unauthorized. Invalid credentials.")), None)
    else BasicAuthOutcome(Proceed, done.user)
  }

  // ---------------------------------------------------------------------
  // jwtAuth
  // ---------------------------------------------------------------------

  const AccountNotFound := ResponseError(401, "Unauthorized. Account not found.")
  const TokenAlreadyUsed := ResponseError(401, "Unauthorized. Token already used.")

  /** `findUnique({where: {id}})`: the account with that id, if any. */
  function FindById(accounts: seq<Account>, id: int): (r: Option<Account>)
    ensures r.None? <==> forall i :: 0 <= i < |accounts| ==> accounts[i].id != id
    ensures r.Some? ==> r.value in accounts && r.value.id == id
  {
    if accounts == [] then None
    else if accounts[0].id == id then Some(accounts[0])
    else FindById(accounts[1..], id)
  }

  /** Whether `data.account?.id` is truthy: present and not 0. */
  predicate HasAccountId(claim: Option<AccountClaim>) {
    claim.Some? && claim.value.id.Some? && claim.value.id.value != 0
  }

  /** The account lookup of lines 81-94: none without an id claim, a failure for an unknown id. */
  function LookupAccount(claim: Option<AccountClaim>, accounts: seq<Account>): (r: Result<Option<Account>, Error>)
    ensures !HasAccountId(claim) ==> r == Success(None)
    ensures HasAccountId(claim) ==> (r.Failure? <==> FindById(accounts, claim.value.id.value).None?)
    ensures r.Failure? ==> r.error == AccountNotFound
    ensures r.Success? && r.value.Some? ==> r.value.value in accounts && r.value.value.id == claim.value.id.value
  {
    if !HasAccountId(claim) then Success(None)
    else
      var account := FindById(accounts, claim.value.id.value);
      if account.None? then Failure(AccountNotFound) else Success(account)
  }

  /** What `jwtAuth` leaves on the request and how it continues. */
  datatype JwtAuthOutcome = JwtAuthOutcome(next: Next, account: Option<Account>, permissions: Option<seq<string>>)

  /**
   * One request through `jwtAuth`: the outcome and the revocation list after it.
   * The list grows by the request's header exactly when the request proceeds.
   */
  function JwtAuthStep(used: set<Header>, header: Header, verdict: JwtVerdict, accounts: seq<Account>): (r: (JwtAuthOutcome, set<Header>))
    ensures r.0.next.Proceed? <==>
      && verdict.Authenticated?
      && LookupAccount(verdict.data.account, accounts).Success?
      && header !in used
    ensures r.0.next.Proceed? ==> r.1 == used + {header}
    ensures r.0.next.Fail? ==> r.1 == used
    ensures r.0.next.Fail? ==> r.0.next.error.ResponseError? && r.0.next.error.status == 401
  {
    match verdict
    case StrategyError(message) => (JwtAuthOutcome(Fail(ResponseError(401, message)), None, None), used)
    case Rejected(info) => (JwtAuthOutcome(Fail(ResponseError(401, info)), None, None), used)
    case Authenticated(data) =>
      match LookupAccount(data.account, accounts)
      case Failure(error) => (JwtAuthOutcome(Fail(error), None, None), used)
      case Success(account) =>
        var permissions := Some(data.permissions.GetOr([]));
        if header in used then (JwtAuthOutcome(Fail(TokenAlreadyUsed), account, permissions), used)
        else (JwtAuthOutcome(Proceed, account, permissions), used + {header})
  }

  /** The module-level `tokenRevocationList`. */
  class TokenRevocationList {
    var used: set<Header>

    constructor()
      ensures used == {}
    {
      used := {};
    }

    /** `Set.prototype.has`. */
    predicate Has(h: Header)
      reads this
    {
      h in used
    }

    /** `Set.prototype.add`. */
    method Add(h: Header)
      modifies this
      ensures used == old(used) + {h}
    {
      used := used + {h};
    }
  }

  /** The `jwtAuth` callback, updating the shared list in place. */
  method JwtAuth(list: TokenRevocationList, header: Header, verdict: JwtVerdict, accounts: seq<Account>)
    returns (outcome: JwtAuthOutcome)
    modifies list
    ensures (outcome, list.used) == JwtAuthStep(old(list.used), header, verdict, accounts)
  {
    if verdict.StrategyError? {
      return JwtAuthOutcome(Fail(ResponseError(401, verdict.message)), None, None);
    }
    if verdict.Rejected? {
      return JwtAuthOutcome(Fail(ResponseError(401, verdict.info)), None, None);
    }
    var data := verdict.data;
    var account: Option<Account> := None;
    if HasAccountId(data.account) {
      account := FindById(accounts, data.account.value.id.value);
      if account.None? {
        return JwtAuthOutcome(Fail(AccountNotFound), None, None);
      }
    }
    var permissions := Some(data.permissions.GetOr([]));
    if list.Has(header) {
      return JwtAuthOutcome(Fail(TokenAlreadyUsed), account, permissions);
    }
    list.Add(header);
    outcome := JwtAuthOutcome(Proceed, account, permissions);
  }

  // ---------------------------------------------------------------------
  // What jwtAuth guarantees
  // ---------------------------------------------------------------------

  /** Strategy errors and `info` fail with their message before the list is consulted. */
  lemma StrategyFailureLeavesListAlone(used: set<Header>, header: Header, verdict: JwtVerdict, accounts: seq<Account>)
    requires !verdict.Authenticated?
    ensures var r := JwtAuthStep(used, header, verdict, accounts);
      r.1 == used && r.0.next == Fail(ResponseError(401, if verdict.StrategyError? then verdict.message else verdict.info))
  {
  }

  /** A truthy id naming no account fails and the header is not recorded. */
  lemma UnknownAccountLeavesListAlone(used: set<Header>, header: Header, data: Payload, accounts: seq<Account>)
    requires HasAccountId(data.account)
    requires forall i :: 0 <= i < |accounts| ==> accounts[i].id != data.account.value.id.value
    ensures JwtAuthStep(used, header, Authenticated(data), accounts) == (JwtAuthOutcome(Fail(AccountNotFound), None, None), used)
  {
  }

  /**
   * Past the lookup, the account is the one the id names (none without a
   * truthy id) and the permissions default to the empty list; a header
   * already in the list fails with "Token already used.".
   */
  lemma AdmissionOutcome(used: set<Header>, header: Header, data: Payload, accounts: seq<Account>)
    requires LookupAccount(data.account, accounts).Success?
    ensures var r := JwtAuthStep(used, header, Authenticated(data), accounts);
      && r.0.account == LookupAccount(data.account, accounts).value
      && (!HasAccountId(data.account) ==> r.0.account.None?)
      && r.0.permissions == Some(if data.permissions.Some? then data.permissions.value else [])
      && (header in used ==> r.0.next == Fail(TokenAlreadyUsed))
  {
  }

  /** One `jwtAuth` per request, in order: the outcomes and the final list. */
  datatype JwtRequest = JwtRequest(header: Header, verdict: JwtVerdict)

  function Replay(used: set<Header>, reqs: seq<JwtRequest>, accounts: seq<Account>): (r: (seq<Next>, set<Header>))
    ensures |r.0| == |reqs|
    ensures used <= r.1
    decreases reqs
  {
    if reqs == [] then ([], used)
    else
      var step := JwtAuthStep(used, reqs[0].header, reqs[0].verdict, accounts);
      var rest := Replay(step.1, reqs[1..], accounts);
      ([step.0.next] + rest.0, rest.1)
  }

  /** A header already in the list never gets through again. */
  lemma {:induction false} UsedNeverProceeds(used: set<Header>, reqs: seq<JwtRequest>, accounts: seq<Account>)
    ensures var outs := Replay(used, reqs, accounts).0;
      forall i :: 0 <= i < |reqs| && reqs[i].header in used ==> outs[i].Fail?
    decreases reqs
  {
    if reqs != [] {
      var step := JwtAuthStep(used, reqs[0].header, reqs[0].verdict, accounts);
      UsedNeverProceeds(step.1, reqs[1..], accounts);
      var outs := Replay(used, reqs, accounts).0;
      forall i | 0 <= i < |reqs| && reqs[i].header in used ensures outs[i].Fail? {
        if i > 0 {
          assert reqs[1..][i - 1] == reqs[i];
        }
      }
    }
  }

  /** Across any sequence of requests, each header string is admitted at most once. */
  lemma {:induction false} AdmittedAtMostOnce(used: set<Header>, reqs: seq<JwtRequest>, accounts: seq<Account>)
    ensures var outs := Replay(used, reqs, accounts).0;
      forall i, j :: 0 <= i < j < |reqs| && reqs[i].header == reqs[j].header && outs[i].Proceed? ==> outs[j].Fail?
    decreases reqs
  {
    if reqs != [] {
      var step := JwtAuthStep(used, reqs[0].header, reqs[0].verdict, accounts);
      var tail := reqs[1..];
      AdmittedAtMostOnce(step.1, tail, accounts);
      UsedNeverProceeds(step.1, tail, accounts);
      var outs := Replay(used, reqs, accounts).0;
      forall i, j | 0 <= i < j < |reqs| && reqs[i].header == reqs[j].header && outs[i].Proceed?
        ensures outs[j].Fail?
      {
        assert tail[j - 1] == reqs[j];
        if i > 0 {
          assert tail[i - 1] == reqs[i];
        }
      }
    }
  }

  /** The same token used twice: the first request proceeds, the second fails with "Token already used.". */
  lemma TokenReuseRejected(used: set<Header>, header: Header, data: Payload, accounts: seq<Account>)
    requires header !in used
    requires LookupAccount(data.account, accounts).Success?
    ensures Replay(used, [JwtRequest(header, Authenticated(data)), JwtRequest(header, Authenticated(data))], accounts).0
      == [Proceed, Fail(TokenAlreadyUsed)]
  {
    var reqs := [JwtRequest(header, Authenticated(data)), JwtRequest(header, Authenticated(data))];
    assert reqs[1..] == [JwtRequest(header, Authenticated(data))];
    assert reqs[1..][1..] == [];
  }
}
