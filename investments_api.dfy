/**
 * The handlers of src/investments/investments.api.ts.
 *
 * GET builds a Prisma `where` from the query string, one field at a time,
 * as the exact value when it is a truthy number or date and otherwise as a
 * `{gt, lt}` range; it builds the paging and sorting options with defaults.
 * POST builds the new record from the body, the clock and the caller's
 * account, and refuses it with 400 unless amount, rate and confirmation date
 * are all present, truthy and not negative.
 */
module InvestmentsApi {
  import opened Wrappers
  import opened JsValues
  import opened ResponseErrors
  import opened QueryUtil
  import PassportLoader

  /** `req.query`: each parameter given once, as text. */
  type Query = map<string, string>

  function Param(q: Query, name: string): (v: Value)
    ensures v.Undefined? || v.Str?
  {
    if name in q then Str(q[name]) else Undefined
  }

  /** `typeCheckUtil("Number", Number(req.query[name]))`. */
  function NumberParam(q: Query, name: string, p: Parsers): Value {
    TypeCheckUtil(NumberType, NumberValue(ToNumber(Param(q, name), p)))
  }

  /** `typeCheckUtil("Date", new Date(String(req.query[name])))`. */
  function DateParam(q: Query, name: string, p: Parsers): Value {
    TypeCheckUtil(DateType, DateValue(p.date(QueryText(Param(q, name)))))
  }

  /** A field of the `where` clause: an exact value or a `{gt, lt}` range. */
  datatype Filter = Exact(value: Value) | Range(gt: Value, lt: Value)

  /** `exact || {gt, lt}`. */
  function ExactOrRange(exact: Value, gt: Value, lt: Value): (f: Filter)
    ensures f.Exact? <==> Truthy(exact)
    ensures f.Exact? ==> f.value == exact
    ensures f.Range? ==> f.gt == gt && f.lt == lt
  {
    if Truthy(exact) then Exact(exact) else Range(gt, lt)
  }

  /** `GetInvestmentsPayload`. */
  datatype GetInvestmentsPayload = GetInvestmentsPayload(
    amount: Filter, annualRate: Filter, confirmedAt: Filter, createdAt: Filter, createdBy: Filter)

  /** The numeric filter for a parameter and its `Gt`/`Lt` variants. */
  function NumberFilter(q: Query, name: string, p: Parsers): Filter {
    ExactOrRange(NumberParam(q, name, p), NumberParam(q, name + "Gt", p), NumberParam(q, name + "Lt", p))
  }

  /** The date filter for a parameter and its `Gt`/`Lt` variants. */
  function DateFilter(q: Query, name: string, p: Parsers): Filter {
    ExactOrRange(DateParam(q, name, p), DateParam(q, name + "Gt", p), DateParam(q, name + "Lt", p))
  }

  /** `typeCheckUtil("Number", String(req.query[name]))`, as the `createdBy` lines have it. */
  function CreatedByParam(q: Query, name: string): Value {
    TypeCheckUtil(NumberType, Str(QueryText(Param(q, name))))
  }

  /** The `createdBy` filter of lines 58-61 as written. */
  function CreatedByFilter(q: Query): Filter {
    ExactOrRange(CreatedByParam(q, "createdBy"), CreatedByParam(q, "createdByGt"), CreatedByParam(q, "createdByLt"))
  }

  /** The `createdBy` filter with the `Number(...)` coercion the other numeric fields use. */
  function CreatedByFilterIntended(q: Query, p: Parsers): Filter {
    NumberFilter(q, "createdBy", p)
  }

  /** The payload of lines 41-62 (the rate parameters are spelled `annualeRate`). */
  function GetFilter(q: Query, p: Parsers): GetInvestmentsPayload {
    GetInvestmentsPayload(
      NumberFilter(q, "amount", p),
      NumberFilter(q, "annualeRate", p),
      DateFilter(q, "confirmedAt", p),
      DateFilter(q, "createdAt", p),
      CreatedByFilter(q))
  }

  /**
   * A numeric field filters exactly on a parameter that parses to a non-zero
   * number or an infinity; otherwise it is a range whose bounds are the parsed
   * `Gt`/`Lt` parameters, `undefined` (no constraint) when absent or `NaN`.
   */
  lemma NumberFilterMeaning(q: Query, name: string, p: Parsers)
    ensures var f := NumberFilter(q, name, p);
      && (f.Exact? <==> name in q && p.number(q[name]) != NaN && p.number(q[name]) != Num(0.0))
      && (f.Exact? ==> f.value == NumberValue(p.number(q[name])))
      && (f.Range? ==> (f.gt == Undefined <==> name + "Gt" !in q || p.number(q[name + "Gt"]) == NaN))
      && (f.Range? && f.gt != Undefined ==> f.gt == NumberValue(p.number(q[name + "Gt"])))
      && (f.Range? ==> (f.lt == Undefined <==> name + "Lt" !in q || p.number(q[name + "Lt"]) == NaN))
      && (f.Range? && f.lt != Undefined ==> f.lt == NumberValue(p.number(q[name + "Lt"])))
  {
  }

  /**
   * A date field filters exactly on the parameter when it parses to a valid
   * date; otherwise each range bound is the parsed `Gt`/`Lt` parameter when
   * that is a valid date, and `undefined` when it is absent or invalid.
   */
  lemma DateFilterMeaning(q: Query, name: string, p: Parsers)
    requires ParsesUndefinedAsInvalid(p)
    ensures var f := DateFilter(q, name, p);
      && (f.Exact? <==> name in q && p.date(q[name]).ValidDate?)
      && (f.Exact? ==> f.value == DateValue(p.date(q[name])))
      && (f.Range? ==> (f.gt == Undefined <==> name + "Gt" !in q || p.date(q[name + "Gt"]).InvalidDate?))
      && (f.Range? && f.gt != Undefined ==> f.gt == DateValue(p.date(q[name + "Gt"])))
      && (f.Range? ==> (f.lt == Undefined <==> name + "Lt" !in q || p.date(q[name + "Lt"]).InvalidDate?))
      && (f.Range? && f.lt != Undefined ==> f.lt == DateValue(p.date(q[name + "Lt"])))
  {
  }

  /**
   * The rate is read from `annualeRate`: without those parameters the rate is
   * unconstrained, whatever a correctly spelled `annualRate` parameter says.
   */
  lemma AnnualRateSpelling(q: Query, p: Parsers)
    requires "annualeRate" !in q && "annualeRateGt" !in q && "annualeRateLt" !in q
    ensures GetFilter(q, p).annualRate == Range(Undefined, Undefined)
  {
    assert "annualeRate" + "Gt" == "annualeRateGt";
    assert "annualeRate" + "Lt" == "annualeRateLt";
  }

  /** As written, `createdBy` never filters: text never passes the "Number" check. */
  lemma CreatedByNeverFilters(q: Query, p: Parsers)
    ensures GetFilter(q, p).createdBy == Range(Undefined, Undefined)
  {
  }

  /** With the coercion, a numeric `createdBy` selects that creator. */
  lemma CreatedByIntendedFilters(q: Query, p: Parsers, id: real)
    requires "createdBy" in q && p.number(q["createdBy"]) == Num(id) && id != 0.0
    ensures CreatedByFilterIntended(q, p) == Exact(NumberValue(Num(id)))
  {
  }

  // ---------------------------------------------------------------------
  // Options
  // ---------------------------------------------------------------------

  /** `QueryOptions`: page and offset as the values the handler produced. */
  datatype QueryOptions = QueryOptions(page: Value, offset: Value, sortBy: string, sortOrder: string)

  const DefaultPage := NumberValue(Num(1.0))
  const DefaultOffset := NumberValue(Num(100.0))

  /** `sort` of lines 68-73, over the datamodel `models`. */
  function SortBy(q: Query, models: seq<ModelDef>): string {
    if Truthy(TypeCheckUtil(StringType, Param(q, "sortBy"))) && CheckModelField(models, "investments", QueryText(Param(q, "sortBy")))
    then QueryText(Param(q, "sortBy"))
    else "created_at"
  }

  /** As written, `sort.by` looks for a model named "investments", which the datamodel does not have: the sort is always `created_at`. */
  lemma SortByNeverHonoured(q: Query, models: seq<ModelDef>)
    requires forall i :: 0 <= i < |models| ==> models[i].name != "investments"
    ensures OptionsOf(q, models).sortBy == "created_at"
  {
  }

  /** `sort.by` checked against the model's own name, `Investment`. */
  function SortByIntended(q: Query, models: seq<ModelDef>): string {
    if Truthy(TypeCheckUtil(StringType, Param(q, "sortBy"))) && CheckModelField(models, "Investment", QueryText(Param(q, "sortBy")))
    then QueryText(Param(q, "sortBy"))
    else "created_at"
  }

  /** With the model's own name, a non-empty `sortBy` naming a field of `Investment` is used, and anything else sorts by `created_at`. */
  lemma SortByIntendedHonoursField(q: Query, models: seq<ModelDef>)
    ensures "sortBy" in q && q["sortBy"] != "" && CheckModelField(models, "Investment", q["sortBy"])
      ==> SortByIntended(q, models) == q["sortBy"]
    ensures !("sortBy" in q && q["sortBy"] != "" && CheckModelField(models, "Investment", q["sortBy"]))
      ==> SortByIntended(q, models) == "created_at"
  {
  }

  function SortOrder(q: Query): string {
    var given := Or(TypeCheckUtil(StringType, Param(q, "sortOrder")), Str(""));
    CheckSortOrder(given.s).GetOr("desc")
  }

  /** The options of lines 65-74 as written. */
  function OptionsOf(q: Query, models: seq<ModelDef>): QueryOptions {
    QueryOptions(
      Or(TypeCheckUtil(NumberType, Param(q, "page")), DefaultPage),
      Or(TypeCheckUtil(NumberType, Param(q, "offset")), DefaultOffset),
      SortBy(q, models),
      SortOrder(q))
  }

  /** The options with `page` and `offset` coerced with `Number(...)` first. */
  function OptionsIntended(q: Query, models: seq<ModelDef>, p: Parsers): QueryOptions {
    QueryOptions(
      Or(NumberParam(q, "page", p), DefaultPage),
      Or(NumberParam(q, "offset", p), DefaultOffset),
      SortBy(q, models),
      SortOrder(q))
  }

  /** As written, query text never passes the "Number" check: page 1 and offset 100, always. */
  lemma PageAndOffsetAlwaysDefault(q: Query, models: seq<ModelDef>)
    ensures OptionsOf(q, models).page == DefaultPage
    ensures OptionsOf(q, models).offset == DefaultOffset
  {
  }

  /**
   * With the coercion, a `page` or `offset` that parses to a non-zero number
   * or an infinity is honoured; an absent one, or one that parses to `NaN` or
   * 0, takes the default.
   */
  lemma PageAndOffsetIntended(q: Query, models: seq<ModelDef>, p: Parsers)
    ensures var o := OptionsIntended(q, models, p);
      && ("page" in q && p.number(q["page"]) != NaN && p.number(q["page"]) != Num(0.0) ==> o.page == NumberValue(p.number(q["page"])))
      && (!("page" in q && p.number(q["page"]) != NaN && p.number(q["page"]) != Num(0.0)) ==> o.page == DefaultPage)
      && ("offset" in q && p.number(q["offset"]) != NaN && p.number(q["offset"]) != Num(0.0) ==> o.offset == NumberValue(p.number(q["offset"])))
      && (!("offset" in q && p.number(q["offset"]) != NaN && p.number(q["offset"]) != Num(0.0)) ==> o.offset == DefaultOffset)
  {
  }

  /**
   * `sort.by` is the `sortBy` parameter exactly when it is non-empty and names
   * a field of the `investments` model, else `created_at`; `sort.order` is the
   * normalised `sortOrder` or `desc`.
   */
  lemma SortOptions(q: Query, models: seq<ModelDef>)
    ensures var o := OptionsOf(q, models);
      && (o.sortBy == q["sortBy"] <== "sortBy" in q && q["sortBy"] != "" && CheckModelField(models, "investments", q["sortBy"]))
      && (!("sortBy" in q && q["sortBy"] != "" && CheckModelField(models, "investments", q["sortBy"])) ==> o.sortBy == "created_at")
      && (o.sortOrder == "asc" || o.sortOrder == "desc")
      && ("sortOrder" in q && CheckSortOrder(q["sortOrder"]).Some? ==> o.sortOrder == Lower(q["sortOrder"]))
      && (!("sortOrder" in q && CheckSortOrder(q["sortOrder"]).Some?) ==> o.sortOrder == "desc")
  {
    var s := Or(TypeCheckUtil(StringType, Param(q, "sortOrder")), Str(""));
    CheckSortOrderProperties(s.s, s.s);
    if "sortOrder" in q && q["sortOrder"] == "" {
      assert CheckSortOrder("").None?;
    }
  }

  // ---------------------------------------------------------------------
  // POST
  // ---------------------------------------------------------------------

  /** The body fields the handler reads. */
  datatype CreateBody = CreateBody(amount: Value, annualRate: Value, confirmedAt: Value)

  /** `CreateInvestmentPayload`; `createdBy` is `undefined` for an anonymous caller. */
  datatype CreateInvestmentPayload = CreateInvestmentPayload(
    amount: Value, annualRate: Value, confirmedAt: Value, createdAt: JsDate, createdBy: Option<int>)

  const InvalidPayload := ResponseError(400, "Invalid payload.")

  /** The payload of lines 95-101; `now` is the clock reading of `new Date()`. */
  function CreatePayloadOf(body: CreateBody, now: int, account: Option<PassportLoader.Account>, p: Parsers): CreateInvestmentPayload {
    CreateInvestmentPayload(
      TypeCheckUtil(NumberType, NumberValue(ToNumber(body.amount, p))),
      TypeCheckUtil(NumberType, NumberValue(ToNumber(body.annualRate, p))),
      TypeCheckUtil(DateType, DateValue(ToDate(body.confirmedAt, p))),
      ValidDate(now),
      if account.Some? then Some(account.value.id) else None)
  }

  /** JavaScript `v < 0` for the values a payload field holds. */
  predicate Negative(v: Value) {
    v.NumberValue? && Below0(v.n)
  }

  /** The test of line 104, negated: the payload is accepted. */
  predicate PayloadAccepted(pl: CreateInvestmentPayload) {
    !(!Truthy(pl.amount) || !Truthy(pl.annualRate) || !Truthy(pl.confirmedAt) || Negative(pl.amount) || Negative(pl.annualRate))
  }

  /** What line 104 admits: a positive amount, a positive rate (`Infinity` included) and a valid confirmation date. */
  lemma PayloadAcceptedIff(body: CreateBody, now: int, account: Option<PassportLoader.Account>, p: Parsers)
    ensures PayloadAccepted(CreatePayloadOf(body, now, account, p)) <==>
      && Positive(ToNumber(body.amount, p))
      && Positive(ToNumber(body.annualRate, p))
      && ToDate(body.confirmedAt, p).ValidDate?
  {
  }

  /**
   * The POST handler over the store of created records: a rejected payload
   * leaves the store as it was; an accepted one is appended, stamped with
   * `now` and the caller's id.
   */
  function PostInvestment(store: seq<CreateInvestmentPayload>, body: CreateBody, now: int,
                          account: Option<PassportLoader.Account>, p: Parsers): (r: (Result<CreateInvestmentPayload, Error>, seq<CreateInvestmentPayload>))
    ensures r.0.Failure? ==> r.0.error == InvalidPayload && r.1 == store
    ensures r.0.Success? <==> PayloadAccepted(CreatePayloadOf(body, now, account, p))
    ensures r.0.Success? ==>
      && r.1 == store + [r.0.value]
      && r.0.value.amount == NumberValue(ToNumber(body.amount, p))
      && r.0.value.annualRate == NumberValue(ToNumber(body.annualRate, p))
      && r.0.value.confirmedAt == DateValue(ToDate(body.confirmedAt, p))
      && r.0.value.createdAt == ValidDate(now)
      && (account.Some? ==> r.0.value.createdBy == Some(account.value.id))
      && (account.None? ==> r.0.value.createdBy == None)
  {
    var payload := CreatePayloadOf(body, now, account, p);
    if !PayloadAccepted(payload) then (Failure(InvalidPayload), store)
    else (Success(payload), store + [payload])
  }

  /** The five rejected bodies of the investments test, with the test's valid body as the base. */
  lemma RejectedTestBodies(store: seq<CreateInvestmentPayload>, now: int, account: Option<PassportLoader.Account>,
                           p: Parsers, confirmedAt: string)
    requires p.date(confirmedAt).ValidDate?
    ensures PostInvestment(store, CreateBody(NumberValue(Num(12.0)), Undefined, Undefined), now, account, p).0 == Failure(InvalidPayload)
    ensures PostInvestment(store, CreateBody(Undefined, NumberValue(Num(12.76)), Undefined), now, account, p).0 == Failure(InvalidPayload)
    ensures PostInvestment(store, CreateBody(Undefined, Undefined, Str(confirmedAt)), now, account, p).0 == Failure(InvalidPayload)
    ensures PostInvestment(store, CreateBody(NumberValue(Num(-12.0)), NumberValue(Num(12.76)), Str(confirmedAt)), now, account, p).0 == Failure(InvalidPayload)
    ensures PostInvestment(store, CreateBody(NumberValue(Num(12.0)), NumberValue(Num(-12.76)), Str(confirmedAt)), now, account, p).0 == Failure(InvalidPayload)
    ensures PostInvestment(store, CreateBody(NumberValue(Num(12.0)), NumberValue(Num(12.76)), Str(confirmedAt)), now, account, p).0.Success?
  {
  }

  /**
   * A numeric confirmation date is a time in milliseconds: a fractional one is
   * accepted and rounded toward zero; one beyond 8.64e15 is `Invalid Date` and refused.
   */
  lemma NumericConfirmationDates(store: seq<CreateInvestmentPayload>, now: int, account: Option<PassportLoader.Account>, p: Parsers)
    ensures var r := PostInvestment(store, CreateBody(NumberValue(Num(12.0)), NumberValue(Num(12.76)), NumberValue(Num(1.5))), now, account, p);
      r.0.Success? && r.0.value.confirmedAt == DateValue(ValidDate(1))
    ensures PostInvestment(store, CreateBody(NumberValue(Num(12.0)), NumberValue(Num(12.76)), NumberValue(Num(1e16))), now, account, p)
      == (Failure(InvalidPayload), store)
  {
  }

  /** Zero is falsy: a zero amount is refused although it is not negative. */
  lemma ZeroAmountRejected(store: seq<CreateInvestmentPayload>, body: CreateBody, now: int,
                           account: Option<PassportLoader.Account>, p: Parsers)
    requires body.amount == NumberValue(Num(0.0))
    ensures PostInvestment(store, body, now, account, p) == (Failure(InvalidPayload), store)
  {
  }

  /**
   * `Number("Infinity")` and `Number("1e400")` are `Infinity`, which passes the
   * "Number" check and is truthy: a query filters on it exactly, and a body
   * with an infinite positive amount is accepted while a negative one is refused.
   */
  lemma InfinityIsANumber(q: Query, store: seq<CreateInvestmentPayload>, now: int,
                          account: Option<PassportLoader.Account>, p: Parsers, confirmedAt: string)
    requires "amount" in q && p.number(q["amount"]) == Inf(false)
    requires p.date(confirmedAt).ValidDate?
    ensures GetFilter(q, p).amount == Exact(NumberValue(Inf(false)))
    ensures var r := PostInvestment(store, CreateBody(NumberValue(Inf(false)), NumberValue(Num(12.76)), Str(confirmedAt)), now, account, p);
      r.0.Success? && r.0.value.amount == NumberValue(Inf(false))
    ensures PostInvestment(store, CreateBody(NumberValue(Inf(true)), NumberValue(Num(12.76)), Str(confirmedAt)), now, account, p)
      == (Failure(InvalidPayload), store)
  {
  }
}
