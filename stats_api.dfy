/**
 * The GET handler of src/investments/stats/investments.stats.api.ts: it
 * builds `{query: {created_at: {gt, lt}}, groupBy}` from the query string,
 * answers 400 when neither date bound is a valid date, then 400 when
 * `groupBy` is not `day`, `week`, `month` or `year`, and otherwise hands the
 * payload to the statistics service.
 */
module StatsApi {
  import opened Wrappers
  import opened JsValues
  import opened ResponseErrors
  import StatsUtil

  /** The query parameters the handler reads; absent ones are `None`. */
  datatype StatsQuery = StatsQuery(createdAtGt: Option<string>, createdAtLt: Option<string>, groupBy: Option<string>)

  /** `GetInvestmentsStatsPayload`. */
  datatype StatsPayload = StatsPayload(gt: Value, lt: Value, groupBy: Value)

  const MissingDateBound := ResponseError(400, "Missing or not valid required query parameter 'createdAtGt' or 'createdAtLt'.")
  const InvalidGroupBy := ResponseError(400, "Missing or not valid required query parameter 'groupBy'. It must be 'day', 'week', 'month' or 'year'.")

  const GroupByValues: seq<string> := ["day", "week", "month", "year"]

  /** A query parameter as Express hands it over: text or `undefined`. */
  function QueryValue(q: Option<string>): (v: Value)
    ensures v.Undefined? || v.Str?
  {
    if q.Some? then Str(q.value) else Undefined
  }

  /**
   * `typeCheckUtil("Date", new Date(String(q)))`: the parsed date when it is
   * valid, and `undefined` exactly when it is not.
   */
  function DateBound(q: Option<string>, p: Parsers): (v: Value)
    ensures p.date(QueryText(QueryValue(q))).ValidDate? ==> v == DateValue(p.date(QueryText(QueryValue(q))))
    ensures v == Undefined <==> p.date(QueryText(QueryValue(q))).InvalidDate?
    ensures v == Undefined || (v.DateValue? && v.d.ValidDate? && v.d == p.date(QueryText(QueryValue(q))))
  {
    TypeCheckUtil(DateType, DateValue(p.date(QueryText(QueryValue(q)))))
  }

  /** The payload of lines 41-49. */
  function StatsPayloadOf(q: StatsQuery, p: Parsers): StatsPayload {
    StatsPayload(DateBound(q.createdAtGt, p), DateBound(q.createdAtLt, p), TypeCheckUtil(StringType, QueryValue(q.groupBy)))
  }

  /** The unit a valid `groupBy` names. */
  function UnitOf(s: string): (u: Option<StatsUtil.Unit>)
    ensures u.Some? <==> s in GroupByValues
  {
    if s == "day" then Some(StatsUtil.Day)
    else if s == "week" then Some(StatsUtil.Week)
    else if s == "month" then Some(StatsUtil.Month)
    else if s == "year" then Some(StatsUtil.Year)
    else None
  }

  /** The validation of lines 52-58: the payload the service receives, or the 400 error. */
  function ValidateStatsQuery(q: StatsQuery, p: Parsers): (r: Result<StatsPayload, Error>)
    ensures var pl := StatsPayloadOf(q, p);
      && (r == Failure(MissingDateBound) <==> pl.gt == Undefined && pl.lt == Undefined)
      && (r == Failure(InvalidGroupBy) <==>
            (pl.gt != Undefined || pl.lt != Undefined) && !(q.groupBy.Some? && q.groupBy.value in GroupByValues))
      && (r.Success? ==> r.value == pl && q.groupBy.Some? && UnitOf(q.groupBy.value).Some?)
  {
    var pl := StatsPayloadOf(q, p);
    if !Truthy(pl.gt) && !Truthy(pl.lt) then Failure(MissingDateBound)
    else if !Truthy(pl.groupBy) || pl.groupBy.s !in GroupByValues then Failure(InvalidGroupBy)
    else Success(pl)
  }

  /** Either bound alone is enough, and a bad `groupBy` is reported only when the dates pass. */
  lemma DateCheckComesFirst(q: StatsQuery, p: Parsers)
    requires StatsPayloadOf(q, p).gt == Undefined && StatsPayloadOf(q, p).lt == Undefined
    ensures ValidateStatsQuery(q, p) == Failure(MissingDateBound)
  {
  }

  /**
   * The six rejected queries of the stats test: nothing; one bound only;
   * `groupBy` only; both bounds without `groupBy`; both bounds with an
   * unknown `groupBy`.
   */
  lemma RejectedTestQueries(p: Parsers, gt: string, lt: string)
    requires ParsesUndefinedAsInvalid(p)
    requires p.date(gt).ValidDate? && p.date(lt).ValidDate?
    ensures ValidateStatsQuery(StatsQuery(None, None, None), p) == Failure(MissingDateBound)
    ensures ValidateStatsQuery(StatsQuery(Some(gt), None, None), p) == Failure(InvalidGroupBy)
    ensures ValidateStatsQuery(StatsQuery(None, Some(lt), None), p) == Failure(InvalidGroupBy)
    ensures ValidateStatsQuery(StatsQuery(None, None, Some("day")), p) == Failure(MissingDateBound)
    ensures ValidateStatsQuery(StatsQuery(Some(gt), Some(lt), None), p) == Failure(InvalidGroupBy)
    ensures ValidateStatsQuery(StatsQuery(Some(gt), Some(lt), Some("notValidGroupByValue")), p) == Failure(InvalidGroupBy)
  {
    assert "notValidGroupByValue" !in GroupByValues by {
      assert |"notValidGroupByValue"| == 20;
    }
  }

  /** The accepted query of the stats test, for each unit. */
  lemma AcceptedTestQuery(p: Parsers, gt: string, lt: string, groupBy: string)
    requires p.date(gt).ValidDate? && p.date(lt).ValidDate?
    requires groupBy in GroupByValues
    ensures ValidateStatsQuery(StatsQuery(Some(gt), Some(lt), Some(groupBy)), p)
      == Success(StatsPayload(DateValue(p.date(gt)), DateValue(p.date(lt)), Str(groupBy)))
  {
  }
}
