/**
 * Time-period statistics of investments (src/investments/stats/investments.stats.util.ts):
 * the key function that maps a `created_at` to a day, week, month or year
 * bucket key, and `defineStatsFromInvestments`, which groups records by
 * that key and emits one `{key: {count, total_amount}}` entry per key.
 *
 * A date is given by its local calendar fields; `week` is the locale week
 * number that date-fns `getWeek` reports for it and `weekYear` the year that
 * week belongs to (`getWeekYear`), both taken as given.
 */
module StatsUtil {
  import opened Wrappers
  import opened NumberText
  import opened ObjectKeys

  /** Local calendar fields of a timestamp: `month` is 0-based as `getMonth` returns it. */
  datatype CalendarDate = CalendarDate(year: nat, month: nat, day: nat, week: nat, weekYear: nat)

  datatype Unit = Day | Week | Month | Year

  /** The year of era that date-fns `yyyy` prints: year 0 (1 BC) is printed as 1. */
  function EraYear(year: nat): (e: nat)
    ensures e >= 1
    ensures year >= 1 ==> e == year
  {
    if year == 0 then 1 else year
  }

  /** The calendar bucket a key stands for (day keys carry the 1-based month and the year of era, month keys the 0-based month). */
  datatype Bucket =
    | DayBucket(day: nat, month: nat, year: nat)
    | WeekBucket(week: nat, year: nat)
    | MonthBucket(month: nat, year: nat)
    | YearBucket(year: nat)

  function BucketOf(unit: Unit, d: CalendarDate): Bucket {
    match unit
    case Day => DayBucket(d.day, d.month + 1, EraYear(d.year))
    case Week => WeekBucket(d.week, d.year)
    case Month => MonthBucket(d.month, d.year)
    case Year => YearBucket(d.year)
  }

  /** The key text a bucket is rendered as. */
  function BucketKey(b: Bucket): string {
    match b
    case DayBucket(dd, mm, yyyy) => PadNat(dd, 2) + "/" + PadNat(mm, 2) + "/" + PadNat(yyyy, 4)
    case WeekBucket(w, y) => NatToString(w) + "/" + NatToString(y)
    case MonthBucket(m, y) => NatToString(m) + "/" + NatToString(y)
    case YearBucket(y) => NatToString(y)
  }

  /** The unit whose keys name buckets of this kind. */
  function UnitOf(b: Bucket): Unit {
    match b
    case DayBucket(_, _, _) => Day
    case WeekBucket(_, _) => Week
    case MonthBucket(_, _) => Month
    case YearBucket(_) => Year
  }

  /**
   * The grouper returned for `unit`: `dd/MM/yyyy` for a day, `{getWeek}/{getYear}`
   * for a week, `{getMonth}/{getYear}` for a month and `{getYear}` for a year;
   * a missing date gives no key.
   */
  function TimePeriodKey(unit: Unit, createdAt: Option<CalendarDate>): (key: Option<string>)
    ensures key.None? <==> createdAt.None?
  {
    match createdAt
    case None => None
    case Some(d) => Some(BucketKey(BucketOf(unit, d)))
  }

  /** The text before the first '/' and the text after it. */
  function SplitAtSlash(s: string): (r: Option<(string, string)>)
    ensures r.None? <==> '/' !in s
    ensures r.Some? ==> '/' !in r.value.0 && s == r.value.0 + "/" + r.value.1
  {
    if s == [] then None
    else if s[0] == '/' then Some(([], s[1..]))
    else
      match SplitAtSlash(s[1..])
      case None => None
      case Some(parts) => Some(([s[0]] + parts.0, parts.1))
  }

  function ParseNumeral(s: string): Option<nat> {
    if s != [] && AllDigits(s) then Some(ParseNat(s)) else None
  }

  /** Two numerals separated by one '/'. */
  function ParsePair(s: string): Option<(nat, nat)> {
    match SplitAtSlash(s)
    case None => None
    case Some(parts) =>
      match (ParseNumeral(parts.0), ParseNumeral(parts.1))
      case (Some(a), Some(b)) => Some((a, b))
      case _ => None
  }

  /** Reads a key of the given unit back into the bucket it names. */
  function ParseKey(unit: Unit, key: string): Option<Bucket> {
    match unit
    case Year =>
      (match ParseNumeral(key)
       case Some(y) => Some(YearBucket(y))
       case None => None)
    case Week =>
      (match ParsePair(key)
       case Some(p) => Some(WeekBucket(p.0, p.1))
       case None => None)
    case Month =>
      (match ParsePair(key)
       case Some(p) => Some(MonthBucket(p.0, p.1))
       case None => None)
    case Day =>
      (match SplitAtSlash(key)
       case None => None
       case Some(parts) =>
         match (ParseNumeral(parts.0), ParsePair(parts.1))
         case (Some(dd), Some(p)) => Some(DayBucket(dd, p.0, p.1))
         case _ => None)
  }

  lemma {:induction false} SplitAtSlashOf(a: string, b: string)
    requires '/' !in a
    ensures SplitAtSlash(a + "/" + b) == Some((a, b))
  {
    if a == [] {
      assert a + "/" + b == ['/'] + b;
    } else {
      var s := a + "/" + b;
      assert s[0] == a[0] && s[0] != '/';
      assert s[1..] == a[1..] + "/" + b;
      SplitAtSlashOf(a[1..], b);
      assert [a[0]] + a[1..] == a;
    }
  }

  lemma NumeralOf(s: string)
    requires AllDigits(s) && s != []
    ensures '/' !in s
    ensures ParseNumeral(s) == Some(ParseNat(s))
  {
  }

  lemma RenderedNumeral(n: nat, width: nat)
    ensures '/' !in NatToString(n) && ParseNumeral(NatToString(n)) == Some(n)
    ensures '/' !in PadNat(n, width) && ParseNumeral(PadNat(n, width)) == Some(n)
  {
    NumeralOf(NatToString(n));
    ParseNatToString(n);
    NumeralOf(PadNat(n, width));
    ParsePadNat(n, width);
  }

  lemma PairRoundTrip(a: nat, b: nat)
    ensures ParsePair(NatToString(a) + "/" + NatToString(b)) == Some((a, b))
  {
    RenderedNumeral(a, 0);
    RenderedNumeral(b, 0);
    SplitAtSlashOf(NatToString(a), NatToString(b));
  }

  /** The rendering of a bucket reads back as that bucket. */
  lemma BucketRoundTrip(b: Bucket)
    ensures ParseKey(UnitOf(b), BucketKey(b)) == Some(b)
  {
    match b
    case YearBucket(y) => RenderedNumeral(y, 0);
    case WeekBucket(w, y) => PairRoundTrip(w, y);
    case MonthBucket(m, y) => PairRoundTrip(m, y);
    case DayBucket(dd, mm, yyyy) => DayTripleRoundTrip(dd, mm, yyyy);
  }

  lemma DayTripleRoundTrip(day: nat, month: nat, year: nat)
    ensures ParseKey(Day, PadNat(day, 2) + "/" + PadNat(month, 2) + "/" + PadNat(year, 4)) == Some(DayBucket(day, month, year))
  {
    var dd, mm, yyyy := PadNat(day, 2), PadNat(month, 2), PadNat(year, 4);
    RenderedNumeral(day, 2);
    RenderedNumeral(month, 2);
    RenderedNumeral(year, 4);
    assert dd + "/" + mm + "/" + yyyy == dd + "/" + (mm + "/" + yyyy);
    SplitAtSlashOf(dd, mm + "/" + yyyy);
    SplitAtSlashOf(mm, yyyy);
  }

  /** Every key reads back as the calendar bucket of its date. */
  lemma KeyRoundTrip(unit: Unit, d: CalendarDate)
    ensures TimePeriodKey(unit, Some(d)).Some?
    ensures ParseKey(unit, TimePeriodKey(unit, Some(d)).value) == Some(BucketOf(unit, d))
  {
    var b := BucketOf(unit, d);
    BucketRoundTrip(b);
    assert UnitOf(b) == unit;
  }

  /** Two dates share a key exactly when they fall in the same bucket of the unit. */
  lemma SameKeyIffSameBucket(unit: Unit, d1: CalendarDate, d2: CalendarDate)
    ensures TimePeriodKey(unit, Some(d1)) == TimePeriodKey(unit, Some(d2)) <==> BucketOf(unit, d1) == BucketOf(unit, d2)
  {
    KeyRoundTrip(unit, d1);
    KeyRoundTrip(unit, d2);
    var k1, k2 := BucketKey(BucketOf(unit, d1)), BucketKey(BucketOf(unit, d2));
    assert k1 == k2 ==> ParseKey(unit, k1) == ParseKey(unit, k2);
  }

  /** `yyyy` prints year 0 as 0001, so a year-0 date shares its day key with the same day of year 1. */
  lemma YearZeroSharesDayKeyWithYearOne(d: CalendarDate)
    requires d.year == 0
    ensures TimePeriodKey(Day, Some(d)) == TimePeriodKey(Day, Some(d.(year := 1)))
    ensures ParseKey(Day, TimePeriodKey(Day, Some(d)).value) == Some(DayBucket(d.day, d.month + 1, 1))
  {
    KeyRoundTrip(Day, d);
  }

  /** With day below 100, month below 12 and a four-digit year the day key is exactly `dd/MM/yyyy`. */
  lemma DayKeyLayout(d: CalendarDate)
    requires d.day < 100 && d.month < 12 && 1000 <= d.year < 10000
    ensures var k := TimePeriodKey(Day, Some(d)).value;
      |k| == 10 && k[2] == '/' && k[5] == '/'
  {
    RenderingWidth(d.day, 2);
    RenderingWidth(d.month + 1, 2);
    RenderingWidth(d.year, 4);
  }

  function Pow10(k: nat): nat {
    if k == 0 then 1 else 10 * Pow10(k - 1)
  }

  /** A number below 10^k renders in at most k digits, so padding to k gives exactly k. */
  lemma {:induction false} RenderingWidth(n: nat, k: nat)
    requires 1 <= k && n < Pow10(k)
    ensures |NatToString(n)| <= k
    ensures |PadNat(n, k)| == k
  {
    if n >= 10 {
      RenderingWidth(n / 10, k - 1);
    }
  }

  /** The month key carries the 0-based month: January is filed as `0/yyyy`, December as `11/yyyy`. */
  lemma MonthKeyZeroBased(d: CalendarDate)
    requires d.month < 12
    ensures d.month == 0 ==> TimePeriodKey(Month, Some(d)).value[..2] == "0/"
    ensures ParseKey(Month, TimePeriodKey(Month, Some(d)).value) == Some(MonthBucket(d.month, d.year))
    ensures ParseKey(Day, TimePeriodKey(Day, Some(d)).value) == Some(DayBucket(d.day, d.month + 1, EraYear(d.year)))
  {
    KeyRoundTrip(Month, d);
    KeyRoundTrip(Day, d);
  }

  /** A day, week or month key contains '/', so it is never an array index. */
  lemma SlashKeyIsNotIndex(unit: Unit, d: CalendarDate)
    requires unit != Year
    ensures !IsArrayIndex(TimePeriodKey(unit, Some(d)).value)
  {
    var k := TimePeriodKey(unit, Some(d)).value;
    match unit
    case Day =>
      var dd := PadNat(d.day, 2);
      assert k[|dd|] == '/';
    case Week =>
      assert k[|NatToString(d.week)|] == '/';
    case Month =>
      assert k[|NatToString(d.month)|] == '/';
  }

  /** A year key of any year a JavaScript date can hold is an array index. */
  lemma YearKeyIsIndex(d: CalendarDate)
    requires d.year < 4294967295
    ensures IsArrayIndex(TimePeriodKey(Year, Some(d)).value)
    ensures ParseNat(TimePeriodKey(Year, Some(d)).value) == d.year
  {
    ParseNatToString(d.year);
  }

  /**
   * The week key pairs the locale week with the calendar year rather than with
   * the year the week belongs to.  With Sunday-based weeks, Sunday 29 December
   * 2024 lies in week 1 of 2025 and Wednesday 3 January 2024 in week 1 of 2024,
   * yet both are filed under "1/2024".
   */
  lemma WeekKeyMergesWeeksOfDifferentYears()
    ensures var lateDecember := CalendarDate(2024, 11, 29, 1, 2025);
      var earlyJanuary := CalendarDate(2024, 0, 3, 1, 2024);
      && lateDecember.weekYear != earlyJanuary.weekYear
      && TimePeriodKey(Week, Some(lateDecember)) == TimePeriodKey(Week, Some(earlyJanuary))
  {
  }

  /** The week key as intended: the locale week with its week-numbering year. */
  function WeekKeyIntended(d: CalendarDate): string {
    NatToString(d.week) + "/" + NatToString(d.weekYear)
  }

  /** With the week-numbering year, two dates share a week key exactly when they lie in the same week. */
  lemma WeekKeyIntendedSeparatesWeeks(d1: CalendarDate, d2: CalendarDate)
    ensures WeekKeyIntended(d1) == WeekKeyIntended(d2) <==> d1.week == d2.week && d1.weekYear == d2.weekYear
    ensures ParsePair(WeekKeyIntended(d1)) == Some((d1.week, d1.weekYear))
  {
    PairRoundTrip(d1.week, d1.weekYear);
    PairRoundTrip(d2.week, d2.weekYear);
  }

  // ---------------------------------------------------------------------
  // Grouping: defineStatsFromInvestments
  // ---------------------------------------------------------------------

  /** An investment as the statistics read it: its creation date and amount. */
  datatype Investment = Investment(createdAt: Option<CalendarDate>, amount: real)

  /** An investment extended with its `time_period`, as the statistics query returns it. */
  datatype TaggedInvestment = TaggedInvestment(timePeriod: Option<string>, amount: real)

  /** One record reduced to its group key and amount. */
  datatype Entry = Entry(key: string, amount: real)

  /** One `{key: {count, total_amount}}` element of the result. */
  datatype Stat = Stat(key: string, count: nat, totalAmount: real)

  /** The property name `_.groupBy` files a record under: a null time period becomes "null". */
  function GroupKey(t: TaggedInvestment): string {
    match t.timePeriod
    case Some(k) => k
    case None => "null"
  }

  function ServerEntries(ts: seq<TaggedInvestment>): (es: seq<Entry>)
    ensures |es| == |ts|
  {
    seq(|ts|, i requires 0 <= i < |ts| => Entry(GroupKey(ts[i]), ts[i].amount))
  }

  function KeysOf(es: seq<Entry>): (ks: seq<string>)
    ensures |ks| == |es|
  {
    seq(|es|, i requires 0 <= i < |es| => es[i].key)
  }

  /** The distinct keys of `ks` in the order they first occur. */
  function FirstOccurrences(ks: seq<string>): (r: seq<string>)
    ensures Distinct(r)
    ensures forall x :: x in r <==> x in ks
  {
    if ks == [] then []
    else
      var p := FirstOccurrences(ks[..|ks| - 1]);
      var x := ks[|ks| - 1];
      assert ks == ks[..|ks| - 1] + [x];
      if x in p then p else p + [x]
  }

  /** Position of the first occurrence of `x` in `ks`. */
  function FirstIndex(ks: seq<string>, x: string): (i: nat)
    requires x in ks
    ensures i < |ks| && ks[i] == x && x !in ks[..i]
  {
    if ks[0] == x then 0
    else
      var i := FirstIndex(ks[1..], x);
      assert ks[..i + 1] == [ks[0]] + ks[1..][..i];
      i + 1
  }

  /** Number of entries filed under `k`. */
  function CountOf(es: seq<Entry>, k: string): nat {
    if es == [] then 0
    else CountOf(es[..|es| - 1], k) + (if es[|es| - 1].key == k then 1 else 0)
  }

  /** Sum of the amounts of the entries filed under `k` (`_.sumBy(group, 'amount')`). */
  function AmountOf(es: seq<Entry>, k: string): real {
    if es == [] then 0.0
    else AmountOf(es[..|es| - 1], k) + (if es[|es| - 1].key == k then es[|es| - 1].amount else 0.0)
  }

  function SumAmounts(es: seq<Entry>): real {
    if es == [] then 0.0 else SumAmounts(es[..|es| - 1]) + es[|es| - 1].amount
  }

  /** The records `_.groupBy` files under `k`, in their original order. */
  function Group(es: seq<Entry>, k: string): (g: seq<Entry>)
    ensures forall i :: 0 <= i < |g| ==> g[i].key == k && g[i] in es
  {
    if es == [] then []
    else
      var p := es[..|es| - 1];
      var g := Group(p, k);
      var e := es[|es| - 1];
      assert forall x :: x in p ==> x in es;
      if e.key == k then g + [e] else g
  }

  /** `CountOf` and `AmountOf` are the length of the group and `_.sumBy(group, 'amount')`. */
  lemma {:induction false} GroupSums(es: seq<Entry>, k: string)
    ensures |Group(es, k)| == CountOf(es, k)
    ensures SumAmounts(Group(es, k)) == AmountOf(es, k)
  {
    if es != [] {
      var p := es[..|es| - 1];
      var e := es[|es| - 1];
      GroupSums(p, k);
      var g := Group(p, k);
      if e.key == k {
        assert (g + [e])[..|g|] == g;
      }
    }
  }

  /** One statistics element per key of `ks`, in that order. */
  function StatsFor(es: seq<Entry>, ks: seq<string>): (stats: seq<Stat>)
    ensures |stats| == |ks|
  {
    seq(|ks|, i requires 0 <= i < |ks| => Stat(ks[i], CountOf(es, ks[i]), AmountOf(es, ks[i])))
  }

  function StatKeys(stats: seq<Stat>): (ks: seq<string>)
    ensures |ks| == |stats|
  {
    seq(|stats|, i requires 0 <= i < |stats| => stats[i].key)
  }

  function TotalCount(stats: seq<Stat>): nat {
    if stats == [] then 0 else stats[0].count + TotalCount(stats[1..])
  }

  function TotalAmount(stats: seq<Stat>): real {
    if stats == [] then 0.0 else stats[0].totalAmount + TotalAmount(stats[1..])
  }

  /**
   * `defineStatsFromInvestments`: group by time period, then one element per
   * key of the grouping object, in the order `Object.keys` lists them.
   */
  function DefineStats(ts: seq<TaggedInvestment>): seq<Stat> {
    var es := ServerEntries(ts);
    StatsFor(es, ObjectKeyOrder(FirstOccurrences(KeysOf(es))))
  }

  /** The statistics query: tag each fetched investment with its key, then aggregate. */
  function Tag(invs: seq<Investment>, unit: Unit): (ts: seq<TaggedInvestment>)
    ensures |ts| == |invs|
  {
    seq(|invs|, i requires 0 <= i < |invs| => TaggedInvestment(TimePeriodKey(unit, invs[i].createdAt), invs[i].amount))
  }

  function InvestmentsStats(invs: seq<Investment>, unit: Unit): seq<Stat> {
    DefineStats(Tag(invs, unit))
  }

  // --- facts about the grouping ---

  lemma KeysOfSnoc(es: seq<Entry>, e: Entry)
    ensures KeysOf(es + [e]) == KeysOf(es) + [e.key]
  {
  }

  /** `CountOf` is the multiplicity of the key among the entries' keys. */
  lemma {:induction false} CountIsMultiplicity(es: seq<Entry>, k: string)
    ensures CountOf(es, k) == multiset(KeysOf(es))[k]
  {
    if es != [] {
      var p := es[..|es| - 1];
      assert es == p + [es[|es| - 1]];
      KeysOfSnoc(p, es[|es| - 1]);
      CountIsMultiplicity(p, k);
    }
  }

  /** Keys that no entry carries have no count and no amount. */
  lemma {:induction false} AbsentKey(es: seq<Entry>, k: string)
    requires k !in KeysOf(es)
    ensures CountOf(es, k) == 0 && AmountOf(es, k) == 0.0
  {
    if es != [] {
      var p := es[..|es| - 1];
      assert es == p + [es[|es| - 1]];
      KeysOfSnoc(p, es[|es| - 1]);
      AbsentKey(p, k);
    }
  }

  /** Keys that some entry carries have a positive count. */
  lemma PresentKey(es: seq<Entry>, k: string)
    requires k in KeysOf(es)
    ensures CountOf(es, k) >= 1
  {
    CountIsMultiplicity(es, k);
  }

  /** The entry that first carries each key comes in that key's order. */
  lemma {:induction false} FirstIndexSnoc(ks: seq<string>, y: string, x: string)
    requires x in ks
    ensures FirstIndex(ks + [y], x) == FirstIndex(ks, x)
  {
    if ks[0] != x {
      assert (ks + [y])[1..] == ks[1..] + [y];
      FirstIndexSnoc(ks[1..], y, x);
    }
  }

  /** First-occurrence order: earlier in the result means first seen earlier in the input. */
  lemma {:induction false} FirstOccurrencesOrder(ks: seq<string>)
    ensures forall i, j :: 0 <= i < j < |FirstOccurrences(ks)| ==>
      FirstIndex(ks, FirstOccurrences(ks)[i]) < FirstIndex(ks, FirstOccurrences(ks)[j])
  {
    if ks != [] {
      var q := ks[..|ks| - 1];
      var x := ks[|ks| - 1];
      assert ks == q + [x];
      var p := FirstOccurrences(q);
      FirstOccurrencesOrder(q);
      var r := FirstOccurrences(ks);
      assert r == if x in p then p else p + [x];
      forall i, j | 0 <= i < j < |r| ensures FirstIndex(ks, r[i]) < FirstIndex(ks, r[j]) {
        assert r[i] == p[i] && r[i] in q;
        FirstIndexSnoc(q, x, r[i]);
        if j < |p| {
          assert r[j] == p[j] && r[j] in q;
          FirstIndexSnoc(q, x, r[j]);
          assert FirstIndex(q, p[i]) < FirstIndex(q, p[j]);
        } else {
          assert r[j] == x && x !in q;
          var fi := FirstIndex(ks, x);
          assert fi == |q|;
          assert FirstIndex(q, r[i]) < |q|;
        }
      }
    }
  }

  lemma {:induction false} FirstOccurrencesSnoc(ks: seq<string>, x: string)
    ensures FirstOccurrences(ks + [x]) == if x in FirstOccurrences(ks) then FirstOccurrences(ks) else FirstOccurrences(ks) + [x]
  {
    assert (ks + [x])[..|ks + [x]| - 1] == ks;
  }

  lemma StatsForTail(es: seq<Entry>, ks: seq<string>)
    requires ks != []
    ensures StatsFor(es, ks)[1..] == StatsFor(es, ks[1..])
  {
  }

  lemma {:induction false} StatsForNoEntries(ks: seq<string>)
    ensures TotalCount(StatsFor([], ks)) == 0 && TotalAmount(StatsFor([], ks)) == 0.0
  {
    if ks != [] {
      StatsForTail([], ks);
      StatsForNoEntries(ks[1..]);
    }
  }

  /** One more entry adds one to the count and its amount to the total of its own key only. */
  lemma {:induction false} StatsForSnoc(es: seq<Entry>, e: Entry, ks: seq<string>)
    requires Distinct(ks)
    ensures TotalCount(StatsFor(es + [e], ks)) == TotalCount(StatsFor(es, ks)) + (if e.key in ks then 1 else 0)
    ensures TotalAmount(StatsFor(es + [e], ks)) == TotalAmount(StatsFor(es, ks)) + (if e.key in ks then e.amount else 0.0)
  {
    if ks != [] {
      var es' := es + [e];
      assert es'[..|es'| - 1] == es;
      StatsForTail(es, ks);
      StatsForTail(es', ks);
      StatsForSnoc(es, e, ks[1..]);
      if ks[0] == e.key {
        assert e.key !in ks[1..];
      }
    }
  }

  /** Over distinct keys covering every entry, the counts add up to the entries and the totals to their amounts. */
  lemma {:induction false} StatsForTotals(es: seq<Entry>, ks: seq<string>)
    requires Distinct(ks)
    requires forall i :: 0 <= i < |es| ==> es[i].key in ks
    ensures TotalCount(StatsFor(es, ks)) == |es|
    ensures TotalAmount(StatsFor(es, ks)) == SumAmounts(es)
  {
    if es == [] {
      StatsForNoEntries(ks);
    } else {
      var p := es[..|es| - 1];
      var e := es[|es| - 1];
      assert es == p + [e];
      StatsForTotals(p, ks);
      StatsForSnoc(p, e, ks);
    }
  }

  lemma EntryKeys(ts: seq<TaggedInvestment>)
    ensures forall k :: k in KeysOf(ServerEntries(ts)) <==> exists i :: 0 <= i < |ts| && GroupKey(ts[i]) == k
  {
    var ks := KeysOf(ServerEntries(ts));
    forall k ensures k in ks <==> exists i :: 0 <= i < |ts| && GroupKey(ts[i]) == k {
      if k in ks {
        var i :| 0 <= i < |ks| && ks[i] == k;
        assert GroupKey(ts[i]) == k;
      }
      if exists i :: 0 <= i < |ts| && GroupKey(ts[i]) == k {
        var i :| 0 <= i < |ts| && GroupKey(ts[i]) == k;
        assert ks[i] == k;
      }
    }
  }

  /**
   * One element per distinct time period: the keys are pairwise distinct and
   * are exactly the group keys of the records ("null" for undated ones); each
   * element's count is the size of its key's group (at least one) and its
   * total the sum of that group's amounts.
   */
  lemma DefineStatsGroups(ts: seq<TaggedInvestment>)
    ensures var r := DefineStats(ts);
      && Distinct(StatKeys(r))
      && (forall k :: k in StatKeys(r) <==> exists i :: 0 <= i < |ts| && GroupKey(ts[i]) == k)
      && (forall i :: 0 <= i < |r| ==> r[i].count == multiset(KeysOf(ServerEntries(ts)))[r[i].key] >= 1)
      && (forall i :: 0 <= i < |r| ==>
            r[i].count == |Group(ServerEntries(ts), r[i].key)| && r[i].totalAmount == SumAmounts(Group(ServerEntries(ts), r[i].key)))
  {
    var es := ServerEntries(ts);
    var fo := FirstOccurrences(KeysOf(es));
    var order := ObjectKeyOrder(fo);
    ObjectKeyOrderDistinct(fo);
    EntryKeys(ts);
    var r := DefineStats(ts);
    assert StatKeys(r) == order;
    forall i | 0 <= i < |r| ensures r[i].count == multiset(KeysOf(es))[r[i].key] >= 1 {
      CountIsMultiplicity(es, r[i].key);
      PresentKey(es, r[i].key);
    }
    forall i | 0 <= i < |r| ensures r[i].count == |Group(es, r[i].key)| && r[i].totalAmount == SumAmounts(Group(es, r[i].key)) {
      GroupSums(es, r[i].key);
    }
  }

  /** The counts add up to the number of records and the totals to the sum of all amounts: nothing is dropped. */
  lemma DefineStatsTotals(ts: seq<TaggedInvestment>)
    ensures TotalCount(DefineStats(ts)) == |ts|
    ensures TotalAmount(DefineStats(ts)) == SumAmounts(ServerEntries(ts))
  {
    var es := ServerEntries(ts);
    var fo := FirstOccurrences(KeysOf(es));
    ObjectKeyOrderDistinct(fo);
    forall i | 0 <= i < |es| ensures es[i].key in ObjectKeyOrder(fo) {
      assert KeysOf(es)[i] == es[i].key;
    }
    StatsForTotals(es, ObjectKeyOrder(fo));
  }

  /**
   * Order of the elements: keys that are array indices (year keys) come first in
   * ascending numeric order; all other keys follow in first-occurrence order.
   */
  lemma DefineStatsOrder(ts: seq<TaggedInvestment>)
    ensures var ks := StatKeys(DefineStats(ts));
      && (forall i, j :: 0 <= i < j < |ks| && IsArrayIndex(ks[j]) ==> IsArrayIndex(ks[i]) && ParseNat(ks[i]) <= ParseNat(ks[j]))
      && KeysWhere(ks, false) == KeysWhere(FirstOccurrences(KeysOf(ServerEntries(ts))), false)
  {
    var fo := FirstOccurrences(KeysOf(ServerEntries(ts)));
    ObjectKeyOrderShape(fo);
    assert StatKeys(DefineStats(ts)) == ObjectKeyOrder(fo);
  }

  /** For day, week and month no key is an array index, so `Object.keys` keeps first-occurrence order. */
  lemma NonYearStatsFirstOccurrenceOrder(invs: seq<Investment>, unit: Unit)
    requires unit != Year
    ensures var fo := FirstOccurrences(KeysOf(ServerEntries(Tag(invs, unit))));
      ObjectKeyOrder(fo) == fo && StatKeys(InvestmentsStats(invs, unit)) == fo
  {
    var ts := Tag(invs, unit);
    var ks := KeysOf(ServerEntries(ts));
    var fo := FirstOccurrences(ks);
    assert !IsArrayIndex("null");
    forall i | 0 <= i < |ks| ensures !IsArrayIndex(ks[i]) {
      if invs[i].createdAt.Some? {
        SlashKeyIsNotIndex(unit, invs[i].createdAt.value);
      }
    }
    forall i | 0 <= i < |fo| ensures !IsArrayIndex(fo[i]) {
      assert fo[i] in ks;
    }
    NoIndexKeysKeepOrder(fo);
    assert StatKeys(InvestmentsStats(invs, unit)) == ObjectKeyOrder(fo);
  }

  /** Index keys in ascending numeric order, with any non-index "null" key after all of them. */
  predicate AscendingNullLast(ks: seq<string>) {
    forall i, j :: 0 <= i < j < |ks| && ks[j] != "null" ==>
      ks[i] != "null" && IsArrayIndex(ks[i]) && IsArrayIndex(ks[j]) && ParseNat(ks[i]) <= ParseNat(ks[j])
  }

  /**
   * Grouped by year, the year keys come out in ascending numeric order whatever
   * the order of the records, and the "null" bucket, if any, comes last.
   */
  lemma YearStatsAscending(invs: seq<Investment>)
    requires forall i :: 0 <= i < |invs| && invs[i].createdAt.Some? ==> invs[i].createdAt.value.year < 4294967295
    ensures AscendingNullLast(StatKeys(InvestmentsStats(invs, Year)))
  {
    var ts := Tag(invs, Year);
    YearKeysAreIndices(invs);
    IndexKeysAscendNullLast(ts);
    assert InvestmentsStats(invs, Year) == DefineStats(ts);
  }

  /** Every year group key is an array index or "null". */
  lemma YearKeysAreIndices(invs: seq<Investment>)
    requires forall i :: 0 <= i < |invs| && invs[i].createdAt.Some? ==> invs[i].createdAt.value.year < 4294967295
    ensures var ts := Tag(invs, Year);
      forall m :: 0 <= m < |ts| ==> GroupKey(ts[m]) == "null" || IsArrayIndex(GroupKey(ts[m]))
  {
    var ts := Tag(invs, Year);
    forall m | 0 <= m < |ts| ensures GroupKey(ts[m]) == "null" || IsArrayIndex(GroupKey(ts[m])) {
      if invs[m].createdAt.Some? {
        YearKeyIsIndex(invs[m].createdAt.value);
      }
    }
  }

  /** When every group key is an index or "null", the index keys ascend and "null" comes last. */
  lemma IndexKeysAscendNullLast(ts: seq<TaggedInvestment>)
    requires forall m :: 0 <= m < |ts| ==> GroupKey(ts[m]) == "null" || IsArrayIndex(GroupKey(ts[m]))
    ensures AscendingNullLast(StatKeys(DefineStats(ts)))
  {
    DefineStatsOrder(ts);
    StatKeysIndexOrNull(ts);
    NullLast(StatKeys(DefineStats(ts)));
  }

  lemma StatKeysIndexOrNull(ts: seq<TaggedInvestment>)
    requires forall m :: 0 <= m < |ts| ==> GroupKey(ts[m]) == "null" || IsArrayIndex(GroupKey(ts[m]))
    ensures var ks := StatKeys(DefineStats(ts));
      forall j :: 0 <= j < |ks| ==> ks[j] == "null" || IsArrayIndex(ks[j])
  {
    var ks := StatKeys(DefineStats(ts));
    DefineStatsGroups(ts);
    forall j | 0 <= j < |ks| ensures ks[j] == "null" || IsArrayIndex(ks[j]) {
      assert ks[j] in ks;
      var m :| 0 <= m < |ts| && GroupKey(ts[m]) == ks[j];
    }
  }

  /** Index keys first and ascending, and only "null" besides them: then "null" is last. */
  lemma NullLast(ks: seq<string>)
    requires forall i, j :: 0 <= i < j < |ks| && IsArrayIndex(ks[j]) ==> IsArrayIndex(ks[i]) && ParseNat(ks[i]) <= ParseNat(ks[j])
    requires forall j :: 0 <= j < |ks| ==> ks[j] == "null" || IsArrayIndex(ks[j])
    ensures AscendingNullLast(ks)
  {
    assert !IsArrayIndex("null");
  }

  /** An empty input gives an empty result. */
  lemma EmptyStats(unit: Unit)
    ensures InvestmentsStats([], unit) == []
  {
  }
}
