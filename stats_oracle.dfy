/**
 * The reference aggregator of the statistics test (tests/utils/test.util.ts,
 * `calculateInvestmentStatsByInvestments`): a loop that skips undated and
 * zero-amount records, looks the key up with `findIndex`, and either pushes a
 * new `{key: {count: 1, total_amount}}` element or bumps the one it found.
 */
module StatsOracle {
  import opened Wrappers
  import opened ObjectKeys
  import opened StatsUtil
  import opened NumberText

  /**
   * `!investment.created_at || !investment.amount`, stated on the keyed record:
   * a record has a key exactly when it has a date.
   */
  predicate Skipped(t: TaggedInvestment) {
    t.timePeriod.None? || t.amount == 0.0
  }

  /** `stats.findIndex(s => Object.keys(s)[0] === key)`. */
  function KeyIndex(stats: seq<Stat>, key: string): (r: int)
    ensures -1 <= r < |stats|
    ensures r >= 0 ==> stats[r].key == key && forall j :: 0 <= j < r ==> stats[j].key != key
    ensures r == -1 ==> forall j :: 0 <= j < |stats| ==> stats[j].key != key
  {
    if stats == [] then -1
    else if stats[0].key == key then 0
    else
      var r := KeyIndex(stats[1..], key);
      if r == -1 then -1 else r + 1
  }

  /** One iteration of the loop for a record that is not skipped. */
  function OracleStep(stats: seq<Stat>, e: Entry): seq<Stat> {
    var j := KeyIndex(stats, e.key);
    if j == -1 then stats + [Stat(e.key, 1, e.amount)]
    else stats[j := Stat(e.key, stats[j].count + 1, stats[j].totalAmount + e.amount)]
  }

  /** The array the loop has built after the given keyed records. */
  function OracleFold(ts: seq<TaggedInvestment>): seq<Stat> {
    if ts == [] then []
    else
      var stats := OracleFold(ts[..|ts| - 1]);
      var t := ts[|ts| - 1];
      if Skipped(t) then stats else OracleStep(stats, Entry(t.timePeriod.value, t.amount))
  }

  /** The reference result for `investments` grouped by `unit`. */
  function OracleStats(invs: seq<Investment>, unit: Unit): seq<Stat> {
    OracleFold(Tag(invs, unit))
  }

  /** One more record: the loop either skips it or takes one step. */
  lemma OracleFoldSnoc(ts: seq<TaggedInvestment>, i: nat)
    requires i < |ts|
    ensures OracleFold(ts[..i + 1]) ==
      if Skipped(ts[i]) then OracleFold(ts[..i])
      else OracleStep(OracleFold(ts[..i]), Entry(ts[i].timePeriod.value, ts[i].amount))
  {
    assert ts[..i + 1][..i] == ts[..i];
  }

  method FindIndex(stats: seq<Stat>, key: string) returns (index: int)
    ensures index == KeyIndex(stats, key)
  {
    index := 0;
    while index < |stats|
      invariant 0 <= index <= |stats|
      invariant forall j :: 0 <= j < index ==> stats[j].key != key
    {
      if stats[index].key == key {
        return;
      }
      index := index + 1;
    }
    index := -1;
  }

  /** The body of the loop for a kept record: push a new element or bump the one found. */
  method AddToStats(stats: seq<Stat>, key: string, amount: real) returns (r: seq<Stat>)
    ensures r == OracleStep(stats, Entry(key, amount))
  {
    var existing := FindIndex(stats, key);
    if existing == -1 {
      r := stats + [Stat(key, 1, amount)];
    } else {
      r := stats[existing := Stat(key, stats[existing].count + 1, stats[existing].totalAmount + amount)];
    }
  }

  method CalculateStats(investments: seq<Investment>, groupBy: Unit) returns (stats: seq<Stat>)
    ensures stats == OracleStats(investments, groupBy)
  {
    ghost var ts := Tag(investments, groupBy);
    stats := [];
    for i := 0 to |investments|
      invariant stats == OracleFold(ts[..i])
    {
      OracleFoldSnoc(ts, i);
      var investment := investments[i];
      if investment.createdAt.None? || investment.amount == 0.0 {
        continue;
      }
      var key := TimePeriodKey(groupBy, investment.createdAt).value;
      stats := AddToStats(stats, key, investment.amount);
    }
    assert ts[..|investments|] == ts;
  }

  // ---------------------------------------------------------------------
  // What the loop computes
  // ---------------------------------------------------------------------

  /** The records the loop does not skip, reduced to key and amount. */
  function Kept(ts: seq<TaggedInvestment>): seq<Entry> {
    if ts == [] then []
    else
      var es := Kept(ts[..|ts| - 1]);
      var t := ts[|ts| - 1];
      if Skipped(t) then es else es + [Entry(t.timePeriod.value, t.amount)]
  }

  /** Grouping of `es` in first-occurrence order. */
  function Grouped(es: seq<Entry>): seq<Stat> {
    StatsFor(es, FirstOccurrences(KeysOf(es)))
  }

  lemma CountSnoc(es: seq<Entry>, e: Entry, k: string)
    ensures CountOf(es + [e], k) == CountOf(es, k) + (if e.key == k then 1 else 0)
    ensures AmountOf(es + [e], k) == AmountOf(es, k) + (if e.key == k then e.amount else 0.0)
  {
    assert (es + [e])[..|es|] == es;
  }

  /** A record under a key not seen yet appends a new element with count 1. */
  lemma StepNewKey(es: seq<Entry>, e: Entry)
    requires e.key !in FirstOccurrences(KeysOf(es))
    ensures Grouped(es) + [Stat(e.key, 1, e.amount)] == Grouped(es + [e])
  {
    var fo := FirstOccurrences(KeysOf(es));
    KeysOfSnoc(es, e);
    FirstOccurrencesSnoc(KeysOf(es), e.key);
    assert FirstOccurrences(KeysOf(es + [e])) == fo + [e.key];
    AbsentKey(es, e.key);
    var lhs, rhs := Grouped(es) + [Stat(e.key, 1, e.amount)], Grouped(es + [e]);
    forall i | 0 <= i < |rhs| ensures lhs[i] == rhs[i] {
      CountSnoc(es, e, (fo + [e.key])[i]);
    }
  }

  /** A record under a key already seen bumps that element and no other. */
  lemma StepKnownKey(es: seq<Entry>, e: Entry, m: nat)
    requires m < |FirstOccurrences(KeysOf(es))| && FirstOccurrences(KeysOf(es))[m] == e.key
    ensures var g := Grouped(es);
      g[m := Stat(e.key, g[m].count + 1, g[m].totalAmount + e.amount)] == Grouped(es + [e])
  {
    var fo := FirstOccurrences(KeysOf(es));
    KeysOfSnoc(es, e);
    FirstOccurrencesSnoc(KeysOf(es), e.key);
    assert FirstOccurrences(KeysOf(es + [e])) == fo;
    var g := Grouped(es);
    var lhs, rhs := g[m := Stat(e.key, g[m].count + 1, g[m].totalAmount + e.amount)], Grouped(es + [e]);
    forall i | 0 <= i < |rhs| ensures lhs[i] == rhs[i] {
      CountSnoc(es, e, fo[i]);
    }
  }

  /** A step of the loop turns the grouping of the records so far into that of one more record. */
  lemma StepExtendsGrouping(es: seq<Entry>, e: Entry)
    ensures OracleStep(Grouped(es), e) == Grouped(es + [e])
  {
    var g := Grouped(es);
    assert StatKeys(g) == FirstOccurrences(KeysOf(es));
    var j := KeyIndex(g, e.key);
    KeyIndexInKeys(g, e.key);
    if j == -1 {
      StepNewKey(es, e);
    } else {
      StepKnownKey(es, e, j);
    }
  }

  /** `findIndex` on the elements is a lookup among their keys. */
  lemma KeyIndexInKeys(stats: seq<Stat>, key: string)
    ensures KeyIndex(stats, key) == -1 <==> key !in StatKeys(stats)
    ensures KeyIndex(stats, key) >= 0 ==> StatKeys(stats)[KeyIndex(stats, key)] == key
  {
    var ks := StatKeys(stats);
    var r := KeyIndex(stats, key);
    if r >= 0 {
      assert ks[r] == key;
    }
    if key in ks {
      var m :| 0 <= m < |ks| && ks[m] == key;
      assert stats[m].key == key;
    }
  }

  /** The loop computes the first-occurrence grouping of the records it does not skip. */
  lemma {:induction false} OracleIsGrouping(ts: seq<TaggedInvestment>)
    ensures OracleFold(ts) == Grouped(Kept(ts))
  {
    if ts != [] {
      var prefix := ts[..|ts| - 1];
      OracleIsGrouping(prefix);
      var t := ts[|ts| - 1];
      if !Skipped(t) {
        StepExtendsGrouping(Kept(prefix), Entry(t.timePeriod.value, t.amount));
      }
    }
  }

  /**
   * What the test's reference promises: distinct keys in first-occurrence
   * order, every count positive, counts adding up to the records not skipped
   * and totals to their amounts.
   */
  lemma OracleProperties(invs: seq<Investment>, unit: Unit)
    ensures var r := OracleStats(invs, unit);
      var es := Kept(Tag(invs, unit));
      && Distinct(StatKeys(r))
      && StatKeys(r) == FirstOccurrences(KeysOf(es))
      && (forall i :: 0 <= i < |r| ==> r[i].count >= 1)
      && TotalCount(r) == |es|
      && TotalAmount(r) == SumAmounts(es)
  {
    OracleIsGrouping(Tag(invs, unit));
    var es := Kept(Tag(invs, unit));
    var fo := FirstOccurrences(KeysOf(es));
    var r := OracleStats(invs, unit);
    assert StatKeys(r) == fo;
    forall i | 0 <= i < |r| ensures r[i].count >= 1 {
      PresentKey(es, fo[i]);
    }
    forall i | 0 <= i < |es| ensures es[i].key in fo {
      assert KeysOf(es)[i] == es[i].key;
    }
    StatsForTotals(es, fo);
  }

  /** Records that are all keyed and non-zero are all kept: the loop's entries are the server's. */
  lemma {:induction false} KeptAll(ts: seq<TaggedInvestment>)
    requires forall i :: 0 <= i < |ts| ==> ts[i].timePeriod.Some? && ts[i].amount != 0.0
    ensures Kept(ts) == ServerEntries(ts)
  {
    if ts != [] {
      var n := |ts| - 1;
      var prefix := ts[..n];
      KeptAll(prefix);
      var k, k' := Kept(ts), ServerEntries(ts);
      assert k == ServerEntries(prefix) + [Entry(ts[n].timePeriod.value, ts[n].amount)];
      forall i | 0 <= i < |ts| ensures k[i] == k'[i] {
        if i < n {
          assert prefix[i] == ts[i];
        }
      }
    }
  }

  /** A dated, non-zero record gets a key and is not skipped. */
  lemma NoneSkipped(invs: seq<Investment>, unit: Unit)
    requires forall i :: 0 <= i < |invs| ==> invs[i].createdAt.Some? && invs[i].amount != 0.0
    ensures forall i :: 0 <= i < |invs| ==> Tag(invs, unit)[i].timePeriod.Some? && Tag(invs, unit)[i].amount != 0.0
  {
  }

  /**
   * The stats test's comparison: with every record dated and non-zero, the
   * reference equals the server's result for day, week and month.
   */
  lemma OracleAgreesWithServer(invs: seq<Investment>, unit: Unit)
    requires forall i :: 0 <= i < |invs| ==> invs[i].createdAt.Some? && invs[i].amount != 0.0
    requires unit != Year
    ensures OracleStats(invs, unit) == InvestmentsStats(invs, unit)
  {
    OracleIsGrouping(Tag(invs, unit));
    NoneSkipped(invs, unit);
    KeptAll(Tag(invs, unit));
    NonYearStatsFirstOccurrenceOrder(invs, unit);
  }

  /**
   * For years the two agree when the records come in non-decreasing year order
   * (as for records of a single day, the test's case), since the server lists
   * year keys in ascending order.
   */
  lemma OracleAgreesWithServerByYear(invs: seq<Investment>)
    requires forall i :: 0 <= i < |invs| ==>
      invs[i].createdAt.Some? && invs[i].amount != 0.0 && invs[i].createdAt.value.year < 4294967295
    requires forall i, j :: 0 <= i < j < |invs| && invs[i].createdAt.Some? && invs[j].createdAt.Some? ==>
      invs[i].createdAt.value.year <= invs[j].createdAt.value.year
    ensures OracleStats(invs, Year) == InvestmentsStats(invs, Year)
  {
    var ts := Tag(invs, Year);
    OracleIsGrouping(ts);
    NoneSkipped(invs, Year);
    KeptAll(ts);
    var ks := KeysOf(ServerEntries(ts));
    var fo := FirstOccurrences(ks);
    forall i | 0 <= i < |ks| ensures IsArrayIndex(ks[i]) && ParseNat(ks[i]) == invs[i].createdAt.value.year {
      YearKeyIsIndex(invs[i].createdAt.value);
    }
    FirstOccurrencesOrder(ks);
    forall i | 0 <= i < |fo| ensures IsArrayIndex(fo[i]) {
      assert ks[FirstIndex(ks, fo[i])] == fo[i];
    }
    forall i, j | 0 <= i < j < |fo| ensures ParseNat(fo[i]) <= ParseNat(fo[j]) {
      var a, b := FirstIndex(ks, fo[i]), FirstIndex(ks, fo[j]);
      assert ks[a] == fo[i] && ks[b] == fo[j];
    }
    AscendingKeysKeepOrder(fo);
  }
}
