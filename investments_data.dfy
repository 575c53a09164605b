/**
 * The paging arithmetic of `getInvestments` (src/investments/investments.data.ts):
 * `take = offset`, `skip = offset * (page - 1)`, a `total` counted with the
 * same filter, and `totalPages = Math.ceil(total / offset)`. The database is
 * abstract: `matching` stands for the filtered, sorted records.
 */
module InvestmentsData {
  import opened Wrappers

  /** `Math.ceil` on a finite value. */
  function Ceil(x: real): (c: int)
    ensures (c - 1) as real < x <= c as real
  {
    -((-x).Floor)
  }

  function Take(offset: int): int {
    offset
  }

  function Skip(page: int, offset: int): int {
    offset * (page - 1)
  }

  /** `Math.ceil(count / offset)`; a zero offset gives `Infinity` or `NaN`, modelled as `None`. */
  function TotalPages(count: nat, offset: int): (t: Option<int>)
    ensures t.Some? <==> offset != 0
  {
    if offset == 0 then None else Some(Ceil(count as real / offset as real))
  }

  /** With a positive offset, `totalPages` is the least number of pages that hold every record. */
  lemma TotalPagesBounds(count: nat, offset: int)
    requires offset > 0
    ensures var t := TotalPages(count, offset).value;
      && t >= 0
      && (count == 0 <==> t == 0)
      && t * offset >= count
      && (count > 0 ==> (t - 1) * offset < count)
  {
    var x := count as real / offset as real;
    var t := Ceil(x);
    assert x * offset as real == count as real;
    assert (t - 1) as real < x <= t as real;
    assert ((t - 1) as real) * (offset as real) < x * (offset as real);
    assert x * (offset as real) <= (t as real) * (offset as real);
    assert ((t - 1) * offset) as real < count as real;
    assert count as real <= (t * offset) as real;
    if count == 0 {
      assert t - 1 < 0;
    }
  }

  datatype Pagination = Pagination(total: nat, offset: int, page: int, totalPages: Option<int>)

  datatype Envelope<R> = Envelope(data: seq<R>, pagination: Pagination)

  function Min(a: int, b: int): int {
    if a <= b then a else b
  }

  /** `findMany({skip, take})` for a page of at least 1 and a positive offset: the window of `take` rows after `skip`. */
  function PageRows<R>(matching: seq<R>, page: int, offset: int): (rows: seq<R>)
    requires page >= 1 && offset >= 1
    ensures Skip(page, offset) >= 0
    ensures rows == Window(matching, Skip(page, offset), Take(offset))
  {
    SkipNonNegative(page, offset);
    Window(matching, Skip(page, offset), Take(offset))
  }

  /** The rows `skip` to `skip + take` of `matching`, cut short at its end. */
  function Window<R>(matching: seq<R>, skip: nat, take: nat): (rows: seq<R>)
    ensures |rows| <= take
    ensures forall i :: 0 <= i < |rows| ==> skip + i < |matching| && rows[i] == matching[skip + i]
    ensures skip + take <= |matching| ==> |rows| == take
  {
    matching[Min(skip, |matching|)..Min(skip + take, |matching|)]
  }

  lemma SkipNonNegative(page: int, offset: int)
    requires page >= 1 && offset >= 1
    ensures Skip(page, offset) >= 0
  {
    MulMonotone(page - 1, 0, offset);
  }

  /** `getInvestments`: one page of rows and the pagination envelope. */
  function GetInvestments<R>(matching: seq<R>, page: int, offset: int): (e: Envelope<R>)
    requires page >= 1 && offset >= 1
    ensures e.pagination.total == |matching|
    ensures e.pagination.offset == offset && e.pagination.page == page
    ensures e.pagination.totalPages == TotalPages(|matching|, offset)
    ensures e.data == PageRows(matching, page, offset)
  {
    Envelope(PageRows(matching, page, offset), Pagination(|matching|, offset, page, TotalPages(|matching|, offset)))
  }

  /** Page 1 skips nothing. */
  lemma FirstPageSkipsNothing(offset: int)
    ensures Skip(1, offset) == 0
  {
  }

  lemma MulMonotone(a: int, b: int, o: int)
    requires o > 0 && a >= b
    ensures a * o >= b * o
  {
    assert a * o - b * o == (a - b) * o;
  }

  /**
   * Every matching record appears on exactly one page: record `k` is row
   * `k % offset` of page `k / offset + 1`, and that page is within `totalPages`.
   */
  lemma EveryRecordOnItsPage<R>(matching: seq<R>, offset: int, k: nat)
    requires offset >= 1 && k < |matching|
    ensures var page := k / offset + 1;
      && page <= TotalPages(|matching|, offset).value
      && k % offset < |PageRows(matching, page, offset)|
      && PageRows(matching, page, offset)[k % offset] == matching[k]
  {
    var d, r := k / offset, k % offset;
    DivMod(k, offset);
    var page := d + 1;
    var skip := Skip(page, offset);
    assert skip == offset * d;
    PageWithinTotal(|matching|, offset, d);
    var rows := PageRows(matching, page, offset);
    assert rows == matching[skip..Min(skip + offset, |matching|)];
  }

  lemma DivMod(k: nat, offset: int)
    requires offset >= 1
    ensures k == offset * (k / offset) + k % offset
    ensures k / offset >= 0 && 0 <= k % offset < offset
  {
  }

  /** A page whose first row exists lies within `totalPages`. */
  lemma PageWithinTotal(count: nat, offset: int, d: nat)
    requires offset >= 1 && offset * d < count
    ensures d + 1 <= TotalPages(count, offset).value
  {
    TotalPagesBounds(count, offset);
    var t := TotalPages(count, offset).value;
    if d >= t {
      MulMonotone(d, t, offset);
      assert false;
    }
  }
}
