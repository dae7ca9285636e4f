/** Page numbers as the list requests report them, and the rows behind the pages. */
module Paging {
  import opened Decimal

  datatype Pagination = Pagination(page: u64, totalPage: u64, totalItems: u64)

  function Wrap(x: nat): (r: u64)
    ensures x < TWO_64 ==> r == x
  {
    x % TWO_64
  }

  /** Unsigned arithmetic wraps; a limit of zero means one page. */
  function Paginate(total: u64, limit: u64, offset: u64): Pagination {
    if limit == 0 then
      Pagination(1, 1, total)
    else
      Pagination(Wrap(offset / limit + 1), Wrap(total + limit - 1) / limit, total)
  }

  function Min(a: nat, b: nat): nat {
    if a < b then a else b
  }

  /** What LIMIT and OFFSET select. */
  function Slice<T>(rows: seq<T>, offset: nat, limit: nat): seq<T> {
    rows[Min(offset, |rows|)..Min(offset + limit, |rows|)]
  }

  /** The pages at offsets 0, step, 2 * step, ..., each of at most `size` rows, one after another. */
  function Pages<T>(rows: seq<T>, step: nat, size: nat, count: nat): seq<T> {
    if count == 0 then []
    else Pages(rows, step, size, count - 1) + Slice(rows, (count - 1) * step, size)
  }

  lemma {:induction false} PagesArePrefix<T>(rows: seq<T>, step: nat, count: nat)
    ensures Pages(rows, step, step, count) == rows[..Min(count * step, |rows|)]
  {
    if count > 0 {
      PagesArePrefix(rows, step, count - 1);
      assert (count - 1) * step + step == count * step;
    }
  }

  lemma DivBounds(x: nat, d: nat)
    requires d > 0
    ensures d * (x / d) <= x < d * (x / d) + d
  {
  }

  lemma MulOrder(a: int, b: int, d: int)
    requires a < b && d > 0
    ensures a * d + d <= b * d
  {
    assert (b - a) * d == b * d - a * d;
    assert (b - a - 1) * d >= 0;
    assert (b - a - 1) * d == (b - a) * d - d;
  }

  /** Without wrapping, the page count is the least number of pages that hold all the rows. */
  lemma PageCount(total: u64, limit: u64, offset: u64)
    requires limit > 0 && total + limit - 1 < TWO_64
    ensures var n := Paginate(total, limit, offset).totalPage;
            total <= n * limit && (n > 0 ==> (n - 1) * limit < total) && (total > 0 ==> n > 0)
  {
    var n := (total + limit - 1) / limit;
    assert Wrap(total + limit - 1) == total + limit - 1;
    DivBounds(total + limit - 1, limit);
    assert n * limit == limit * n;
    assert (n - 1) * limit == n * limit - limit;
  }

  lemma QuotientBelow(x: nat, total: nat, n: nat, d: nat)
    requires d > 0 && x < total <= n * d
    ensures x / d < n && (x / d) * d <= x < (x / d + 1) * d
  {
    var q := x / d;
    DivBounds(x, d);
    assert q * d == d * q && (q + 1) * d == q * d + d;
    if n < q {
      MulOrder(n, q, d);
    }
  }

  /** Every offset below the total lies on a page between the first and the last one. */
  lemma OffsetOnAPage(total: u64, limit: u64, offset: u64)
    requires limit > 0 && total + limit - 1 < TWO_64 && offset < total
    ensures var p := Paginate(total, limit, offset);
            && 1 <= p.page <= p.totalPage
            && (p.page - 1) * limit <= offset < p.page * limit
  {
    var p := Paginate(total, limit, offset);
    PageCount(total, limit, offset);
    QuotientBelow(offset, total, p.totalPage, limit);
    PageOfOffset(total, limit, offset);
  }

  lemma PageOfOffset(total: u64, limit: u64, offset: u64)
    requires limit > 0 && offset / limit + 1 < TWO_64
    ensures Paginate(total, limit, offset).page == offset / limit + 1
  {
  }

  /** The first pages hold every row exactly once and in order just when there are at least as many as
      the reported page count; fewer leave rows out. */
  lemma PagesCoverIff<T>(rows: seq<T>, limit: u64, offset: u64, count: nat)
    requires |rows| < TWO_64 && limit > 0 && |rows| + limit - 1 < TWO_64
    ensures Pages(rows, limit, limit, count) == rows <==> Paginate(|rows|, limit, offset).totalPage <= count
  {
    var n := Paginate(|rows|, limit, offset).totalPage;
    PageCount(|rows|, limit, offset);
    PagesArePrefix(rows, limit, count);
    if n <= count {
      if n < count {
        MulOrder(n, count, limit);
      }
      assert Min(count * limit, |rows|) == |rows|;
    } else {
      if count < n - 1 {
        MulOrder(count, n - 1, limit);
      }
      assert count * limit < |rows|;
    }
  }

  ghost predicate Distinct<T>(rows: seq<T>) {
    forall i, j | 0 <= i < j < |rows| :: rows[i] != rows[j]
  }

  lemma {:induction false} PagesGrow<T>(rows: seq<T>, step: nat, size: nat, few: nat, many: nat)
    requires few <= many
    ensures Pages(rows, step, size, few) <= Pages(rows, step, size, many)
  {
    if few < many {
      PagesGrow(rows, step, size, few, many - 1);
    }
  }

  lemma OneMorePage<T>(rows: seq<T>, step: nat, size: nat, count: nat, offset: nat)
    requires offset == count * step
    ensures Pages(rows, step, size, count + 1) == Pages(rows, step, size, count) + Slice(rows, offset, size)
  {
  }

  lemma TwoPages<T>(rows: seq<T>, step: nat, size: nat)
    ensures Pages(rows, step, size, 2) == Slice(rows, 0, size) + Slice(rows, step, size)
  {
    OneMorePage(rows, step, size, 0, 0);
    OneMorePage(rows, step, size, 1, step);
  }

  /** Pages whose size is not their distance repeat rows or leave some out. */
  lemma WrongStepMismatch<T>(rows: seq<T>, step: nat, size: nat, count: nat)
    requires Distinct(rows) && step != size && size > 0 && 2 <= count && step < |rows|
    ensures Pages(rows, step, size, count) != rows
  {
    TwoPages(rows, step, size);
    PagesGrow(rows, step, size, 2, count);
    var first, second := Slice(rows, 0, size), Slice(rows, step, size);
    assert second[0] == rows[step];
    assert (first + second)[|first|] == rows[step];
  }
}
