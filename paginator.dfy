/**
 * `PaginatorUtil` of the project-management API: the offset of a page, and
 * the envelope a page of results is returned in.
 */
module Paginator {
  import opened Wrappers
  import opened Arith
  import opened JsText

  /** What `calculateOffset` returns: rows to skip, rows to take. */
  datatype PaginatorOffset = PaginatorOffset(skip: int, take: int)

  /** What `mapper` returns. */
  datatype PaginatorDto<T> = PaginatorDto(total: int, items: seq<T>, totalPages: int, currentPage: int)

  /** `calculateOffset(page, limit)`: skip the `page` pages before it, take one page. */
  function CalculateOffset(page: int, limit: int): (o: PaginatorOffset)
    ensures o.take == limit
    ensures o.skip == page * limit
  {
    PaginatorOffset(page * limit, limit)
  }

  /** The rows `[skip, skip + take)` an offset selects, cut at `count`. */
  function Window(o: PaginatorOffset, count: int): (w: Span)
    ensures w.start == o.skip
    ensures w.end <= o.skip + o.take && w.end <= count
    ensures w.end == o.skip + o.take || w.end == count
  {
    Span(o.skip, Min(o.skip + o.take, count))
  }

  /** `Math.ceil(count / limit)` for a non-zero `limit`, as a real division rounded up. */
  function TotalPages(count: int, limit: int): (t: int)
    requires limit != 0
    ensures limit > 0 ==> (t - 1) * limit < count <= t * limit
    ensures limit < 0 ==> (t - 1) * -limit < -count <= t * -limit
  {
    if limit > 0 then CeilDiv(count, limit) else CeilDiv(-count, -limit)
  }

  /** `page ? +page : 0`: a page that is absent, 0 or NaN is page 0. */
  function CurrentPage(page: Option<Num>): (p: int)
    ensures page.Some? && page.value.Int? ==> p == page.value.value
    ensures !(page.Some? && page.value.Int?) ==> p == 0
  {
    if page.Some? && page.value.Int? && page.value.value != 0 then page.value.value else 0
  }

  /**
   * `mapper(data, count, page, limit)`: the items and the total pass through
   * unchanged; `totalPages` is `ceil(count / limit)` and `currentPage` the
   * page asked for, 0 when none was.
   */
  function Mapper<T>(data: seq<T>, count: int, page: Option<Num>, limit: int): (d: PaginatorDto<T>)
    requires limit != 0
    ensures d.total == count && d.items == data
    ensures d.currentPage == CurrentPage(page)
    ensures limit > 0 && count > 0 ==> (d.totalPages - 1) * limit < count <= d.totalPages * limit
    ensures limit > 0 && count == 0 ==> d.totalPages == 0
  {
    var d := PaginatorDto(count, data, TotalPages(count, limit), CurrentPage(page));
    if limit > 0 && count == 0 then
      CeilDivUnique(0, limit, 0);
      d
    else d
  }

  /**
   * For `limit > 0` and `count >= 0`, the windows of pages `0 .. totalPages - 1`
   * tile `[0, count)`: consecutive, non-empty, covering every row exactly
   * once; every page from `totalPages` on is empty.
   */
  lemma PagesTile(count: int, limit: int)
    requires limit > 0 && count >= 0
    ensures TotalPages(count, limit) >= 0
    ensures Tiles(seq(TotalPages(count, limit), p => Window(CalculateOffset(p, limit), count)), 0, count)
    ensures forall p :: p >= TotalPages(count, limit) ==> Window(CalculateOffset(p, limit), count).Size() <= 0
  {
    var t := TotalPages(count, limit);
    SlicesTile(count, limit);
    assert seq(t, p => Window(CalculateOffset(p, limit), count)) == Slices(count, limit, t);
    forall p | p >= t ensures Window(CalculateOffset(p, limit), count).Size() <= 0 {
      SliceNonEmpty(count, limit, p);
    }
  }

  /** For `limit > 0`, row `x` of `[0, count)` lies in the window of exactly one page, and that page is below `totalPages`. */
  lemma PageOfRow(count: int, limit: int, x: int) returns (p: nat)
    requires limit > 0 && 0 <= x < count
    ensures p < TotalPages(count, limit)
    ensures Window(CalculateOffset(p, limit), count).start <= x < Window(CalculateOffset(p, limit), count).end
    ensures forall q: nat :: Window(CalculateOffset(q, limit), count).start <= x < Window(CalculateOffset(q, limit), count).end ==> q == p
  {
    var t := TotalPages(count, limit);
    PagesTile(count, limit);
    var pages := seq(t, q => Window(CalculateOffset(q, limit), count));
    p := TilesLocate(pages, 0, count, x);
    forall q: nat | Window(CalculateOffset(q, limit), count).start <= x < Window(CalculateOffset(q, limit), count).end
      ensures q == p
    {
      if q < t {
        assert pages[q].start <= x < pages[q].end;
      }
    }
  }

  /** Page `p` and page `p + 1` are adjacent: the next page starts where this one ends. */
  lemma PagesAdjacent(page: int, limit: int)
    ensures CalculateOffset(page + 1, limit).skip == CalculateOffset(page, limit).skip + CalculateOffset(page, limit).take
  {
    assert (page + 1) * limit == page * limit + limit;
  }
}
