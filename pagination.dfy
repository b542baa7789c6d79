/**
 * A page of results and the validated page/limit pair of a paginated query
 * (src/shared/application/Paginated.ts, src/shared/application/queries/paginated.query.ts).
 */
module Pagination {
  import opened Optional
  import opened DomainErrors
  import opened Throwing

  /** What `Math.ceil(totalItems / currentLimit)` evaluates to, division by zero included. */
  datatype PageCount = Pages(n: int) | Infinite | NotANumber

  /** The least number of pages of `limit` items that holds `items` items. */
  function CeilDiv(items: nat, limit: nat): (pages: nat)
    requires limit >= 1
  {
    (items + limit - 1) / limit
  }

  /** `CeilDiv` is the ceiling: the pages hold every item and one page fewer would not. */
  lemma CeilDivIsCeiling(items: nat, limit: nat)
    requires limit >= 1
    ensures var pages := CeilDiv(items, limit);
      (pages - 1) * limit < items <= pages * limit || (items == 0 && pages == 0)
  {
    var pages := CeilDiv(items, limit);
    var rest := (items + limit - 1) % limit;
    assert items + limit - 1 == pages * limit + rest;
    assert 0 <= rest < limit;
  }

  function TotalPages(totalItems: nat, currentLimit: int): (r: PageCount)
  {
    if currentLimit >= 1 then Pages(CeilDiv(totalItems, currentLimit))
    else if currentLimit == 0 then (if totalItems == 0 then NotANumber else Infinite)
    else Pages(-(totalItems / -currentLimit))
  }

  datatype Paginated<+T> = Paginated(
    totalItems: nat,
    data: seq<T>,
    currentPage: int,
    currentLimit: int,
    totalPages: PageCount)

  /** `new Paginated(props)`: stores the props and derives the page count. */
  function NewPaginated<T>(totalItems: nat, data: seq<T>, currentPage: int, currentLimit: int): (p: Paginated<T>)
    ensures p.totalItems == totalItems && p.data == data
    ensures p.currentPage == currentPage && p.currentLimit == currentLimit
    ensures currentLimit >= 1 ==> p.totalPages.Pages? && p.totalPages.n >= 0
    ensures currentLimit >= 1 ==>
      (p.totalPages.n - 1) * currentLimit < totalItems <= p.totalPages.n * currentLimit
      || (totalItems == 0 && p.totalPages.n == 0)
  {
    var page := Paginated(totalItems, data, currentPage, currentLimit, TotalPages(totalItems, currentLimit));
    if currentLimit >= 1 then CeilDivIsCeiling(totalItems, currentLimit); page else page
  }

  /** With a positive limit, every page up to the last one starts on an existing item. */
  lemma PagesStartInside(totalItems: nat, limit: nat, page: nat)
    requires limit >= 1 && 1 <= page <= CeilDiv(totalItems, limit)
    ensures (page - 1) * limit < totalItems
  {
    CeilDivIsCeiling(totalItems, limit);
    var pages := CeilDiv(totalItems, limit);
    assert (page - 1) * limit <= (pages - 1) * limit by {
      MultiplyMonotone(page - 1, pages - 1, limit);
    }
  }

  lemma MultiplyMonotone(a: nat, b: nat, c: nat)
    requires a <= b
    ensures a * c <= b * c
  {
  }

  const DefaultPage := 1.0
  const DefaultLimit := 12.0
  const MaxLimit := 100.0
  const InvalidQueryMessage := "PaginatedQuery is not valid."
  /** The messages class-validator gives for the failed constraints. */
  const PageNotWholeMessage := "page must be a number conforming to the specified constraints"
  const PageTooSmallMessage := "page must not be less than 1"
  const LimitNotWholeMessage := "limit must be a number conforming to the specified constraints"
  const LimitTooSmallMessage := "limit must not be less than 1"
  const LimitTooLargeMessage := "limit must not be greater than 100"

  /** The page and limit a query runs with. */
  datatype PaginatedQuery = PaginatedQuery(page: real, limit: real)

  /** `maxDecimalPlaces: 0` */
  predicate IsWhole(x: real) {
    x.Floor as real == x
  }

  /** The messages of the failed constraints on `page`. */
  function PageViolations(page: real): (r: seq<string>)
    ensures |r| == 0 <==> IsWhole(page) && page >= 1.0
    ensures PageNotWholeMessage in r <==> !IsWhole(page)
    ensures PageTooSmallMessage in r <==> page < 1.0
    ensures forall m :: m in r ==> m == PageNotWholeMessage || m == PageTooSmallMessage
    ensures |r| <= 2
  {
    (if IsWhole(page) then [] else [PageNotWholeMessage])
    + (if page >= 1.0 then [] else [PageTooSmallMessage])
  }

  /** The messages of the failed constraints on `limit`. */
  function LimitViolations(limit: real): (r: seq<string>)
    ensures |r| == 0 <==> IsWhole(limit) && 1.0 <= limit <= MaxLimit
    ensures LimitNotWholeMessage in r <==> !IsWhole(limit)
    ensures LimitTooSmallMessage in r <==> limit < 1.0
    ensures LimitTooLargeMessage in r <==> limit > MaxLimit
    ensures forall m :: m in r ==> m == LimitNotWholeMessage || m == LimitTooSmallMessage || m == LimitTooLargeMessage
    ensures |r| <= 3
  {
    (if IsWhole(limit) then [] else [LimitNotWholeMessage])
    + (if limit >= 1.0 then [] else [LimitTooSmallMessage])
    + (if limit <= MaxLimit then [] else [LimitTooLargeMessage])
  }

  /**
   * The query constructor: a missing page is 1 and a missing limit 12; the pair is then
   * validated and any violation is a thrown Validation error listing every message.
   */
  function NewPaginatedQuery(page: Option<real>, limit: Option<real>): (r: Try<PaginatedQuery>)
    ensures var p, l := page.GetOr(DefaultPage), limit.GetOr(DefaultLimit);
      && (r.Returned? <==> IsWhole(p) && p >= 1.0 && IsWhole(l) && 1.0 <= l <= MaxLimit)
      && (r.Returned? ==> r.value == PaginatedQuery(p, l))
      && (r.Threw? ==> r.thrown.DomainThrown? && r.thrown.error.errorType == Validation
                       && r.thrown.error.message == InvalidQueryMessage
                       && r.thrown.error.errors.Some? && |r.thrown.error.errors.value| > 0
                       && multiset(r.thrown.error.errors.value) == multiset(PageViolations(p) + LimitViolations(l)))
  {
    var p, l := page.GetOr(DefaultPage), limit.GetOr(DefaultLimit);
    var violations := PageViolations(p) + LimitViolations(l);
    if |violations| == 0 then Returned(PaginatedQuery(p, l))
    else Threw(DomainThrown(ValidationError(InvalidQueryMessage, violations)))
  }

  /** A query with neither page nor limit asks for the first twelve items. */
  lemma DefaultsAreValid()
    ensures NewPaginatedQuery(None, None) == Returned(PaginatedQuery(1.0, 12.0))
  {
  }

  /** A page of zero is rejected with exactly the minimum message. */
  lemma PageZeroRejected(limit: Option<real>)
    requires NewPaginatedQuery(None, limit).Returned?
    ensures NewPaginatedQuery(Some(0.0), limit) ==
      Threw(DomainThrown(ValidationError(InvalidQueryMessage, [PageTooSmallMessage])))
  {
    var l := limit.GetOr(DefaultLimit);
    assert LimitViolations(l) == [];
    assert IsWhole(0.0);
    assert PageViolations(0.0) == [PageTooSmallMessage];
    assert PageViolations(0.0) + LimitViolations(l) == [PageTooSmallMessage];
  }
}
