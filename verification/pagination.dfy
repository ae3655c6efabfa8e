/** Page-size normalisation and page counting of pagination/pagination.go. */
module Pagination {

  /** A requested page: its size, its index, and the sort it is taken under. */
  datatype PaginatedQuery = PaginatedQuery(pageSize: int, page: int, direction: string, sort: string)

  /** The paging information returned alongside a page. */
  datatype PaginatedResponse = PaginatedResponse(pageSize: int, currentPage: int, totalCount: int, totalPages: int)

  /** The largest integer a JavaScript number holds exactly (2^53 - 1); stands
      for "no page limit". */
  const MaxSafeInt: int := 9007199254740991

  /** The page sizes a client may pick. */
  const StandardPageSizes: seq<int> := [25, 50, 100]

  /** The page sizes a standardised query may carry: unpaged, the standard
      sizes, and "everything". */
  const ValidPageSizes: seq<int> := [0, 25, 50, 100, MaxSafeInt]

  /** A query asking for pages of some positive size. */
  function IsPaged(p: PaginatedQuery): (paged: bool)
    ensures paged ==> p.pageSize >= 1
  {
    p.pageSize > 0
  }

  /** A query asking for no paging at all; it is never also paged, and a
      query that is neither has a negative size. */
  function IsUnPaged(p: PaginatedQuery): (unpaged: bool)
    ensures unpaged ==> !IsPaged(p)
    ensures !unpaged && !IsPaged(p) ==> p.pageSize < 0
  {
    p.pageSize == 0
  }

  /** The number of pages needed for `totalCount` items: at least 1, and the
      rounded-up quotient when both counts are positive. */
  function TotalPages(totalCount: int, pageSize: int): (totalPages: int)
    ensures totalPages >= 1
    ensures totalCount <= 0 || pageSize <= 0 ==> totalPages == 1
    ensures totalCount > 0 && pageSize > 0 ==>
      (totalPages - 1) * pageSize < totalCount <= totalPages * pageSize
  {
    if totalCount > 0 && pageSize > 0 then
      var q := totalCount / pageSize;
      assert totalCount == q * pageSize + totalCount % pageSize;
      if totalCount % pageSize != 0 then q + 1 else q
    else 1
  }

  /** The examples 10 items / 5 per page and 10 items / 4 per page. */
  lemma TotalPagesExamples()
    ensures TotalPages(10, 5) == 2 && TotalPages(10, 4) == 3
  {
  }

  /** A response echoes its inputs and counts the pages for them. */
  function NewPaginatedResponse(pageSize: int, currentPage: int, totalCount: int): (r: PaginatedResponse)
    ensures r.pageSize == pageSize && r.currentPage == currentPage && r.totalCount == totalCount
    ensures r.totalPages == TotalPages(totalCount, pageSize)
  {
    PaginatedResponse(pageSize, currentPage, totalCount, TotalPages(totalCount, pageSize))
  }

  /** Clamps a query: a negative page becomes 0; a negative size becomes 0
      (unpaged), a size above 100 becomes MaxSafeInt, a size that is neither 0
      nor standard becomes 25. Direction and sort are kept. */
  function StandardisePaginatedQuery(page: PaginatedQuery): (r: PaginatedQuery)
    ensures r.pageSize in ValidPageSizes
    ensures r.page == if page.page < 0 then 0 else page.page
    ensures r.direction == page.direction && r.sort == page.sort
    ensures page.pageSize < 0 ==> r.pageSize == 0
    ensures page.pageSize > 100 ==> r.pageSize == MaxSafeInt
    ensures page.pageSize in [0, 25, 50, 100] ==> r.pageSize == page.pageSize
    ensures 0 <= page.pageSize <= 100 && page.pageSize !in [0, 25, 50, 100] ==> r.pageSize == 25
  {
    var p := if page.page < 0 then page.(page := 0) else page;
    if p.pageSize < 0 then p.(pageSize := 0)
    else if p.pageSize > 100 then p.(pageSize := MaxSafeInt)
    else if p.pageSize != 0 && p.pageSize != 25 && p.pageSize != 50 && p.pageSize != 100 then p.(pageSize := 25)
    else p
  }

  /** Standardising twice is standardising once. */
  lemma StandardiseIdempotent(page: PaginatedQuery)
    ensures StandardisePaginatedQuery(StandardisePaginatedQuery(page)) == StandardisePaginatedQuery(page)
  {
    var once := StandardisePaginatedQuery(page);
    assert once.pageSize in ValidPageSizes;
  }

  /** A standardised query is either paged or unpaged, never both, and its page
      index is not negative. */
  lemma StandardisedPagedXorUnPaged(page: PaginatedQuery)
    ensures var r := StandardisePaginatedQuery(page);
      (IsPaged(r) <==> !IsUnPaged(r)) && r.page >= 0
  {
  }

  /** The examples sizes 33, 50, 110 and 0 map to 25, 50, MaxSafeInt and 0;
      page -1 maps to 0. */
  lemma StandardiseExamples()
    ensures StandardisePaginatedQuery(PaginatedQuery(33, 1, "", "")).pageSize == 25
    ensures StandardisePaginatedQuery(PaginatedQuery(33, 1, "", "")).page == 1
    ensures StandardisePaginatedQuery(PaginatedQuery(50, -1, "", "")) == PaginatedQuery(50, 0, "", "")
    ensures StandardisePaginatedQuery(PaginatedQuery(110, 0, "", "")).pageSize == MaxSafeInt
    ensures StandardisePaginatedQuery(PaginatedQuery(0, 0, "", "")).pageSize == 0
  {
  }
}
