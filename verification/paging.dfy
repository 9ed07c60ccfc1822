/** The pagination state both list pages keep, the pager they draw under
    the list, and what its buttons do. */
module Paging {
  import opened Js
  import opened Entities

  datatype Pagination = Pagination(currentPage: int, totalPages: int, totalItems: int)

  /** Before the first response: page 1 of 1, nothing counted. */
  const Initial: Pagination := Pagination(1, 1, 0)

  /** The server's `pagination` object, taken over field by field. */
  function FromEnvelope(e: Envelope): (p: Pagination)
    ensures p.currentPage == e.currentPage && p.totalPages == e.totalPages && p.totalItems == e.totalItems
  {
    Pagination(e.currentPage, e.totalPages, e.totalItems)
  }

  /** `handlePageChange`: only the current page changes. */
  function GoTo(p: Pagination, page: int): (r: Pagination)
    ensures r.currentPage == page
    ensures r.totalPages == p.totalPages && r.totalItems == p.totalItems
  {
    p.(currentPage := page)
  }

  /** The pager as drawn: present only when there is more than one page;
      Prev disabled on page 1, Next disabled on the last page. */
  datatype Pager = Pager(prevEnabled: bool, nextEnabled: bool)

  function PagerOf(p: Pagination): (v: Option<Pager>)
    ensures v.Some? <==> p.totalPages > 1
    ensures v.Some? ==> (v.value.prevEnabled <==> p.currentPage != 1)
    ensures v.Some? ==> (v.value.nextEnabled <==> p.currentPage != p.totalPages)
  {
    if p.totalPages > 1 then Some(Pager(p.currentPage != 1, p.currentPage != p.totalPages)) else None
  }

  /** The Prev button, when it can be clicked. */
  function Prev(p: Pagination): (r: Option<Pagination>)
    ensures r.Some? <==> PagerOf(p).Some? && PagerOf(p).value.prevEnabled
    ensures r.Some? ==> r.value == GoTo(p, p.currentPage - 1)
  {
    if p.totalPages > 1 && p.currentPage != 1 then Some(GoTo(p, p.currentPage - 1)) else None
  }

  /** The Next button, when it can be clicked. */
  function Next(p: Pagination): (r: Option<Pagination>)
    ensures r.Some? <==> PagerOf(p).Some? && PagerOf(p).value.nextEnabled
    ensures r.Some? ==> r.value == GoTo(p, p.currentPage + 1)
  {
    if p.totalPages > 1 && p.currentPage != p.totalPages then Some(GoTo(p, p.currentPage + 1)) else None
  }

  /** The current page lies within the page count. */
  predicate InRange(p: Pagination) {
    1 <= p.currentPage <= p.totalPages
  }

  /** From a page within range, the enabled buttons never leave the
      range, and they move by exactly one page. */
  lemma PagerKeepsRange(p: Pagination)
    requires InRange(p)
    ensures Prev(p).Some? ==> InRange(Prev(p).value) && Prev(p).value.currentPage == p.currentPage - 1
    ensures Next(p).Some? ==> InRange(Next(p).value) && Next(p).value.currentPage == p.currentPage + 1
  {
  }

  /** With more than one page, from within range at least one button is
      enabled; on page 1 only Next, on the last page only Prev. */
  lemma PagerNeverStuck(p: Pagination)
    requires InRange(p) && p.totalPages > 1
    ensures Prev(p).Some? || Next(p).Some?
    ensures p.currentPage == 1 ==> Prev(p).None? && Next(p).Some?
    ensures p.currentPage == p.totalPages ==> Next(p).None? && Prev(p).Some?
  {
  }

  /** Next then Prev returns to the page one started on. */
  lemma NextThenPrev(p: Pagination)
    requires InRange(p) && Next(p).Some?
    ensures Prev(Next(p).value) == Some(p)
  {
  }
}
