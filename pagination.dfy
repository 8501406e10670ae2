/** The page window the listing handlers ask `aggregatePaginate` for. The
    library itself is not part of this model: its answer is taken to be the
    plain slice of the pipeline's result at the requested page. */
module Pagination {
  import opened Base

  /** `page` and `limit` after `parseInt`, `None` when the query omits them. */
  datatype PageOptions = PageOptions(page: Option<int>, limit: Option<int>)

  /** `page = 1` and `limit = 10` are the handlers' destructuring defaults. */
  function PageNumber(o: PageOptions): (p: int)
    ensures o.page.None? ==> p == 1
    ensures o.page.Some? ==> p == o.page.value
  {
    match o.page
    case None => 1
    case Some(p) => p
  }

  function PageLimit(o: PageOptions): (l: int)
    ensures o.limit.None? ==> l == 10
    ensures o.limit.Some? ==> l == o.limit.value
  {
    match o.limit
    case None => 10
    case Some(l) => l
  }

  predicate Windowed(o: PageOptions) {
    PageNumber(o) >= 1 && PageLimit(o) >= 1
  }

  /** How many documents come before the requested page. */
  function Offset(o: PageOptions): (n: nat)
    requires Windowed(o)
  {
    (PageNumber(o) - 1) * PageLimit(o)
  }

  datatype Page<T> = Page(docs: seq<T>, totalDocs: nat, page: int, limit: int)

  function Paginate<T>(all: seq<T>, o: PageOptions): (p: Page<T>)
    requires Windowed(o)
    ensures p.totalDocs == |all| && p.page == PageNumber(o) && p.limit == PageLimit(o)
    ensures |p.docs| <= p.limit
    ensures Offset(o) + |p.docs| <= |all| || p.docs == []
    ensures p.docs != [] ==> p.docs == all[Offset(o)..Offset(o) + |p.docs|]
  {
    var lo := Offset(o);
    var limit := PageLimit(o);
    var docs := if lo >= |all| then [] else all[lo..if lo + limit <= |all| then lo + limit else |all|];
    Page(docs, |all|, PageNumber(o), limit)
  }

  /** Every document on a page is a document of the whole result. */
  lemma PageDocsFromResult<T>(all: seq<T>, o: PageOptions, x: T)
    requires Windowed(o)
    requires x in Paginate(all, o).docs
    ensures x in all
  {
    var p := Paginate(all, o);
    var i :| 0 <= i < |p.docs| && p.docs[i] == x;
    assert all[Offset(o) + i] == x;
  }
}
