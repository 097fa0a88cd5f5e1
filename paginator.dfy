/**
  The evaluation tool's collection paginator
  (app/tests/model_evaluation/model_evaluation.py): fixed-size pages of the
  video collection, fetched by limit and offset until the offset reaches the
  row count taken at construction.
 */
module Paginator {
  import opened Wrappers

  /** What `__next__` does: return a page, raise `StopIteration`, or re-raise the query's error. */
  datatype PageResult<R> = Page(rows: seq<R>) | StopIteration | QueryFailed

  /** `client.query(limit=..., offset=...)`; `None` when the call raises. */
  type Query<R> = (int, int) -> Option<seq<R>>

  /**
    One `__next__` from `offset`: the result and the new offset. The offset
    moves by exactly `pageSize` after a non-empty page and stays put otherwise.
   */
  function NextPage<R>(pageSize: int, total: int, offset: int, query: Query<R>): (r: (PageResult<R>, int))
    ensures offset >= total ==> r == (StopIteration, offset)
    ensures r.0.Page? <==> offset < total && query(pageSize, offset).Some? && query(pageSize, offset).value != []
    ensures r.0.Page? ==> r.0.rows == query(pageSize, offset).value && r.1 == offset + pageSize
    ensures !r.0.Page? ==> r.1 == offset
    ensures r.0.QueryFailed? <==> offset < total && query(pageSize, offset).None?
  {
    if offset >= total then (StopIteration, offset)
    else match query(pageSize, offset)
      case None => (QueryFailed, offset)
      case Some(rows) => if rows == [] then (StopIteration, offset) else (Page(rows), offset + pageSize)
  }

  /** `VideoCollectionPaginator`: `total` is the row count read once at construction. */
  class Paginator<R> {
    const pageSize: int
    const total: int
    var currentOffset: int

    /** `__init__(client, collection_name, page_size=100)`; `rowCount` is `get_collection_stats(...)["row_count"]`. */
    constructor(pageSize: int, rowCount: int)
      ensures this.pageSize == pageSize && total == rowCount && currentOffset == 0
    {
      this.pageSize := pageSize;
      total := rowCount;
      currentOffset := 0;
    }

    /** `__next__()`. */
    method Next(query: Query<R>) returns (r: PageResult<R>)
      modifies this
      ensures (r, currentOffset) == NextPage(pageSize, total, old(currentOffset), query)
    {
      if currentOffset >= total {
        return StopIteration;
      }
      var results := query(pageSize, currentOffset);
      if results.None? {
        return QueryFailed;
      }
      if results.value == [] {
        return StopIteration;
      }
      currentOffset := currentOffset + pageSize;
      return Page(results.value);
    }
  }

  /** A stored collection answering `query(limit, offset)` with its records in query order. */
  function Slice<R>(records: seq<R>, limit: int, offset: int): (s: seq<R>)
    ensures 0 <= offset <= |records| && limit >= 0 ==> s == records[offset..if offset + limit <= |records| then offset + limit else |records|]
  {
    if offset < 0 || offset >= |records| || limit <= 0 then []
    else if offset + limit <= |records| then records[offset..offset + limit]
    else records[offset..]
  }

  ghost predicate FixedCollection<R>(query: Query<R>, records: seq<R>) {
    forall limit, offset :: query(limit, offset) == Some(Slice(records, limit, offset))
  }

  /** Iterating to the end from `offset`: the pages in order, and whether a query raised. */
  function Pages<R>(pageSize: int, total: int, offset: int, query: Query<R>): (r: (seq<seq<R>>, bool))
    requires pageSize > 0
    decreases total - offset
  {
    var (res, next) := NextPage(pageSize, total, offset, query);
    match res
    case Page(rows) =>
      var rest := Pages(pageSize, total, next, query);
      ([rows] + rest.0, rest.1)
    case StopIteration => ([], false)
    case QueryFailed => ([], true)
  }

  function Concat<R>(pages: seq<seq<R>>): seq<R> {
    if pages == [] then [] else pages[0] + Concat(pages[1..])
  }

  lemma SliceTail<R>(records: seq<R>, pageSize: int, offset: int)
    requires pageSize > 0 && 0 <= offset < |records|
    ensures offset + pageSize >= |records| ==> Slice(records, pageSize, offset) == records[offset..]
    ensures offset + pageSize < |records| ==>
              Slice(records, pageSize, offset) + records[offset + pageSize..] == records[offset..]
  {
    if offset + pageSize < |records| {
      assert records[offset..offset + pageSize] + records[offset + pageSize..] == records[offset..];
    }
  }

  /**
    On a fixed collection whose row count is `total`, iterating from
    `offset` never fails, every page is non-empty and at most `pageSize`
    long, and the pages together are exactly the records from `offset` on,
    in query order.
   */
  lemma PagesCoverRecords<R>(records: seq<R>, pageSize: int, offset: int, query: Query<R>)
    requires pageSize > 0 && 0 <= offset && FixedCollection(query, records)
    ensures var (pages, failed) := Pages(pageSize, |records|, offset, query);
            !failed
            && Concat(pages) == (if offset < |records| then records[offset..] else [])
            && forall k :: 0 <= k < |pages| ==> 0 < |pages[k]| <= pageSize
  {
    PagesConcat(records, pageSize, offset, query);
    FixedCollectionHonoursLimit(query, records);
    PagesBounded(pageSize, |records|, offset, query);
  }

  lemma {:induction false} PagesConcat<R>(records: seq<R>, pageSize: int, offset: int, query: Query<R>)
    requires pageSize > 0 && 0 <= offset && FixedCollection(query, records)
    ensures !Pages(pageSize, |records|, offset, query).1
    ensures Concat(Pages(pageSize, |records|, offset, query).0) == if offset < |records| then records[offset..] else []
    decreases |records| - offset
  {
    if offset < |records| {
      var page := Slice(records, pageSize, offset);
      var rest := Pages(pageSize, |records|, offset + pageSize, query);
      PagesStep(records, pageSize, offset, query);
      PagesConcat(records, pageSize, offset + pageSize, query);
      SliceTail(records, pageSize, offset);
      ConcatCons(page, rest.0);
      var tail := if offset + pageSize < |records| then records[offset + pageSize..] else [];
      assert Concat(rest.0) == tail;
      assert page + tail == records[offset..];
    }
  }

  lemma ConcatCons<R>(page: seq<R>, pages: seq<seq<R>>)
    ensures Concat([page] + pages) == page + Concat(pages)
  {
    assert ([page] + pages)[1..] == pages;
  }

  /** A query that never returns more rows than the limit asked for. */
  ghost predicate HonoursLimit<R>(query: Query<R>) {
    forall limit, offset :: 0 <= limit && query(limit, offset).Some? ==> |query(limit, offset).value| <= limit
  }

  lemma FixedCollectionHonoursLimit<R>(query: Query<R>, records: seq<R>)
    requires FixedCollection(query, records)
    ensures HonoursLimit(query)
  {
    forall limit, offset | 0 <= limit && query(limit, offset).Some? ensures |query(limit, offset).value| <= limit {
      assert query(limit, offset) == Some(Slice(records, limit, offset));
    }
  }

  /** Every page is non-empty, and no longer than the page size when the query honours its limit. */
  lemma {:induction false} PagesBounded<R>(pageSize: int, total: int, offset: int, query: Query<R>)
    requires pageSize > 0 && HonoursLimit(query)
    ensures var pages := Pages(pageSize, total, offset, query).0;
            forall k :: 0 <= k < |pages| ==> 0 < |pages[k]| <= pageSize
    decreases total - offset
  {
    var res := NextPage(pageSize, total, offset, query).0;
    var next := NextPage(pageSize, total, offset, query).1;
    if res.Page? {
      assert res.rows == query(pageSize, offset).value && |res.rows| <= pageSize;
      var rest := Pages(pageSize, total, next, query);
      PagesBounded(pageSize, total, next, query);
      assert forall j :: 0 <= j < |Pages(pageSize, total, next, query).0| ==> 0 < |Pages(pageSize, total, next, query).0[j]| <= pageSize;
      var pages := [res.rows] + rest.0;
      assert Pages(pageSize, total, offset, query).0 == pages;
      forall k | 0 <= k < |pages| ensures 0 < |pages[k]| <= pageSize {
        if k == 0 {
          assert pages[k] == res.rows;
        } else {
          assert pages[k] == rest.0[k - 1];
        }
      }
    }
  }

  /** One step of the iteration over a fixed collection: the next page is the slice at `offset`. */
  lemma PagesStep<R>(records: seq<R>, pageSize: int, offset: int, query: Query<R>)
    requires pageSize > 0 && 0 <= offset < |records| && FixedCollection(query, records)
    ensures var page := Slice(records, pageSize, offset);
            var rest := Pages(pageSize, |records|, offset + pageSize, query);
            0 < |page| <= pageSize && Pages(pageSize, |records|, offset, query) == ([page] + rest.0, rest.1)
  {
    assert query(pageSize, offset) == Some(Slice(records, pageSize, offset));
  }

  /** A collection whose every query raises yields no page at all before the failure. */
  lemma FailingQueryYieldsNothing<R>(pageSize: int, total: int, query: Query<R>)
    requires pageSize > 0 && total > 0
    requires forall limit, offset :: query(limit, offset).None?
    ensures Pages(pageSize, total, 0, query) == ([], true)
  {
  }
}
