/**
  Video search (app/services/video/search.py): the store's records are
  projected into result rows with exactly five fields, and a falsy query text
  searches without an embedding.
 */
module VideoSearch {
  import opened Wrappers

  type Vector = seq<int>

  /** A record as the video store returns it; `None` is a missing key. */
  datatype StoreRecord = StoreRecord(mId: Option<int>, path: Option<string>, thumbnailPath: Option<string>,
                                     summaryTxt: Option<string>, tags: Option<seq<string>>,
                                     embedding: Option<Vector>, distance: Option<int>)

  /** A result row: the keys `m_id`, `path`, `thumbnail_path`, `summary_txt` and `tags`, and no others. */
  datatype VideoRow = VideoRow(mId: Option<int>, path: Option<string>, thumbnailPath: Option<string>,
                               summaryTxt: Option<string>, tags: seq<string>)

  /** The row of one record: `tags` of `None` becomes the empty list. */
  function RowOf(item: StoreRecord): (row: VideoRow)
    ensures row.mId == item.mId && row.path == item.path
    ensures row.thumbnailPath == item.thumbnailPath && row.summaryTxt == item.summaryTxt
    ensures row.tags == if item.tags.None? then [] else item.tags.value
  {
    VideoRow(item.mId, item.path, item.thumbnailPath, item.summaryTxt, if item.tags.None? then [] else item.tags.value)
  }

  /** `parse_search_result(search_result)`. */
  function ParseSearchResult(items: seq<StoreRecord>): (rows: seq<VideoRow>)
    ensures |rows| == |items|
  {
    if items == [] then [] else [RowOf(items[0])] + ParseSearchResult(items[1..])
  }

  /** Row `k` is the row of record `k`: same length, same order. */
  lemma {:induction false} ParseSearchResultRows(items: seq<StoreRecord>)
    ensures forall k :: 0 <= k < |items| ==> ParseSearchResult(items)[k] == RowOf(items[k])
  {
    if items != [] {
      ParseSearchResultRows(items[1..]);
    }
  }

  /** Records that differ only in their embedding and distance give the same rows: neither is copied. */
  lemma {:induction false} EmbeddingAndDistanceNotCopied(a: seq<StoreRecord>, b: seq<StoreRecord>)
    requires |a| == |b|
    requires forall k :: 0 <= k < |a| ==> a[k].(embedding := None, distance := None) == b[k].(embedding := None, distance := None)
    ensures ParseSearchResult(a) == ParseSearchResult(b)
  {
    if a != [] {
      assert a[0].(embedding := None, distance := None) == b[0].(embedding := None, distance := None);
      EmbeddingAndDistanceNotCopied(a[1..], b[1..]);
    }
  }

  /** `embed_fn(txt)` raised (the model could not be loaded or could not encode). */
  datatype SearchError = EmbedFailed

  /**
    `if txt: embedding = embed_fn(txt)`: `None` and the empty string are falsy
    and search without an embedding; `embedFn` is `None` when `embed_fn` raises.
   */
  function QueryEmbedding(txt: Option<string>, embedFn: string -> Option<Vector>): (e: Result<Option<Vector>, SearchError>)
    ensures txt.None? || txt.value == "" ==> e == Ok(None)
    ensures txt.Some? && txt.value != "" ==>
              (e.Err? <==> embedFn(txt.value).None?) && (e.Ok? ==> e.value.Some? && e.value == embedFn(txt.value))
  {
    if txt.None? || txt.value == "" then Ok(None)
    else match embedFn(txt.value)
      case None => Err(EmbedFailed)
      case Some(v) => Ok(Some(v))
  }

  /** `search(txt, page, page_size)` over the store's `search_video`; a raising `embed_fn` propagates before any search. */
  function Search(txt: Option<string>, page: int, pageSize: int, embedFn: string -> Option<Vector>,
                  searchVideo: (Option<Vector>, int, int) -> seq<StoreRecord>): (r: Result<seq<VideoRow>, SearchError>)
    ensures r.Err? <==> txt.Some? && txt.value != "" && embedFn(txt.value).None?
    ensures r.Ok? ==> var e := QueryEmbedding(txt, embedFn).value;
                      |r.value| == |searchVideo(e, page, pageSize)|
                      && forall k :: 0 <= k < |r.value| ==> r.value[k] == RowOf(searchVideo(e, page, pageSize)[k])
  {
    match QueryEmbedding(txt, embedFn)
    case Err(e) => Err(e)
    case Ok(embedding) =>
      var items := searchVideo(embedding, page, pageSize);
      ParseSearchResultRows(items);
      Ok(ParseSearchResult(items))
  }

  /** A falsy text never reaches the embedding model: the answer is the same for every `embedFn`, even one that always raises. */
  lemma FalsyTextSearchesWithoutEmbedding(txt: Option<string>, page: int, pageSize: int,
                                          f: string -> Option<Vector>, g: string -> Option<Vector>,
                                          searchVideo: (Option<Vector>, int, int) -> seq<StoreRecord>)
    requires txt.None? || txt.value == ""
    ensures Search(txt, page, pageSize, f, searchVideo) == Search(txt, page, pageSize, g, searchVideo)
            == Ok(ParseSearchResult(searchVideo(None, page, pageSize)))
  {
  }
}
