/**
  Frame search (app/services/video/video_frame_search.py): a query that is
  a URL, a local image path, other text or an image is embedded, searched in
  the frame collection, and the hits that carry both a video id and a
  timestamp become two parallel lists. Every failure yields two empty lists.
 */
module FrameSearch {
  import opened Wrappers
  import opened VectorStore

  /** A decoded image (pixel values). */
  type Image = seq<int>

  /** What `query` is at run time. */
  datatype Query =
    | NoQuery              // None
    | TextQuery(s: string) // a str: URL, local path or text
    | ImageQuery(img: Image) // a PIL image
    | OtherQuery           // any other type

  /**
    The collaborators of the search: `_is_valid_url`, `os.path.isfile`, the
    two image loaders (`None` when they raise), and the embedding models
    (`None` when they raise, otherwise the batch of vectors they return).
   */
  datatype Collaborators = Collaborators(
    isValidUrl: string -> bool,
    isFile: string -> bool,
    loadUrl: string -> Option<Image>,
    loadFile: string -> Option<Image>,
    embedImage: Image -> Option<seq<Vector>>,
    embedText: string -> Option<seq<Vector>>)

  function EmbedLoaded(loaded: Option<Image>, embedImage: Image -> Option<seq<Vector>>): Option<seq<Vector>> {
    if loaded.None? then None else embedImage(loaded.value)
  }

  /** The input-type routing of `video_frame_search`; `None` stands for every path that returns `([], [])` early. */
  function QueryEmbedding(q: Query, c: Collaborators): (r: Option<seq<Vector>>)
    ensures q.NoQuery? || q.OtherQuery? ==> r.None?
    ensures q.TextQuery? && c.isValidUrl(q.s) ==> r == EmbedLoaded(c.loadUrl(q.s), c.embedImage)
    ensures q.TextQuery? && !c.isValidUrl(q.s) && c.isFile(q.s) ==> r == EmbedLoaded(c.loadFile(q.s), c.embedImage)
    ensures q.TextQuery? && !c.isValidUrl(q.s) && !c.isFile(q.s) ==> r == c.embedText(q.s)
    ensures q.ImageQuery? ==> r == c.embedImage(q.img)
  {
    match q
    case NoQuery => None
    case OtherQuery => None
    case ImageQuery(img) => c.embedImage(img)
    case TextQuery(s) =>
      if c.isValidUrl(s) then EmbedLoaded(c.loadUrl(s), c.embedImage)
      else if c.isFile(s) then EmbedLoaded(c.loadFile(s), c.embedImage)
      else c.embedText(s)
  }

  function VideoIdOf(e: Entity): Option<string> {
    if e.fields.Some? then e.fields.value.videoId else None
  }

  function AtSecondsOf(e: Entity): Option<int> {
    if e.fields.Some? then e.fields.value.atSeconds else None
  }

  /** A hit with both `video_id` and `at_seconds` present. */
  predicate Complete(e: Entity) {
    VideoIdOf(e).Some? && AtSecondsOf(e).Some?
  }

  /** The complete hits, in their order. */
  function CompleteHits(results: seq<Entity>): (r: seq<Entity>)
    ensures |r| <= |results|
    ensures forall k :: 0 <= k < |r| ==> Complete(r[k])
  {
    if results == [] then []
    else (if Complete(results[0]) then [results[0]] else []) + CompleteHits(results[1..])
  }

  /** `_process_search_results(results)`: the video-path list and the timestamp list. */
  function ProcessSearchResults(results: seq<Entity>): (r: (seq<string>, seq<int>))
    ensures |r.0| == |r.1| == |CompleteHits(results)|
  {
    if results == [] then ([], [])
    else
      var rest := ProcessSearchResults(results[1..]);
      if Complete(results[0]) then ([VideoIdOf(results[0]).value] + rest.0, [AtSecondsOf(results[0]).value] + rest.1)
      else rest
  }

  /** The kept hits are exactly the complete ones, in their order. */
  lemma {:induction false} CompleteHitsExact(results: seq<Entity>)
    ensures forall k :: 0 <= k < |CompleteHits(results)| ==> CompleteHits(results)[k] in results
    ensures forall e :: e in results && Complete(e) ==> e in CompleteHits(results)
  {
    if results != [] {
      var r := CompleteHits(results);
      var t := CompleteHits(results[1..]);
      CompleteHitsExact(results[1..]);
      assert r == (if Complete(results[0]) then [results[0]] else []) + t;
      forall k | 0 <= k < |r| ensures r[k] in results {
        if Complete(results[0]) && k == 0 {
        } else {
          var k' := if Complete(results[0]) then k - 1 else k;
          assert r[k] == t[k'];
          assert t[k'] in results[1..];
        }
      }
      forall e | e in results && Complete(e) ensures e in r {
        if e != results[0] {
          assert e in results[1..];
        }
      }
    }
  }

  /** Path `k` and timestamp `k` are the video id and the timestamp of the `k`-th complete hit. */
  lemma {:induction false} ProcessSearchResultsPairs(results: seq<Entity>)
    ensures var r := ProcessSearchResults(results);
            forall k :: 0 <= k < |r.0| ==>
              r.0[k] == VideoIdOf(CompleteHits(results)[k]).value && r.1[k] == AtSecondsOf(CompleteHits(results)[k]).value
  {
    if results != [] {
      ProcessSearchResultsPairs(results[1..]);
      if Complete(results[0]) {
        assert CompleteHits(results) == [results[0]] + CompleteHits(results[1..]);
      } else {
        assert CompleteHits(results) == [] + CompleteHits(results[1..]) == CompleteHits(results[1..]);
      }
    }
  }

  const FrameSearchFields: seq<string> := ["video_id", "at_seconds"]

  /**
    `video_frame_search(query)` against the frame operator `op`, whose
    `search_data` is called with its default limit; `image_to_frame` and
    `text_to_frame` pass their argument through unchanged.
   */
  function VideoFrameSearch(q: Query, c: Collaborators, op: OperatorConfig,
                            search: SearchRequest -> Option<seq<seq<Hit>>>): (r: (seq<string>, seq<int>))
    ensures |r.0| == |r.1|
  {
    var emb := QueryEmbedding(q, c);
    if emb.None? || |emb.value| == 0 then ([], [])
    else ProcessSearchResults(SearchData(op, emb.value[0], DefaultSearchLimit, Some(FrameSearchFields), None, search))
  }

  /** A missing query, an unsupported type, a failed load or embedding, and an empty embedding all give `([], [])`. */
  lemma FailuresGiveNothing(q: Query, c: Collaborators, op: OperatorConfig, search: SearchRequest -> Option<seq<seq<Hit>>>)
    requires QueryEmbedding(q, c).None? || QueryEmbedding(q, c) == Some([])
    ensures VideoFrameSearch(q, c, op, search) == ([], [])
  {
  }

  lemma NoQueryGivesNothing(c: Collaborators, op: OperatorConfig, search: SearchRequest -> Option<seq<seq<Hit>>>)
    ensures VideoFrameSearch(NoQuery, c, op, search) == ([], []) && VideoFrameSearch(OtherQuery, c, op, search) == ([], [])
  {
  }

  /** A failed search also gives `([], [])`. */
  lemma SearchFailureGivesNothing(q: Query, c: Collaborators, op: OperatorConfig,
                                  search: SearchRequest -> Option<seq<seq<Hit>>>)
    requires var emb := QueryEmbedding(q, c);
             emb.Some? && |emb.value| > 0
             && search(SearchRequestFor(op, emb.value[0], DefaultSearchLimit, Some(FrameSearchFields), None)).None?
    ensures VideoFrameSearch(q, c, op, search) == ([], [])
  {
  }

  /** With a store that honours the limit, at most five (path, timestamp) pairs come back. */
  lemma AtMostFivePairs(q: Query, c: Collaborators, op: OperatorConfig, search: SearchRequest -> Option<seq<seq<Hit>>>)
    requires forall req: SearchRequest :: search(req).Some? ==>
               |search(req).value| <= |req.data| && forall k :: 0 <= k < |search(req).value| ==> |search(req).value[k]| <= req.limit
    ensures |VideoFrameSearch(q, c, op, search).0| <= DefaultSearchLimit
  {
    var emb := QueryEmbedding(q, c);
    if emb.Some? && |emb.value| > 0 {
      SearchAtMostLimit(op, emb.value[0], DefaultSearchLimit, Some(FrameSearchFields), None, search);
    }
  }

  /** The pairs come from the complete hits in hit order: path `k` and timestamp `k` belong to the same hit. */
  lemma {:induction false} PairsFollowHits(results: seq<Entity>, k: nat)
    requires k < |ProcessSearchResults(results).0|
    ensures exists j :: 0 <= j < |results| && Complete(results[j])
              && ProcessSearchResults(results).0[k] == VideoIdOf(results[j]).value
              && ProcessSearchResults(results).1[k] == AtSecondsOf(results[j]).value
  {
    ProcessSearchResultsPairs(results);
    CompleteHitsExact(results);
    var e := CompleteHits(results)[k];
    assert e in results;
    var j :| 0 <= j < |results| && results[j] == e;
  }
}
