/**
  The evaluation tool's session logic (app/tests/model_evaluation/ui.py):
  the session-state keys set once, the video cache that grows page by page,
  the "has more" probe of the navigation bar, clearing the per-video widget
  state, and the tallies updated on submit. Streamlit rendering is not
  modelled; widget values are a map from their keys.
 */
module EvaluationUi {
  import opened Wrappers
  import opened Strings
  import opened Paginator
  import EvaluationReport

  /** A row of the video collection: its `m_id` and its `tags` (`None` read as the empty list). */
  datatype Video = Video(mId: int, tags: seq<string>)

  /** The integer counters of `evaluation_results`. */
  datatype Tally = Tally(totalVideos: int, processedVideos: int, totalTags: int, correctTags: int,
                         wrongTags: int, missedTags: int)

  const InitialTally: Tally := Tally(0, 0, 0, 0, 0, 0)

  /** `get_video_paginator(page_size=100)`. */
  const PageSize: int := 100

  /** The value of a widget kept under its key: a checkbox or a number input. */
  datatype Widget = Checkbox(checked: bool) | Number(n: int)

  /** An entry of `wrong_tags`: the tag and its occurrence index among equal tags. */
  datatype WrongTag = WrongTag(tag: string, index: int)

  /** The keys `clear_evaluation_states` deletes. */
  predicate HasClearedPrefix(key: string) {
    StartsWith(key, "wrong_tag_") || StartsWith(key, "time_") || StartsWith(key, "start_")
    || StartsWith(key, "end_") || StartsWith(key, "missed_tag_") || StartsWith(key, "duration_")
  }

  /** The widget state after clearing. */
  function Cleared(widgets: map<string, Widget>): map<string, Widget> {
    map k | k in widgets && !HasClearedPrefix(k) :: widgets[k]
  }

  /**
    `load_current_video` from a cache and a paginator offset: extend the
    cache page by page until `index` is inside it; the video (or `None`),
    the new cache and the new offset.
   */
  function Load(cache: seq<Video>, index: int, pageSize: int, total: int, offset: int, query: Query<Video>)
    : (r: (Option<Video>, seq<Video>, int))
    requires pageSize > 0
    decreases total - offset
  {
    if index < |cache| then (if 0 <= index then Some(cache[index]) else None, cache, offset)
    else
      var (res, next) := NextPage(pageSize, total, offset, query);
      match res
      case Page(rows) => if rows == [] then (None, cache, next) else Load(cache + rows, index, pageSize, total, next, query)
      case _ => (None, cache, next)
  }

  /** The counters after submitting one video with `tags` tags, `wrong` of them marked wrong and `missed` added. */
  function Tallied(t: Tally, tags: int, wrong: int, missed: int): (r: Tally)
    ensures r.processedVideos == t.processedVideos + 1 && r.totalVideos == t.totalVideos
  {
    t.(processedVideos := t.processedVideos + 1, totalTags := t.totalTags + tags,
       correctTags := t.correctTags + (tags - wrong), wrongTags := t.wrongTags + wrong,
       missedTags := t.missedTags + missed)
  }

  /** `[clean_tag_format(tag) for tag in tags]`. */
  function CurrentTags(tags: seq<string>): (r: seq<string>)
    ensures |r| == |tags|
    decreases |tags|
  {
    if tags == [] then [] else CurrentTags(tags[..|tags| - 1]) + [EvaluationReport.CleanTagFormat(tags[|tags| - 1])]
  }

  /** The `results` dictionary of a submission, without the free-text notes and the time stamps. */
  datatype Submission = Submission(videoId: int, totalTags: int, correctTags: int, wrongTags: seq<WrongTag>,
                                   missedTags: seq<string>)

  /** `st.session_state`: the fixed keys as fields, `None` (or `null`) while unset, and the widget keys. */
  class Session {
    var evaluationResults: Option<Tally>
    var currentVideoIndex: Option<int>
    var videoCache: Option<seq<Video>>
    var paginator: Paginator?<Video>
    var wrongTags: seq<WrongTag>
    var missedTags: seq<string>
    var widgets: map<string, Widget>

    /** The only paginators the session holds are the ones `init_session_state` creates. */
    predicate Valid()
      reads this
    {
      paginator != null ==> paginator.pageSize == PageSize
    }

    /** A fresh browser session: no key is set. */
    constructor()
      ensures Valid() && evaluationResults.None? && currentVideoIndex.None? && videoCache.None? && paginator == null
      ensures wrongTags == [] && missedTags == [] && widgets == map[]
    {
      evaluationResults := None;
      currentVideoIndex := None;
      videoCache := None;
      paginator := null;
      wrongTags := [];
      missedTags := [];
      widgets := map[];
    }

    /**
      `init_session_state()`: each of the four keys is set only when absent,
      so a second call changes nothing. `rowCount` is the collection's row
      count read by the new paginator.
     */
    method InitSessionState(rowCount: int)
      requires Valid()
      modifies this
      ensures Valid()
      ensures evaluationResults == (if old(evaluationResults).Some? then old(evaluationResults) else Some(InitialTally))
      ensures currentVideoIndex == (if old(currentVideoIndex).Some? then old(currentVideoIndex) else Some(0))
      ensures videoCache == (if old(videoCache).Some? then old(videoCache) else Some([]))
      ensures old(paginator) != null ==> paginator == old(paginator)
      ensures old(paginator) == null ==> fresh(paginator) && paginator.total == rowCount && paginator.currentOffset == 0
      ensures wrongTags == old(wrongTags) && missedTags == old(missedTags) && widgets == old(widgets)
    {
      if evaluationResults.None? {
        evaluationResults := Some(InitialTally);
      }
      if currentVideoIndex.None? {
        currentVideoIndex := Some(0);
      }
      if videoCache.None? {
        videoCache := Some([]);
      }
      if paginator == null {
        paginator := new Paginator(PageSize, rowCount);
      }
    }

    /**
      `load_current_video()`: the video at the current index, loading pages
      into the cache while the index is past its end. A missing key, the end
      of the collection, an empty page and a failed query all give `None`.
     */
    method LoadCurrentVideo(query: Query<Video>) returns (v: Option<Video>)
      requires Valid()
      modifies this, paginator
      ensures Valid() && paginator == old(paginator)
      ensures evaluationResults == old(evaluationResults) && currentVideoIndex == old(currentVideoIndex)
      ensures wrongTags == old(wrongTags) && missedTags == old(missedTags) && widgets == old(widgets)
      ensures old(videoCache).None? || old(currentVideoIndex).None? ==>
                v.None? && videoCache == old(videoCache) && (paginator != null ==> paginator.currentOffset == old(paginator.currentOffset))
      ensures old(videoCache).Some? && old(currentVideoIndex).Some? && paginator == null ==>
                videoCache == old(videoCache)
                && v == (if 0 <= old(currentVideoIndex).value < |old(videoCache).value|
                         then Some(old(videoCache).value[old(currentVideoIndex).value]) else None)
      ensures old(videoCache).Some? && old(currentVideoIndex).Some? && paginator != null ==>
                videoCache.Some?
                && (v, videoCache.value, paginator.currentOffset)
                   == Load(old(videoCache).value, old(currentVideoIndex).value, PageSize, paginator.total,
                           old(paginator.currentOffset), query)
    {
      if videoCache.None? || currentVideoIndex.None? {
        return None;
      }
      var index := currentVideoIndex.value;
      if paginator == null {
        if 0 <= index < |videoCache.value| {
          return Some(videoCache.value[index]);
        }
        return None;
      }
      var p := paginator;
      ghost var goal := Load(videoCache.value, index, PageSize, p.total, p.currentOffset, query);
      while index >= |videoCache.value|
        invariant videoCache.Some? && paginator == p
        invariant evaluationResults == old(evaluationResults) && currentVideoIndex == old(currentVideoIndex)
        invariant wrongTags == old(wrongTags) && missedTags == old(missedTags) && widgets == old(widgets)
        invariant Load(videoCache.value, index, PageSize, p.total, p.currentOffset, query) == goal
        decreases p.total - p.currentOffset
      {
        var page := p.Next(query);
        if !page.Page? {
          return None;
        }
        if page.rows == [] {
          return None;
        }
        videoCache := Some(videoCache.value + page.rows);
      }
      if 0 <= index < |videoCache.value| {
        return Some(videoCache.value[index]);
      }
      return None;
    }

    /**
      The "has more" probe of `display_navigation()` as written: at the last
      cached video it calls `next(paginator)` and looks at the page, which is
      then dropped. `None` is the query error, which propagates.
     */
    method HasMoreAsWritten(query: Query<Video>) returns (hasMore: Option<bool>)
      requires Valid() && currentVideoIndex.Some? && videoCache.Some? && paginator != null
      modifies paginator
      ensures currentVideoIndex.value < |videoCache.value| - 1 ==> hasMore == Some(true) && paginator.currentOffset == old(paginator.currentOffset)
      ensures currentVideoIndex.value >= |videoCache.value| - 1 ==>
                var (res, next) := NextPage(PageSize, paginator.total, old(paginator.currentOffset), query);
                paginator.currentOffset == next
                && hasMore == (if res.QueryFailed? then None else Some(res.Page? && res.rows != []))
    {
      if currentVideoIndex.value >= |videoCache.value| - 1 {
        var page := paginator.Next(query);
        if page.QueryFailed? {
          return None;
        }
        return Some(page.Page? && page.rows != []);
      }
      return Some(true);
    }

    /** The probe with the fetched page kept: it is appended to the cache instead of dropped. */
    method HasMore(query: Query<Video>) returns (hasMore: Option<bool>)
      requires Valid() && currentVideoIndex.Some? && videoCache.Some? && paginator != null
      modifies this, paginator
      ensures Valid() && paginator == old(paginator) && currentVideoIndex == old(currentVideoIndex)
      ensures evaluationResults == old(evaluationResults) && wrongTags == old(wrongTags) && missedTags == old(missedTags)
      ensures widgets == old(widgets)
      ensures currentVideoIndex.value < |old(videoCache).value| - 1 ==>
                hasMore == Some(true) && videoCache == old(videoCache) && paginator.currentOffset == old(paginator.currentOffset)
      ensures currentVideoIndex.value >= |old(videoCache).value| - 1 ==>
                var (res, next) := NextPage(PageSize, paginator.total, old(paginator.currentOffset), query);
                paginator.currentOffset == next
                && hasMore == (if res.QueryFailed? then None else Some(res.Page? && res.rows != []))
                && videoCache == Some(old(videoCache).value + (if res.Page? then res.rows else []))
    {
      if currentVideoIndex.value >= |videoCache.value| - 1 {
        var page := paginator.Next(query);
        assert videoCache.value + [] == videoCache.value;
        if page.QueryFailed? {
          return None;
        }
        if page.Page? {
          videoCache := Some(videoCache.value + page.rows);
        }
        return Some(page.Page? && page.rows != []);
      }
      return Some(true);
    }

    /**
      `clear_evaluation_states()`: collect the widget keys with one of the six
      prefixes, delete them, and reset `wrong_tags` and `missed_tags`.
     */
    method ClearEvaluationStates()
      modifies this
      ensures widgets == Cleared(old(widgets))
      ensures wrongTags == [] && missedTags == []
      ensures evaluationResults == old(evaluationResults) && currentVideoIndex == old(currentVideoIndex)
      ensures videoCache == old(videoCache) && paginator == old(paginator)
    {
      var keysToRemove: set<string> := {};
      var remaining := widgets.Keys;
      while remaining != {}
        invariant remaining <= widgets.Keys && widgets == old(widgets)
        invariant evaluationResults == old(evaluationResults) && currentVideoIndex == old(currentVideoIndex)
        invariant videoCache == old(videoCache) && paginator == old(paginator)
        invariant keysToRemove == set k | k in widgets.Keys - remaining && HasClearedPrefix(k)
        decreases remaining
      {
        var key :| key in remaining;
        if HasClearedPrefix(key) {
          keysToRemove := keysToRemove + {key};
        }
        remaining := remaining - {key};
      }
      var toDelete := keysToRemove;
      while toDelete != {}
        invariant toDelete <= keysToRemove
        invariant widgets == old(widgets) - (keysToRemove - toDelete)
        invariant evaluationResults == old(evaluationResults) && currentVideoIndex == old(currentVideoIndex)
        invariant videoCache == old(videoCache) && paginator == old(paginator)
        decreases toDelete
      {
        var key :| key in toDelete;
        widgets := widgets - {key};
        toDelete := toDelete - {key};
      }
      assert widgets == Cleared(old(widgets));
      wrongTags := [];
      missedTags := [];
    }

    /**
      Submitting the form of `evaluate_current_video(video)`: the results and
      the updated counters. `missed` is the list of added tags.
     */
    method SubmitEvaluation(video: Video, missed: seq<string>) returns (results: Submission)
      requires evaluationResults.Some?
      modifies this
      ensures var current := CurrentTags(video.tags);
              results == Submission(video.mId, |current|, |current| - |wrongTags|, wrongTags, missed)
              && evaluationResults == Some(Tallied(old(evaluationResults).value, |current|, |wrongTags|, |missed|))
      ensures wrongTags == old(wrongTags) && missedTags == old(missedTags) && widgets == old(widgets)
      ensures currentVideoIndex == old(currentVideoIndex) && videoCache == old(videoCache) && paginator == old(paginator)
    {
      var current := CurrentTags(video.tags);
      results := Submission(video.mId, |current|, |current| - |wrongTags|, wrongTags, missed);
      var t := evaluationResults.value;
      evaluationResults := Some(t.(processedVideos := t.processedVideos + 1,
                                   totalTags := t.totalTags + results.totalTags,
                                   correctTags := t.correctTags + results.correctTags,
                                   wrongTags := t.wrongTags + |wrongTags|,
                                   missedTags := t.missedTags + |missed|));
    }
  }

  // ---------------------------------------------------------------------------
  // Properties
  // ---------------------------------------------------------------------------

  function Min(a: int, b: int): int {
    if a <= b then a else b
  }

  /** The cache holds exactly the records before the paginator's offset. */
  ghost predicate Consistent(records: seq<Video>, cache: seq<Video>, offset: int) {
    0 <= offset && cache == records[..Min(offset, |records|)]
  }

  /**
    On a fixed collection whose row count is its size, a consistent cache
    stays consistent through `load_current_video`, and the video returned
    for index `i` is record `i`, or `None` exactly when `i` is outside the
    collection.
   */
  lemma {:induction false} LoadFromConsistent(records: seq<Video>, cache: seq<Video>, index: int, offset: int,
                                               query: Query<Video>)
    requires FixedCollection(query, records) && Consistent(records, cache, offset)
    ensures var (v, cache', offset') := Load(cache, index, PageSize, |records|, offset, query);
            v == (if 0 <= index < |records| then Some(records[index]) else None)
            && Consistent(records, cache', offset')
    decreases |records| - offset
  {
    if index >= |cache| && offset < |records| {
      var page := Slice(records, PageSize, offset);
      assert query(PageSize, offset) == Some(page);
      assert cache + page == records[..Min(offset + PageSize, |records|)];
      LoadFromConsistent(records, cache + page, index, offset + PageSize, query);
    }
  }

  /** Keeping the probed page, as `HasMore` does, keeps the cache consistent. */
  lemma KeptPageStaysConsistent(records: seq<Video>, cache: seq<Video>, offset: int, query: Query<Video>)
    requires FixedCollection(query, records) && Consistent(records, cache, offset)
    ensures var (res, next) := NextPage(PageSize, |records|, offset, query);
            Consistent(records, cache + (if res.Page? then res.rows else []), next)
  {
    if offset < |records| {
      assert query(PageSize, offset) == Some(Slice(records, PageSize, offset));
      assert cache + Slice(records, PageSize, offset) == records[..Min(offset + PageSize, |records|)];
    } else {
      assert cache + [] == cache;
    }
  }

  /**
    Dropping the probed page, as `HasMoreAsWritten` does, leaves a cache that
    is no longer consistent whenever there was a page to fetch: the offset
    has moved past records the cache never received.
   */
  lemma DroppedPageBreaksConsistency(records: seq<Video>, cache: seq<Video>, offset: int, query: Query<Video>)
    requires FixedCollection(query, records) && Consistent(records, cache, offset) && offset < |records|
    ensures var (res, next) := NextPage(PageSize, |records|, offset, query);
            res.Page? && !Consistent(records, cache, next)
  {
    assert query(PageSize, offset) == Some(Slice(records, PageSize, offset));
  }

  /** The 101 videos `0 .. 100`. */
  function Videos101(): (r: seq<Video>)
    ensures |r| == 101
  {
    seq(101, i => Video(i, []))
  }

  /**
    With 101 videos, the first load caches videos 0 to 99 and moves the
    offset to 100. At index 99 the as-written probe fetches video 100 and
    drops it, so loading index 100 then returns `None`; with the page kept,
    it returns video 100.
   */
  lemma ProbeSkipsVideo(query: Query<Video>)
    requires FixedCollection(query, Videos101())
    ensures var records := Videos101();
            var (_, cache, offset) := Load([], 0, PageSize, 101, 0, query);
            cache == records[..100] && offset == 100
            && NextPage(PageSize, 101, offset, query) == (Page(records[100..]), 200)
            && Load(cache, 100, PageSize, 101, 200, query).0 == None
            && Load(cache + records[100..], 100, PageSize, 101, 200, query).0 == Some(records[100])
  {
    var records := Videos101();
    assert query(PageSize, 0) == Some(records[..100]);
    assert [] + records[..100] == records[..100];
    assert query(PageSize, 100) == Some(records[100..]);
    assert records[..100] + records[100..] == records;
  }

  /** Clearing twice is clearing once, and only keys with one of the six prefixes go. */
  lemma ClearedSpec(widgets: map<string, Widget>)
    ensures Cleared(Cleared(widgets)) == Cleared(widgets)
    ensures forall k :: k in widgets ==> (k in Cleared(widgets) <==> !HasClearedPrefix(k))
    ensures forall k :: k in Cleared(widgets) ==> Cleared(widgets)[k] == widgets[k]
  {
  }

  lemma DiffersAt(s: string, p: string, i: nat)
    requires i < |p| && i < |s| && s[i] != p[i]
    ensures !StartsWith(s, p)
  {
    if |p| <= |s| {
      assert s[..|p|][i] == s[i];
    }
  }

  lemma FirstCharNotCleared(s: string)
    requires |s| > 0 && s[0] !in {'w', 't', 's', 'e', 'm', 'd'}
    ensures !HasClearedPrefix(s)
  {
    DiffersAt(s, "wrong_tag_", 0);
    DiffersAt(s, "time_", 0);
    DiffersAt(s, "start_", 0);
    DiffersAt(s, "end_", 0);
    DiffersAt(s, "missed_tag_", 0);
    DiffersAt(s, "duration_", 0);
  }

  /** None of the fixed session keys has a cleared prefix, so clearing never removes one of them. */
  lemma FixedKeysNeverCleared()
    ensures !HasClearedPrefix("evaluation_results") && !HasClearedPrefix("current_video_index")
    ensures !HasClearedPrefix("video_cache") && !HasClearedPrefix("paginator")
    ensures !HasClearedPrefix("wrong_tags") && !HasClearedPrefix("missed_tags")
  {
    FirstCharNotCleared("current_video_index");
    FirstCharNotCleared("video_cache");
    FirstCharNotCleared("paginator");
    var e := "evaluation_results";
    DiffersAt(e, "wrong_tag_", 0);
    DiffersAt(e, "time_", 0);
    DiffersAt(e, "start_", 0);
    DiffersAt(e, "end_", 1);
    DiffersAt(e, "missed_tag_", 0);
    DiffersAt(e, "duration_", 0);
    var w := "wrong_tags";
    DiffersAt(w, "wrong_tag_", 9);
    DiffersAt(w, "time_", 0);
    DiffersAt(w, "start_", 0);
    DiffersAt(w, "end_", 0);
    DiffersAt(w, "missed_tag_", 0);
    DiffersAt(w, "duration_", 0);
    var m := "missed_tags";
    DiffersAt(m, "wrong_tag_", 0);
    DiffersAt(m, "time_", 0);
    DiffersAt(m, "start_", 0);
    DiffersAt(m, "end_", 0);
    DiffersAt(m, "missed_tag_", 10);
    DiffersAt(m, "duration_", 0);
  }

  /** Each submission keeps `total_tags == correct_tags + wrong_tags`, which holds initially. */
  lemma TallyBalanced(t: Tally, tags: int, wrong: int, missed: int)
    requires t.totalTags == t.correctTags + t.wrongTags
    ensures var r := Tallied(t, tags, wrong, missed);
            r.totalTags == r.correctTags + r.wrongTags && r.totalTags == t.totalTags + tags
            && r.wrongTags == t.wrongTags + wrong && r.missedTags == t.missedTags + missed
  {
  }

  /** Tag `k` of the form is tag `k` of the video with its prefix removed. */
  lemma {:induction false} CurrentTagsElements(tags: seq<string>)
    ensures forall k :: 0 <= k < |tags| ==> CurrentTags(tags)[k] == EvaluationReport.CleanTagFormat(tags[k])
    decreases |tags|
  {
    if tags != [] {
      CurrentTagsElements(tags[..|tags| - 1]);
    }
  }
}
