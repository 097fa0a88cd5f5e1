/**
  Metadata enrichment and upload (app/services/video/add.py and
  app/services/video/upload.py) over a video store keyed by the video's URL.
  The store's `get_by_path`, `check_url_exists`, `insert_url` and
  `upsert_video` are not defined in app/dao/video_dao.py; here they are
  lookups and updates of the map `records`. Mining, summarising, the OSS
  upload and the embedding model are function parameters.
 */
module Metadata {
  import opened Wrappers
  import opened Strings
  import Mining

  type Vector = seq<int>

  /** A stored video record. */
  datatype VideoRecord = VideoRecord(mId: int, path: string, embedding: Vector, thumbnailPath: string,
                                     summaryTxt: string, tags: seq<Option<string>>, summaryEmbedding: Option<Vector>)

  datatype AddError =
    | VideoNotFound      // ValueError("Video not found")
    | InvalidActionType  // ValueError for an unknown action type
    | MiningFailed       // the mining call raised
    | SummaryFailed      // the summary call raised, or its result has no 'summary' key
    | SummaryEmbedFailed // `embed_fn(summary_txt)` raised

  /** `parse_mining_result`: the behaviour name of every mined item. */
  function ParseMiningResult(items: seq<Mining.MiningItem>): (tags: seq<Option<string>>)
    ensures |tags| == |items|
  {
    if items == [] then [] else [items[0].behaviour.behaviourName] + ParseMiningResult(items[1..])
  }

  /** Tag `k` is the behaviour name of item `k`, in the same order. */
  lemma {:induction false} ParseMiningResultNames(items: seq<Mining.MiningItem>)
    ensures forall k :: 0 <= k < |items| ==> ParseMiningResult(items)[k] == items[k].behaviour.behaviourName
  {
    if items != [] {
      ParseMiningResultNames(items[1..]);
    }
  }

  /** `parse_summary_result`: `summary_result['summary']`, a KeyError when it is missing. */
  function ParseSummaryResult(summary: map<string, string>): (r: Option<string>)
    ensures r.Some? <==> "summary" in summary
    ensures r.Some? ==> r.value == summary["summary"]
  {
    if "summary" in summary then Some(summary["summary"]) else None
  }

  /** The collaborators of `add`: the mining and summary services and `embed_fn`, each `None` when it raises. */
  datatype Services = Services(
    mine: string -> Option<seq<Mining.MiningItem>>,
    summarize: string -> Option<map<string, string>>,
    embedFn: string -> Option<Vector>)

  /** `process_mining`'s effect on a record. */
  function Mined(video: VideoRecord, url: string, s: Services): Result<VideoRecord, AddError> {
    match s.mine(url)
    case None => Err(MiningFailed)
    case Some(items) => Ok(video.(tags := ParseMiningResult(items)))
  }

  /** `process_summary`'s effect on a record. */
  function Summarized(video: VideoRecord, url: string, s: Services): Result<VideoRecord, AddError> {
    match s.summarize(url)
    case None => Err(SummaryFailed)
    case Some(result) =>
      match ParseSummaryResult(result)
      case None => Err(SummaryFailed)
      case Some(txt) =>
        match s.embedFn(txt)
        case None => Err(SummaryEmbedFailed)
        case Some(e) => Ok(video.(summaryTxt := txt, summaryEmbedding := Some(e)))
  }

  /** The record `add` upserts for an action type, or the error it raises. */
  function Enriched(video: VideoRecord, url: string, actionType: int, s: Services): Result<VideoRecord, AddError> {
    if actionType == 1 then Mined(video, url, s)
    else if actionType == 2 then Summarized(video, url, s)
    else if actionType == 3 then
      match Mined(video, url, s)
      case Err(e) => Err(e)
      case Ok(v) => Summarized(v, url, s)
    else Err(InvalidActionType)
  }

  /**
    What each action type changes: 1 only the tags, 2 only the summary text and
    its embedding (the embedding of exactly that text), 3 both, the mining
    first; the id and every other field are kept; any other type is an error.
   */
  lemma EnrichedFields(video: VideoRecord, url: string, actionType: int, s: Services)
    ensures var r := Enriched(video, url, actionType, s);
            (actionType !in {1, 2, 3} ==> r == Err(InvalidActionType))
            && (r.Ok? ==> r.value.mId == video.mId && r.value.path == video.path && r.value.embedding == video.embedding
                          && r.value.thumbnailPath == video.thumbnailPath)
            && (r.Ok? && actionType == 1 ==> r.value == video.(tags := ParseMiningResult(s.mine(url).value)))
            && (r.Ok? && actionType == 2 ==>
                  r.value.tags == video.tags && r.value.summaryEmbedding == s.embedFn(r.value.summaryTxt)
                  && r.value.summaryEmbedding.Some? && r.value.summaryTxt == s.summarize(url).value["summary"])
            && (r.Ok? && actionType == 3 ==>
                  r.value.tags == ParseMiningResult(s.mine(url).value)
                  && r.value.summaryTxt == s.summarize(url).value["summary"]
                  && r.value.summaryEmbedding == s.embedFn(r.value.summaryTxt) && r.value.summaryEmbedding.Some?)
  {
  }

  /**
    When the summary text cannot be embedded, `add` with action type 2, or 3
    after a successful mining call, raises and nothing is upserted.
   */
  lemma SummaryEmbeddingFailureRaises(video: VideoRecord, url: string, actionType: int, s: Services)
    requires actionType == 2 || actionType == 3
    requires actionType == 3 ==> s.mine(url).Some?
    requires s.summarize(url).Some? && "summary" in s.summarize(url).value
    requires s.embedFn(s.summarize(url).value["summary"]).None?
    ensures Enriched(video, url, actionType, s) == Err(SummaryEmbedFailed)
  {
  }

  /** With action type 3 a failed mining call is the error, whatever the summary service would do. */
  lemma MiningBeforeSummary(video: VideoRecord, url: string, s: Services)
    requires s.mine(url).None?
    ensures Enriched(video, url, 3, s) == Err(MiningFailed)
  {
  }

  datatype UploadError =
    | UploadFailed  // the OSS upload or the thumbnail step raised
    | EmbedFailed   // `embed_fn("")` raised, after the upload and the temporary file's removal

  /** The temporary directory `/tmp`. */
  class TempDir {
    var files: set<string>

    constructor()
      ensures files == {}
    {
      files := {};
    }
  }

  /** The video collection, by path. */
  class VideoStore {
    var records: map<string, VideoRecord>

    constructor(records: map<string, VideoRecord>)
      ensures this.records == records
    {
      this.records := records;
    }

    /**
      `add(video_url, action_type)`: look the record up, enrich a copy of it,
      upsert it and return its id. Nothing is written when the record is
      missing (checked before any service call), the type is unknown, or a
      service raises.
     */
    method Add(videoUrl: string, actionType: int, s: Services) returns (r: Result<int, AddError>)
      modifies this
      ensures videoUrl !in old(records) ==> r == Err(VideoNotFound) && records == old(records)
      ensures videoUrl in old(records) ==>
                match Enriched(old(records)[videoUrl], videoUrl, actionType, s)
                case Err(e) => r == Err(e) && records == old(records)
                case Ok(v) => r == Ok(old(records)[videoUrl].mId) && records == old(records)[videoUrl := v]
    {
      if videoUrl !in records {
        return Err(VideoNotFound);
      }
      var video := records[videoUrl];
      if actionType == 1 {
        var m := Mined(video, videoUrl, s);
        if m.Err? { return Err(m.error); }
        video := m.value;
      } else if actionType == 2 {
        var m := Summarized(video, videoUrl, s);
        if m.Err? { return Err(m.error); }
        video := m.value;
      } else if actionType == 3 {
        var m := Mined(video, videoUrl, s);
        if m.Err? { return Err(m.error); }
        video := m.value;
        var t := Summarized(video, videoUrl, s);
        if t.Err? { return Err(t.error); }
        video := t.value;
      } else {
        return Err(InvalidActionType);
      }
      records := records[videoUrl := video];
      return Ok(video.mId);
    }

    /**
      `upload(video_file)`: save to `/tmp`, upload and derive the thumbnail URL
      (`ossUpload` and `thumbnailUrl` are `None` when they raise), delete the
      temporary file in `finally`, then insert a record only when the URL is
      new. The new record's embedding is `embed_fn("")` (`None` when it
      raises, and then nothing is inserted); its id is `newId`.
     */
    method Upload(tmp: TempDir, secureName: string, ossUpload: string -> Option<string>,
                  thumbnailUrl: string -> Option<string>, embedFn: string -> Option<Vector>, newId: int)
      returns (r: Result<string, UploadError>)
      modifies this, tmp
      ensures tmp.files == old(tmp.files) - {PathJoin("/tmp", secureName)}
      ensures var up := ossUpload(secureName);
              if up.None? || thumbnailUrl(up.value).None? then r == Err(UploadFailed) && records == old(records)
              else if up.value in old(records) then r == Ok(up.value) && records == old(records)
              else if embedFn("").None? then r == Err(EmbedFailed) && records == old(records)
              else r == Ok(up.value)
                   && records == old(records)[up.value := NewRecord(newId, up.value, embedFn("").value, thumbnailUrl(up.value).value)]
    {
      var path := PathJoin("/tmp", secureName);
      tmp.files := tmp.files + {path};
      var up := ossUpload(secureName);
      var thumb: Option<string> := None;
      if up.Some? {
        thumb := thumbnailUrl(up.value);
      }
      tmp.files := tmp.files - {path};
      if up.None? || thumb.None? {
        return Err(UploadFailed);
      }
      var url := up.value;
      if url !in records {
        var embedding := embedFn("");
        if embedding.None? {
          return Err(EmbedFailed);
        }
        records := records[url := NewRecord(newId, url, embedding.value, thumb.value)];
      }
      return Ok(url);
    }
  }

  /** The record `insert_url(url, embedding, thumbnail)` creates. */
  function NewRecord(mId: int, url: string, embedding: Vector, thumbnail: string): (v: VideoRecord)
    ensures v.mId == mId && v.path == url && v.embedding == embedding && v.thumbnailPath == thumbnail
  {
    VideoRecord(mId, url, embedding, thumbnail, "", [], None)
  }

  /** The store after a successful upload, as a function of the store before it. */
  function AfterUpload(records: map<string, VideoRecord>, url: string, newId: int, embedding: Vector,
                       thumbnail: string): map<string, VideoRecord> {
    if url in records then records else records[url := NewRecord(newId, url, embedding, thumbnail)]
  }

  /** Uploading the same URL twice stores it once: the second upload leaves the store as the first left it. */
  lemma UploadIdempotent(records: map<string, VideoRecord>, url: string, id1: int, id2: int,
                         e1: Vector, e2: Vector, t1: string, t2: string)
    ensures var once := AfterUpload(records, url, id1, e1, t1);
            AfterUpload(once, url, id2, e2, t2) == once && url in once
            && once.Keys == records.Keys + {url}
  {
  }
}
