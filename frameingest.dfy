/**
  Batched ingestion of frame and image embeddings
  (app/services/video/updata_video_vector.py): `extract_frames` samples every
  N-th frame by seeking; `update_video_vector` gives each sampled frame the
  next id, its path and its timestamp, and inserts the four parallel column
  lists whenever the running count reaches a multiple of 50;
  `update_image_vector` does the same for image folders with three columns.
 */
module FrameIngest {
  import opened Wrappers
  import opened Strings
  import opened KeyFrames

  /** An embedding (its float components stand as integers). */
  type Vector = seq<int>

  const BatchSize: nat := 50

  // ---------------------------------------------------------------------------
  // extract_frames
  // ---------------------------------------------------------------------------

  /** Seeking to `pos` and reading: the frame there, or a failed read past the end or on a decode error. */
  function ReadAt(video: seq<Option<Frame>>, pos: nat): Option<Frame> {
    if pos < |video| then video[pos] else None
  }

  /** The frames read at `pos`, `pos + n`, `pos + 2n`, ... up to the first failed read. */
  function StrideFrames(video: seq<Option<Frame>>, n: nat, pos: nat): seq<Frame>
    requires n > 0
    decreases |video| - pos
  {
    match ReadAt(video, pos)
    case None => []
    case Some(f) => [f] + StrideFrames(video, n, pos + n)
  }

  /** `extract_frames(video_path, N)`: read, append, advance the position by N and seek. */
  method ExtractFrames(video: seq<Option<Frame>>, n: nat) returns (frames: seq<Frame>)
    requires n > 0
    ensures frames == StrideFrames(video, n, 0)
  {
    frames := [];
    var current := 0;
    while true
      invariant StrideFrames(video, n, 0) == frames + StrideFrames(video, n, current)
      decreases |video| - current
    {
      var read := ReadAt(video, current);
      if read.None? {
        break;
      }
      frames := frames + [read.value];
      current := current + n;
    }
  }

  /** The k-th sampled frame is the one at position `pos + k * n`, and the read after the last one fails. */
  lemma {:induction false} StrideFramesPositions(video: seq<Option<Frame>>, n: nat, pos: nat)
    requires n > 0
    ensures var fs := StrideFrames(video, n, pos);
            (forall k :: 0 <= k < |fs| ==> ReadAt(video, pos + k * n) == Some(fs[k]))
            && ReadAt(video, pos + |fs| * n).None?
    decreases |video| - pos
  {
    var fs := StrideFrames(video, n, pos);
    if ReadAt(video, pos).Some? {
      StrideFramesPositions(video, n, pos + n);
      var rest := StrideFrames(video, n, pos + n);
      assert fs == [ReadAt(video, pos).value] + rest;
      forall k | 0 <= k < |fs| ensures ReadAt(video, pos + k * n) == Some(fs[k]) {
        if k > 0 {
          assert pos + k * n == (pos + n) + (k - 1) * n;
          assert fs[k] == rest[k - 1];
        }
      }
      assert pos + |fs| * n == (pos + n) + |rest| * n;
    }
  }

  // ---------------------------------------------------------------------------
  // update_video_vector
  // ---------------------------------------------------------------------------

  /** One entry of the data folder: its file name, its frames by position, and its frame rate. */
  datatype VideoFile = VideoFile(name: string, content: seq<Option<Frame>>, fps: nat)

  /** The four parallel column lists `m_ids, embeddings, paths, at_seconds`. */
  datatype Batch = Batch(mIds: seq<int>, embeddings: seq<Vector>, paths: seq<string>, atSeconds: seq<int>)

  const EmptyBatch := Batch([], [], [], [])

  /**
    The ingestion state: the column buffers, `total_count`, the batches the
    store accepted, and how many inserts were attempted so far.
   */
  datatype Ingest = Ingest(buffer: Batch, total: nat, inserted: seq<Batch>, attempts: nat)

  const Start := Ingest(EmptyBatch, 0, [], 0)

  datatype IngestError = InsertFailed  // the `insert_data` after the loops raised

  /** A state and whether an exception is propagating out of the current video's `try`. */
  datatype Step = Step(state: Ingest, raised: bool)

  /** `operator.insert_data(buffer)`; the buffers are cleared only when it returns. `insertOk(k)` is the outcome of attempt `k`. */
  function FlushBuffer(st: Ingest, insertOk: nat -> bool): Step {
    if insertOk(st.attempts) then
      Step(st.(buffer := EmptyBatch, inserted := st.inserted + [st.buffer], attempts := st.attempts + 1), false)
    else
      Step(st.(attempts := st.attempts + 1), true)
  }

  /** `int((frame_idx * N) / fps)` for the non-negative values involved. */
  function Timestamp(frameIdx: nat, n: nat, fps: nat): int
    requires fps > 0
  {
    frameIdx * n / fps
  }

  /** One iteration of the inner loop: embed, append three columns, compute the timestamp, count, maybe flush. */
  function AddFrame(st: Ingest, path: string, frameIdx: nat, frame: Frame, n: nat, fps: nat,
                    embed: Frame -> Option<Vector>, insertOk: nat -> bool): Step
  {
    match embed(frame)
    case None => Step(st, true)
    case Some(e) =>
      var b := st.buffer.(mIds := st.buffer.mIds + [st.total], embeddings := st.buffer.embeddings + [e],
                          paths := st.buffer.paths + [path]);
      if fps == 0 then Step(st.(buffer := b), true)
      else
        var st2 := st.(buffer := b.(atSeconds := b.atSeconds + [Timestamp(frameIdx, n, fps)]), total := st.total + 1);
        if st2.total % BatchSize == 0 then FlushBuffer(st2, insertOk) else Step(st2, false)
  }

  /** The inner loop from frame `idx` on, stopping at the first exception. */
  function FramesFrom(st: Ingest, path: string, frames: seq<Frame>, idx: nat, n: nat, fps: nat,
                      embed: Frame -> Option<Vector>, insertOk: nat -> bool): Step
    requires idx <= |frames|
    decreases |frames| - idx
  {
    if idx == |frames| then Step(st, false)
    else
      var s := AddFrame(st, path, idx, frames[idx], n, fps, embed, insertOk);
      if s.raised then s else FramesFrom(s.state, path, frames, idx + 1, n, fps, embed, insertOk)
  }

  /** One video inside its `try`: an exception is caught, and what was appended before it stays buffered. */
  function VideoStep(st: Ingest, dataPath: string, video: VideoFile, n: nat,
                     embed: Frame -> Option<Vector>, insertOk: nat -> bool): Ingest
    requires n > 0
  {
    FramesFrom(st, PathJoin(dataPath, video.name), StrideFrames(video.content, n, 0), 0, n, video.fps, embed, insertOk).state
  }

  function AllVideos(st: Ingest, dataPath: string, videos: seq<VideoFile>, n: nat,
                     embed: Frame -> Option<Vector>, insertOk: nat -> bool): Ingest
    requires n > 0
    decreases |videos|
  {
    if videos == [] then st
    else AllVideos(VideoStep(st, dataPath, videos[0], n, embed, insertOk), dataPath, videos[1..], n, embed, insertOk)
  }

  /** The final flush of a non-empty buffer, outside any `try`. */
  function FinalFlush(st: Ingest, insertOk: nat -> bool): Result<Ingest, IngestError> {
    if |st.buffer.mIds| == 0 then Ok(st)
    else if insertOk(st.attempts) then Ok(st.(inserted := st.inserted + [st.buffer], attempts := st.attempts + 1))
    else Err(InsertFailed)
  }

  function UpdateVideoVectorSpec(dataPath: string, videos: seq<VideoFile>, n: nat,
                                 embed: Frame -> Option<Vector>, insertOk: nat -> bool): Result<Ingest, IngestError>
    requires n > 0
  {
    FinalFlush(AllVideos(Start, dataPath, videos, n, embed, insertOk), insertOk)
  }

  /** The inner `for frame_idx, frame in enumerate(frames)` loop of one video, inside its `try`. */
  method IngestFrames(st: Ingest, videoPath: string, frames: seq<Frame>, n: nat, fps: nat,
                      embed: Frame -> Option<Vector>, insertOk: nat -> bool)
    returns (out: Ingest)
    ensures out == FramesFrom(st, videoPath, frames, 0, n, fps, embed, insertOk).state
  {
    var mIds, embeddings, paths, atSeconds := st.buffer.mIds, st.buffer.embeddings, st.buffer.paths, st.buffer.atSeconds;
    var totalCount: nat, inserted, attempts: nat := st.total, st.inserted, st.attempts;
    var frameIdx := 0;
    var raised := false;
    while frameIdx < |frames| && !raised
      invariant 0 <= frameIdx <= |frames|
      invariant var cur := Ingest(Batch(mIds, embeddings, paths, atSeconds), totalCount, inserted, attempts);
                FramesFrom(st, videoPath, frames, 0, n, fps, embed, insertOk)
                == if raised then Step(cur, true) else FramesFrom(cur, videoPath, frames, frameIdx, n, fps, embed, insertOk)
      decreases |frames| - frameIdx, if raised then 0 else 1
    {
      var e := embed(frames[frameIdx]);
      if e.None? {
        raised := true;
      } else {
        mIds := mIds + [totalCount];
        embeddings := embeddings + [e.value];
        paths := paths + [videoPath];
        if fps == 0 {
          raised := true;
        } else {
          atSeconds := atSeconds + [frameIdx * n / fps];
          totalCount := totalCount + 1;
          if totalCount % BatchSize == 0 {
            if insertOk(attempts) {
              inserted := inserted + [Batch(mIds, embeddings, paths, atSeconds)];
              mIds, embeddings, paths, atSeconds := [], [], [], [];
            } else {
              raised := true;
            }
            attempts := attempts + 1;
          }
        }
        if !raised {
          frameIdx := frameIdx + 1;
        }
      }
    }
    out := Ingest(Batch(mIds, embeddings, paths, atSeconds), totalCount, inserted, attempts);
  }

  /** `update_video_vector(data_path, operator, N)` over the folder's videos in listing order. */
  method UpdateVideoVector(dataPath: string, videos: seq<VideoFile>, n: nat,
                           embed: Frame -> Option<Vector>, insertOk: nat -> bool)
    returns (r: Result<Ingest, IngestError>)
    requires n > 0
    ensures r == UpdateVideoVectorSpec(dataPath, videos, n, embed, insertOk)
  {
    var st := IngestVideos(dataPath, videos, n, embed, insertOk);
    if |st.buffer.mIds| == 0 {
      return Ok(st);
    } else if insertOk(st.attempts) {
      return Ok(st.(inserted := st.inserted + [st.buffer], attempts := st.attempts + 1));
    } else {
      return Err(InsertFailed);
    }
  }

  /** The `for video_file in os.listdir(data_path)` loop, each video inside its own `try`. */
  method IngestVideos(dataPath: string, videos: seq<VideoFile>, n: nat,
                      embed: Frame -> Option<Vector>, insertOk: nat -> bool)
    returns (st: Ingest)
    requires n > 0
    ensures st == AllVideos(Start, dataPath, videos, n, embed, insertOk)
  {
    st := Start;
    var i := 0;
    while i < |videos|
      invariant 0 <= i <= |videos|
      invariant AllVideos(st, dataPath, videos[i..], n, embed, insertOk) == AllVideos(Start, dataPath, videos, n, embed, insertOk)
    {
      var video := videos[i];
      var frames := ExtractFrames(video.content, n);
      AllVideosUnfold(st, dataPath, videos, i, n, embed, insertOk);
      st := IngestFrames(st, PathJoin(dataPath, video.name), frames, n, video.fps, embed, insertOk);
      i := i + 1;
    }
    assert videos[i..] == [];
  }

  lemma AllVideosUnfold(st: Ingest, dataPath: string, videos: seq<VideoFile>, i: nat, n: nat,
                        embed: Frame -> Option<Vector>, insertOk: nat -> bool)
    requires n > 0 && i < |videos|
    ensures AllVideos(st, dataPath, videos[i..], n, embed, insertOk)
            == AllVideos(VideoStep(st, dataPath, videos[i], n, embed, insertOk), dataPath, videos[i + 1..], n, embed, insertOk)
  {
    assert videos[i..][0] == videos[i] && videos[i..][1..] == videos[i + 1..];
  }

  // ---------------------------------------------------------------------------
  // Properties of the video ingestion
  // ---------------------------------------------------------------------------

  /** The four columns of `a` followed by those of `b`. */
  function Append(a: Batch, b: Batch): Batch {
    Batch(a.mIds + b.mIds, a.embeddings + b.embeddings, a.paths + b.paths, a.atSeconds + b.atSeconds)
  }

  lemma AppendAssoc(a: Batch, b: Batch, c: Batch)
    ensures Append(Append(a, b), c) == Append(a, Append(b, c))
  {
  }

  lemma AppendEmpty(a: Batch)
    ensures Append(a, EmptyBatch) == a && Append(EmptyBatch, a) == a
  {
  }

  /** The columns of the batches laid end to end: the rows the store received, in insertion order. */
  function Concat(bs: seq<Batch>): Batch {
    if bs == [] then EmptyBatch else Append(Concat(bs[..|bs| - 1]), bs[|bs| - 1])
  }

  function IdsOf(bs: seq<Batch>): seq<int> {
    Concat(bs).mIds
  }

  function Range(lo: int, hi: int): (r: seq<int>)
    ensures |r| == if lo <= hi then hi - lo else 0
    ensures forall k :: 0 <= k < |r| ==> r[k] == lo + k
    decreases hi - lo
  {
    if lo >= hi then [] else Range(lo, hi - 1) + [hi - 1]
  }

  predicate Aligned(b: Batch) {
    |b.mIds| == |b.embeddings| == |b.paths| == |b.atSeconds|
  }

  /**
    No row is lost or repeated: the ids accepted so far followed by the
    buffered ones are exactly 0, 1, ..., total_count - 1, and the four
    buffers have the same length.
   */
  predicate IdsConsecutive(st: Ingest) {
    Aligned(st.buffer) && IdsOf(st.inserted) + st.buffer.mIds == Range(0, st.total)
  }

  lemma ConcatAppend(bs: seq<Batch>, b: Batch)
    ensures Concat(bs + [b]) == Append(Concat(bs), b)
  {
    assert (bs + [b])[..|bs + [b]| - 1] == bs;
  }

  lemma IdsOfAppend(bs: seq<Batch>, b: Batch)
    ensures IdsOf(bs + [b]) == IdsOf(bs) + b.mIds
  {
    ConcatAppend(bs, b);
  }

  lemma FlushKeepsIds(st: Ingest, insertOk: nat -> bool)
    requires IdsConsecutive(st)
    ensures IdsConsecutive(FlushBuffer(st, insertOk).state)
  {
    if insertOk(st.attempts) {
      IdsOfAppend(st.inserted, st.buffer);
      assert IdsOf(st.inserted + [st.buffer]) + [] == IdsOf(st.inserted) + st.buffer.mIds;
    }
  }

  lemma AddFrameKeepsIds(st: Ingest, path: string, frameIdx: nat, frame: Frame, n: nat, fps: nat,
                         embed: Frame -> Option<Vector>, insertOk: nat -> bool)
    requires IdsConsecutive(st) && fps > 0
    ensures IdsConsecutive(AddFrame(st, path, frameIdx, frame, n, fps, embed, insertOk).state)
  {
    if embed(frame).Some? {
      var s := AddFrame(st, path, frameIdx, frame, n, fps, embed, insertOk);
      var b := st.buffer;
      var st2 := st.(buffer := Batch(b.mIds + [st.total], b.embeddings + [embed(frame).value],
                                     b.paths + [path], b.atSeconds + [Timestamp(frameIdx, n, fps)]),
                     total := st.total + 1);
      assert IdsOf(st.inserted) + (b.mIds + [st.total]) == Range(0, st.total) + [st.total];
      assert IdsConsecutive(st2);
      if st2.total % BatchSize == 0 {
        FlushKeepsIds(st2, insertOk);
      }
    }
  }

  lemma {:induction false} FramesFromKeepsIds(st: Ingest, path: string, frames: seq<Frame>, idx: nat, n: nat, fps: nat,
                                            embed: Frame -> Option<Vector>, insertOk: nat -> bool)
    requires idx <= |frames| && IdsConsecutive(st) && (fps > 0 || idx == |frames|)
    ensures IdsConsecutive(FramesFrom(st, path, frames, idx, n, fps, embed, insertOk).state)
    decreases |frames| - idx
  {
    if idx < |frames| {
      AddFrameKeepsIds(st, path, idx, frames[idx], n, fps, embed, insertOk);
      var s := AddFrame(st, path, idx, frames[idx], n, fps, embed, insertOk);
      if !s.raised {
        FramesFromKeepsIds(s.state, path, frames, idx + 1, n, fps, embed, insertOk);
      }
    }
  }

  /**
    Every entry that yields a frame has a positive frame rate. A file that is
    not a video opens with fps 0 and yields no frame, so it is allowed.
   */
  predicate FpsKnown(videos: seq<VideoFile>, n: nat)
    requires n > 0
  {
    forall k :: 0 <= k < |videos| ==> videos[k].fps > 0 || StrideFrames(videos[k].content, n, 0) == []
  }

  /** An entry that yields no frame, such as a file that is not a video, changes nothing, whatever its frame rate. */
  lemma FramelessEntrySkipped(st: Ingest, dataPath: string, video: VideoFile, n: nat,
                              embed: Frame -> Option<Vector>, insertOk: nat -> bool)
    requires n > 0 && StrideFrames(video.content, n, 0) == []
    ensures VideoStep(st, dataPath, video, n, embed, insertOk) == st
  {
  }

  lemma {:induction false} AllVideosKeepIds(st: Ingest, dataPath: string, videos: seq<VideoFile>, n: nat,
                                          embed: Frame -> Option<Vector>, insertOk: nat -> bool)
    requires n > 0 && IdsConsecutive(st) && FpsKnown(videos, n)
    ensures IdsConsecutive(AllVideos(st, dataPath, videos, n, embed, insertOk))
    decreases |videos|
  {
    if videos != [] {
      var v := videos[0];
      FramesFromKeepsIds(st, PathJoin(dataPath, v.name), StrideFrames(v.content, n, 0), 0, n, v.fps, embed, insertOk);
      AllVideosKeepIds(VideoStep(st, dataPath, v, n, embed, insertOk), dataPath, videos[1..], n, embed, insertOk);
    }
  }

  /**
    When the final insert succeeds, the store received every id 0 .. total - 1
    exactly once and in order, even when earlier inserts or videos failed.
   */
  lemma UpdateVideoVectorInsertsEveryId(dataPath: string, videos: seq<VideoFile>, n: nat,
                                        embed: Frame -> Option<Vector>, insertOk: nat -> bool)
    requires n > 0 && FpsKnown(videos, n)
    requires UpdateVideoVectorSpec(dataPath, videos, n, embed, insertOk).Ok?
    ensures var st := UpdateVideoVectorSpec(dataPath, videos, n, embed, insertOk).value;
            IdsOf(st.inserted) == Range(0, st.total)
  {
    var st := AllVideos(Start, dataPath, videos, n, embed, insertOk);
    assert IdsConsecutive(Start) by {
      assert IdsOf([]) + [] == Range(0, 0);
    }
    AllVideosKeepIds(Start, dataPath, videos, n, embed, insertOk);
    if |st.buffer.mIds| > 0 {
      IdsOfAppend(st.inserted, st.buffer);
    } else {
      assert IdsOf(st.inserted) + st.buffer.mIds == IdsOf(st.inserted);
    }
  }

  /** A frame that embeds and has a timestamp triggers an insert exactly when the new count is a multiple of 50. */
  lemma AddFrameFlushesAtMultiples(st: Ingest, path: string, frameIdx: nat, frame: Frame, n: nat, fps: nat,
                                   embed: Frame -> Option<Vector>, insertOk: nat -> bool)
    requires embed(frame).Some? && fps > 0
    ensures var s := AddFrame(st, path, frameIdx, frame, n, fps, embed, insertOk);
            s.state.total == st.total + 1
            && (s.state.attempts == st.attempts + 1 <==> (st.total + 1) % BatchSize == 0)
            && (s.state.attempts == st.attempts <==> (st.total + 1) % BatchSize != 0)
  {
  }

  /** While every insert succeeds, the buffer holds `total % 50` rows and every accepted batch has 50. */
  predicate FullBatches(st: Ingest) {
    |st.buffer.mIds| == st.total % BatchSize
    && forall k :: 0 <= k < |st.inserted| ==> |st.inserted[k].mIds| == BatchSize
  }

  lemma {:induction false} FramesFromFullBatches(st: Ingest, path: string, frames: seq<Frame>, idx: nat, n: nat, fps: nat,
                                               embed: Frame -> Option<Vector>, insertOk: nat -> bool)
    requires idx <= |frames| && FullBatches(st) && (fps > 0 || idx == |frames|)
    requires forall k :: insertOk(k)
    ensures FullBatches(FramesFrom(st, path, frames, idx, n, fps, embed, insertOk).state)
    decreases |frames| - idx
  {
    if idx < |frames| {
      var s := AddFrame(st, path, idx, frames[idx], n, fps, embed, insertOk);
      if embed(frames[idx]).Some? {
        var t := st.total + 1;
        if t % BatchSize == 0 {
          assert |st.buffer.mIds| + 1 == BatchSize;
        } else {
          assert t % BatchSize == st.total % BatchSize + 1;
        }
      }
      if !s.raised {
        FramesFromFullBatches(s.state, path, frames, idx + 1, n, fps, embed, insertOk);
      }
    }
  }

  lemma {:induction false} AllVideosFullBatches(st: Ingest, dataPath: string, videos: seq<VideoFile>, n: nat,
                                              embed: Frame -> Option<Vector>, insertOk: nat -> bool)
    requires n > 0 && FullBatches(st) && FpsKnown(videos, n)
    requires forall k :: insertOk(k)
    ensures FullBatches(AllVideos(st, dataPath, videos, n, embed, insertOk))
    decreases |videos|
  {
    if videos != [] {
      var v := videos[0];
      FramesFromFullBatches(st, PathJoin(dataPath, v.name), StrideFrames(v.content, n, 0), 0, n, v.fps, embed, insertOk);
      AllVideosFullBatches(VideoStep(st, dataPath, v, n, embed, insertOk), dataPath, videos[1..], n, embed, insertOk);
    }
  }

  /**
    With no failed insert: the run succeeds, every batch but the last holds
    exactly 50 rows, the last holds between 1 and 50, and together they hold
    every id in order and every record's columns.
   */
  lemma UpdateVideoVectorBatchSizes(dataPath: string, videos: seq<VideoFile>, n: nat,
                                    embed: Frame -> Option<Vector>, insertOk: nat -> bool)
    requires n > 0 && FpsKnown(videos, n)
    requires forall k :: insertOk(k)
    ensures var r := UpdateVideoVectorSpec(dataPath, videos, n, embed, insertOk);
            r.Ok?
            && (forall k :: 0 <= k < |r.value.inserted| - 1 ==> |r.value.inserted[k].mIds| == BatchSize)
            && (|r.value.inserted| > 0 ==> 0 < |r.value.inserted[|r.value.inserted| - 1].mIds| <= BatchSize)
            && IdsOf(r.value.inserted) == Range(0, r.value.total)
            && Concat(r.value.inserted) == Records(dataPath, videos, n, embed, 0)
  {
    AllVideosFullBatches(Start, dataPath, videos, n, embed, insertOk);
    UpdateVideoVectorInsertsEveryId(dataPath, videos, n, embed, insertOk);
    UpdateVideoVectorInsertsRecords(dataPath, videos, n, embed, insertOk);
  }

  // ---------------------------------------------------------------------------
  // The rows of a run without failed inserts
  // ---------------------------------------------------------------------------

  /** The single row `(id, embedding, path, at_seconds)`. */
  function Row(id: nat, e: Vector, path: string, at: int): Batch {
    Batch([id], [e], [path], [at])
  }

  /**
    The rows of frames `idx..` of one video, with ids from `id`: every frame
    in order, under the video's path and with its timestamp, up to the first
    frame the embedding model fails on.
   */
  function FrameRecords(path: string, frames: seq<Frame>, idx: nat, n: nat, fps: nat,
                        embed: Frame -> Option<Vector>, id: nat): Batch
    requires idx <= |frames| && (fps > 0 || idx == |frames|)
    decreases |frames| - idx
  {
    if idx == |frames| then EmptyBatch
    else match embed(frames[idx])
      case None => EmptyBatch
      case Some(e) => Append(Row(id, e, path, Timestamp(idx, n, fps)), FrameRecords(path, frames, idx + 1, n, fps, embed, id + 1))
  }

  /** The rows of the whole folder with ids from `id`: each video's sampled frames, videos in listing order. */
  function Records(dataPath: string, videos: seq<VideoFile>, n: nat, embed: Frame -> Option<Vector>, id: nat): Batch
    requires n > 0 && FpsKnown(videos, n)
    decreases |videos|
  {
    if videos == [] then EmptyBatch
    else
      var v := videos[0];
      var r := FrameRecords(PathJoin(dataPath, v.name), StrideFrames(v.content, n, 0), 0, n, v.fps, embed, id);
      FpsKnownTail(videos, n);
      Append(r, Records(dataPath, videos[1..], n, embed, id + |r.mIds|))
  }

  lemma FpsKnownTail(videos: seq<VideoFile>, n: nat)
    requires n > 0 && videos != [] && FpsKnown(videos, n)
    ensures FpsKnown(videos[1..], n)
  {
    forall k | 0 <= k < |videos[1..]| ensures videos[1..][k].fps > 0 || StrideFrames(videos[1..][k].content, n, 0) == [] {
      assert videos[1..][k] == videos[k + 1];
    }
  }

  /** The rows accepted so far followed by the buffered ones. */
  function Stored(st: Ingest): Batch {
    Append(Concat(st.inserted), st.buffer)
  }

  lemma AddFrameRecord(st: Ingest, path: string, frameIdx: nat, frame: Frame, n: nat, fps: nat,
                       embed: Frame -> Option<Vector>, insertOk: nat -> bool)
    requires fps > 0 && embed(frame).Some? && forall k :: insertOk(k)
    ensures var s := AddFrame(st, path, frameIdx, frame, n, fps, embed, insertOk);
            !s.raised && s.state.total == st.total + 1
            && Stored(s.state) == Append(Stored(st), Row(st.total, embed(frame).value, path, Timestamp(frameIdx, n, fps)))
  {
    var b := Append(st.buffer, Row(st.total, embed(frame).value, path, Timestamp(frameIdx, n, fps)));
    if (st.total + 1) % BatchSize == 0 {
      ConcatAppend(st.inserted, b);
    }
  }

  lemma {:induction false} FramesFromRecords(st: Ingest, path: string, frames: seq<Frame>, idx: nat, n: nat, fps: nat,
                                           embed: Frame -> Option<Vector>, insertOk: nat -> bool)
    requires idx <= |frames| && (fps > 0 || idx == |frames|) && forall k :: insertOk(k)
    ensures var s := FramesFrom(st, path, frames, idx, n, fps, embed, insertOk).state;
            var r := FrameRecords(path, frames, idx, n, fps, embed, st.total);
            Stored(s) == Append(Stored(st), r) && s.total == st.total + |r.mIds|
    decreases |frames| - idx
  {
    if idx == |frames| || embed(frames[idx]).None? {
      AppendEmpty(Stored(st));
    } else {
      var e := embed(frames[idx]).value;
      var row := Row(st.total, e, path, Timestamp(idx, n, fps));
      AddFrameRecord(st, path, idx, frames[idx], n, fps, embed, insertOk);
      var s1 := AddFrame(st, path, idx, frames[idx], n, fps, embed, insertOk).state;
      var rest := FrameRecords(path, frames, idx + 1, n, fps, embed, st.total + 1);
      assert FrameRecords(path, frames, idx, n, fps, embed, st.total) == Append(row, rest);
      assert FramesFrom(st, path, frames, idx, n, fps, embed, insertOk) == FramesFrom(s1, path, frames, idx + 1, n, fps, embed, insertOk);
      FramesFromRecords(s1, path, frames, idx + 1, n, fps, embed, insertOk);
      AppendAssoc(Stored(st), row, rest);
    }
  }

  lemma {:induction false} AllVideosRecords(st: Ingest, dataPath: string, videos: seq<VideoFile>, n: nat,
                                          embed: Frame -> Option<Vector>, insertOk: nat -> bool)
    requires n > 0 && FpsKnown(videos, n) && forall k :: insertOk(k)
    ensures var s := AllVideos(st, dataPath, videos, n, embed, insertOk);
            var r := Records(dataPath, videos, n, embed, st.total);
            Stored(s) == Append(Stored(st), r) && s.total == st.total + |r.mIds|
    decreases |videos|
  {
    if videos != [] {
      var v := videos[0];
      var path := PathJoin(dataPath, v.name);
      var s1 := VideoStep(st, dataPath, v, n, embed, insertOk);
      var r1 := FrameRecords(path, StrideFrames(v.content, n, 0), 0, n, v.fps, embed, st.total);
      FramesFromRecords(st, path, StrideFrames(v.content, n, 0), 0, n, v.fps, embed, insertOk);
      FpsKnownTail(videos, n);
      var rest := Records(dataPath, videos[1..], n, embed, s1.total);
      assert Records(dataPath, videos, n, embed, st.total) == Append(r1, rest);
      AllVideosRecords(s1, dataPath, videos[1..], n, embed, insertOk);
      assert Stored(AllVideos(st, dataPath, videos, n, embed, insertOk)) == Append(Stored(s1), rest);
      assert Stored(s1) == Append(Stored(st), r1);
      AppendAssoc(Stored(st), r1, rest);
    } else {
      AppendEmpty(Stored(st));
    }
  }

  /**
    With no failed insert, the batches the store received, laid end to end,
    are exactly the folder's records: row `k` has id `k` and the embedding,
    the path and the timestamp of the `k`-th embedded sampled frame.
   */
  lemma UpdateVideoVectorInsertsRecords(dataPath: string, videos: seq<VideoFile>, n: nat,
                                        embed: Frame -> Option<Vector>, insertOk: nat -> bool)
    requires n > 0 && FpsKnown(videos, n)
    requires forall k :: insertOk(k)
    ensures var r := UpdateVideoVectorSpec(dataPath, videos, n, embed, insertOk);
            r.Ok? && Concat(r.value.inserted) == Records(dataPath, videos, n, embed, 0)
            && r.value.total == |Records(dataPath, videos, n, embed, 0).mIds|
  {
    var st := AllVideos(Start, dataPath, videos, n, embed, insertOk);
    var recs := Records(dataPath, videos, n, embed, 0);
    AllVideosRecords(Start, dataPath, videos, n, embed, insertOk);
    assert Stored(Start) == EmptyBatch;
    AppendEmpty(recs);
    assert IdsConsecutive(Start) by {
      assert IdsOf([]) + [] == Range(0, 0);
    }
    AllVideosKeepIds(Start, dataPath, videos, n, embed, insertOk);
    FinalFlushStored(st, insertOk);
  }

  /** Without a failed insert, the final flush hands the store everything stored so far. */
  lemma FinalFlushStored(st: Ingest, insertOk: nat -> bool)
    requires Aligned(st.buffer) && forall k :: insertOk(k)
    ensures FinalFlush(st, insertOk).Ok? && FinalFlush(st, insertOk).value.total == st.total
            && Concat(FinalFlush(st, insertOk).value.inserted) == Stored(st)
  {
    if |st.buffer.mIds| > 0 {
      ConcatAppend(st.inserted, st.buffer);
    } else {
      assert st.buffer == EmptyBatch;
    }
  }

  /** Timestamps never decrease along a video. */
  lemma TimestampMonotone(j: nat, k: nat, n: nat, fps: nat)
    requires fps > 0 && j <= k
    ensures Timestamp(j, n, fps) <= Timestamp(k, n, fps)
  {
    assert j * n <= k * n by {
      assert k * n == j * n + (k - j) * n;
    }
    DivMonotone(j * n, k * n, fps);
  }

  lemma DivMonotone(a: nat, b: nat, d: nat)
    requires d > 0 && a <= b
    ensures a / d <= b / d
  {
    if a / d > b / d {
      assert a == d * (a / d) + a % d && b == d * (b / d) + b % d;
      assert d * (a / d) == d * (b / d) + d * (a / d - b / d);
      Sampling.MulAtLeast(d, a / d - b / d);
    }
  }

  // ---------------------------------------------------------------------------
  // update_image_vector and process_single_image
  // ---------------------------------------------------------------------------

  /** A decoded image (pixel values). */
  type Image = seq<int>

  /** A file in a class folder; `None` when `Image.open(...).convert('RGB')` raises. */
  datatype ImageFile = ImageFile(name: string, image: Option<Image>)

  /** An entry of the data folder: a sub-directory of images, or anything else (skipped). */
  datatype FolderEntry = SubDir(name: string, files: seq<ImageFile>) | NotDir(name: string)

  /** `data_path` is a single file, or a folder listed in `os.listdir` order. */
  datatype ImageSource = SingleImage(image: Option<Image>) | Folder(entries: seq<FolderEntry>)

  /** The three parallel column lists `m_ids, embeddings, paths`. */
  datatype ImageBatch = ImageBatch(mIds: seq<int>, embeddings: seq<Vector>, paths: seq<string>)

  const EmptyImageBatch := ImageBatch([], [], [])

  datatype ImageIngest = ImageIngest(buffer: ImageBatch, total: nat, inserted: seq<ImageBatch>, attempts: nat)

  const ImageStart := ImageIngest(EmptyImageBatch, 0, [], 0)

  /** One file inside its `try`: a failed open, embedding or insert is caught and the loop goes on. */
  function AddImage(st: ImageIngest, path: string, image: Option<Image>,
                    embed: Image -> Option<Vector>, insertOk: nat -> bool): ImageIngest
  {
    if image.None? || embed(image.value).None? then st
    else
      var b := ImageBatch(st.buffer.mIds + [st.total], st.buffer.embeddings + [embed(image.value).value],
                          st.buffer.paths + [path]);
      var st2 := st.(buffer := b, total := st.total + 1);
      if st2.total % BatchSize != 0 then st2
      else if insertOk(st2.attempts) then
        st2.(buffer := EmptyImageBatch, inserted := st2.inserted + [b], attempts := st2.attempts + 1)
      else st2.(attempts := st2.attempts + 1)
  }

  function ImagesIn(st: ImageIngest, dirPath: string, files: seq<ImageFile>,
                    embed: Image -> Option<Vector>, insertOk: nat -> bool): ImageIngest
    decreases |files|
  {
    if files == [] then st
    else ImagesIn(AddImage(st, PathJoin(dirPath, files[0].name), files[0].image, embed, insertOk),
                  dirPath, files[1..], embed, insertOk)
  }

  function FolderImages(st: ImageIngest, dataPath: string, entries: seq<FolderEntry>,
                        embed: Image -> Option<Vector>, insertOk: nat -> bool): ImageIngest
    decreases |entries|
  {
    if entries == [] then st
    else
      var st2 := match entries[0]
                 case NotDir(_) => st
                 case SubDir(name, files) => ImagesIn(st, PathJoin(dataPath, name), files, embed, insertOk);
      FolderImages(st2, dataPath, entries[1..], embed, insertOk)
  }

  /** `process_single_image(path, operator)` with `id_start = 0`: one row inserted, every error swallowed. */
  function SingleImageInserted(path: string, image: Option<Image>, embed: Image -> Option<Vector>,
                               insertOk: nat -> bool): (r: seq<ImageBatch>)
    ensures |r| <= 1
    ensures r != [] <==> image.Some? && embed(image.value).Some? && insertOk(0)
    ensures r != [] ==> r[0].mIds == [0] && r[0].paths == [path]
  {
    if image.Some? && embed(image.value).Some? && insertOk(0) then
      [ImageBatch([0], [embed(image.value).value], [path])]
    else []
  }

  function FinalImageFlush(st: ImageIngest, insertOk: nat -> bool): Result<ImageIngest, IngestError> {
    if |st.buffer.mIds| == 0 then Ok(st)
    else if insertOk(st.attempts) then Ok(st.(inserted := st.inserted + [st.buffer], attempts := st.attempts + 1))
    else Err(InsertFailed)
  }

  function UpdateImageVectorSpec(dataPath: string, source: ImageSource, embed: Image -> Option<Vector>,
                                 insertOk: nat -> bool): Result<ImageIngest, IngestError>
  {
    match source
    case SingleImage(image) =>
      var ins := SingleImageInserted(dataPath, image, embed, insertOk);
      Ok(ImageStart.(inserted := ins, attempts := if image.Some? && embed(image.value).Some? then 1 else 0))
    case Folder(entries) => FinalImageFlush(FolderImages(ImageStart, dataPath, entries, embed, insertOk), insertOk)
  }

  /** The inner `for file in os.listdir(sub_dir)` loop. */
  method IngestImages(st: ImageIngest, dirPath: string, files: seq<ImageFile>,
                      embed: Image -> Option<Vector>, insertOk: nat -> bool)
    returns (out: ImageIngest)
    ensures out == ImagesIn(st, dirPath, files, embed, insertOk)
  {
    var mIds, embeddings, paths := st.buffer.mIds, st.buffer.embeddings, st.buffer.paths;
    var totalCount: nat, inserted, attempts: nat := st.total, st.inserted, st.attempts;
    var k := 0;
    while k < |files|
      invariant 0 <= k <= |files|
      invariant ImagesIn(ImageIngest(ImageBatch(mIds, embeddings, paths), totalCount, inserted, attempts),
                         dirPath, files[k..], embed, insertOk)
                == ImagesIn(st, dirPath, files, embed, insertOk)
    {
      var imagePath := PathJoin(dirPath, files[k].name);
      var image := files[k].image;
      ghost var cur := ImageIngest(ImageBatch(mIds, embeddings, paths), totalCount, inserted, attempts);
      ImagesInUnfold(cur, dirPath, files, k, embed, insertOk);
      if image.Some? {
        var e := embed(image.value);
        if e.Some? {
          mIds := mIds + [totalCount];
          embeddings := embeddings + [e.value];
          paths := paths + [imagePath];
          totalCount := totalCount + 1;
          if totalCount % BatchSize == 0 {
            if insertOk(attempts) {
              inserted := inserted + [ImageBatch(mIds, embeddings, paths)];
              mIds, embeddings, paths := [], [], [];
            }
            attempts := attempts + 1;
          }
        }
      }
      assert ImageIngest(ImageBatch(mIds, embeddings, paths), totalCount, inserted, attempts)
             == AddImage(cur, imagePath, image, embed, insertOk);
      k := k + 1;
    }
    assert files[k..] == [];
    out := ImageIngest(ImageBatch(mIds, embeddings, paths), totalCount, inserted, attempts);
  }

  lemma ImagesInUnfold(st: ImageIngest, dirPath: string, files: seq<ImageFile>, k: nat,
                       embed: Image -> Option<Vector>, insertOk: nat -> bool)
    requires k < |files|
    ensures ImagesIn(st, dirPath, files[k..], embed, insertOk)
            == ImagesIn(AddImage(st, PathJoin(dirPath, files[k].name), files[k].image, embed, insertOk),
                        dirPath, files[k + 1..], embed, insertOk)
  {
    assert files[k..][0] == files[k] && files[k..][1..] == files[k + 1..];
  }

  /** `update_image_vector(data_path, operator)`. */
  method UpdateImageVector(dataPath: string, source: ImageSource, embed: Image -> Option<Vector>,
                           insertOk: nat -> bool)
    returns (r: Result<ImageIngest, IngestError>)
    ensures r == UpdateImageVectorSpec(dataPath, source, embed, insertOk)
  {
    if source.SingleImage? {
      var inserted: seq<ImageBatch> := [];
      var attempts := 0;
      var image := source.image;
      if image.Some? {
        var e := embed(image.value);
        if e.Some? {
          if insertOk(0) {
            inserted := [ImageBatch([0], [e.value], [dataPath])];
          }
          attempts := 1;
        }
      }
      return Ok(ImageStart.(inserted := inserted, attempts := attempts));
    }
    var entries := source.entries;
    var st := ImageStart;
    var i := 0;
    while i < |entries|
      invariant 0 <= i <= |entries|
      invariant FolderImages(st, dataPath, entries[i..], embed, insertOk)
                == FolderImages(ImageStart, dataPath, entries, embed, insertOk)
    {
      ghost var before := st;
      if entries[i].SubDir? {
        st := IngestImages(st, PathJoin(dataPath, entries[i].name), entries[i].files, embed, insertOk);
      }
      assert entries[i..][0] == entries[i] && entries[i..][1..] == entries[i + 1..];
      i := i + 1;
    }
    assert entries[i..] == [];
    if |st.buffer.mIds| > 0 {
      if !insertOk(st.attempts) {
        return Err(InsertFailed);
      }
      st := st.(inserted := st.inserted + [st.buffer], attempts := st.attempts + 1);
    }
    return Ok(st);
  }

  // ---------------------------------------------------------------------------
  // Properties of the image ingestion
  // ---------------------------------------------------------------------------

  function ImageIdsOf(bs: seq<ImageBatch>): seq<int> {
    if bs == [] then [] else ImageIdsOf(bs[..|bs| - 1]) + bs[|bs| - 1].mIds
  }

  predicate ImageIdsConsecutive(st: ImageIngest) {
    |st.buffer.mIds| == |st.buffer.embeddings| == |st.buffer.paths|
    && ImageIdsOf(st.inserted) + st.buffer.mIds == Range(0, st.total)
  }

  lemma ImageIdsOfAppend(bs: seq<ImageBatch>, b: ImageBatch)
    ensures ImageIdsOf(bs + [b]) == ImageIdsOf(bs) + b.mIds
  {
    assert (bs + [b])[..|bs + [b]| - 1] == bs;
  }

  /** An image that fails to open or to embed takes no id; one that embeds takes the next id. */
  lemma AddImageKeepsIds(st: ImageIngest, path: string, image: Option<Image>,
                         embed: Image -> Option<Vector>, insertOk: nat -> bool)
    requires ImageIdsConsecutive(st)
    ensures var st2 := AddImage(st, path, image, embed, insertOk);
            ImageIdsConsecutive(st2)
            && st2.total == if image.None? || embed(image.value).None? then st.total else st.total + 1
  {
    if image.Some? && embed(image.value).Some? {
      var b := ImageBatch(st.buffer.mIds + [st.total], st.buffer.embeddings + [embed(image.value).value],
                          st.buffer.paths + [path]);
      assert ImageIdsOf(st.inserted) + b.mIds == Range(0, st.total + 1);
      if (st.total + 1) % BatchSize == 0 && insertOk(st.attempts) {
        ImageIdsOfAppend(st.inserted, b);
        assert ImageIdsOf(st.inserted + [b]) + [] == ImageIdsOf(st.inserted + [b]);
      }
    }
  }

  lemma {:induction false} ImagesInKeepIds(st: ImageIngest, dirPath: string, files: seq<ImageFile>,
                                         embed: Image -> Option<Vector>, insertOk: nat -> bool)
    requires ImageIdsConsecutive(st)
    ensures ImageIdsConsecutive(ImagesIn(st, dirPath, files, embed, insertOk))
    decreases |files|
  {
    if files != [] {
      AddImageKeepsIds(st, PathJoin(dirPath, files[0].name), files[0].image, embed, insertOk);
      ImagesInKeepIds(AddImage(st, PathJoin(dirPath, files[0].name), files[0].image, embed, insertOk),
                      dirPath, files[1..], embed, insertOk);
    }
  }

  lemma {:induction false} FolderImagesKeepIds(st: ImageIngest, dataPath: string, entries: seq<FolderEntry>,
                                             embed: Image -> Option<Vector>, insertOk: nat -> bool)
    requires ImageIdsConsecutive(st)
    ensures ImageIdsConsecutive(FolderImages(st, dataPath, entries, embed, insertOk))
    decreases |entries|
  {
    if entries != [] {
      var st2 := match entries[0]
                 case NotDir(_) => st
                 case SubDir(name, files) => ImagesIn(st, PathJoin(dataPath, name), files, embed, insertOk);
      if entries[0].SubDir? {
        ImagesInKeepIds(st, PathJoin(dataPath, entries[0].name), entries[0].files, embed, insertOk);
      }
      FolderImagesKeepIds(st2, dataPath, entries[1..], embed, insertOk);
    }
  }

  /** For a folder, a successful run has inserted ids 0 .. total - 1 exactly once and in order. */
  lemma UpdateImageVectorInsertsEveryId(dataPath: string, entries: seq<FolderEntry>,
                                        embed: Image -> Option<Vector>, insertOk: nat -> bool)
    requires UpdateImageVectorSpec(dataPath, Folder(entries), embed, insertOk).Ok?
    ensures var st := UpdateImageVectorSpec(dataPath, Folder(entries), embed, insertOk).value;
            ImageIdsOf(st.inserted) == Range(0, st.total)
  {
    var st := FolderImages(ImageStart, dataPath, entries, embed, insertOk);
    assert ImageIdsConsecutive(ImageStart) by {
      assert ImageIdsOf([]) + [] == Range(0, 0);
    }
    FolderImagesKeepIds(ImageStart, dataPath, entries, embed, insertOk);
    if |st.buffer.mIds| > 0 {
      ImageIdsOfAppend(st.inserted, st.buffer);
    } else {
      assert ImageIdsOf(st.inserted) + st.buffer.mIds == ImageIdsOf(st.inserted);
    }
  }

  function SubDirsOnly(entries: seq<FolderEntry>): (r: seq<FolderEntry>)
    ensures forall k :: 0 <= k < |r| ==> r[k].SubDir?
  {
    if entries == [] then []
    else (if entries[0].SubDir? then [entries[0]] else []) + SubDirsOnly(entries[1..])
  }

  /** Entries that are not directories are skipped: dropping them changes nothing. */
  lemma {:induction false} NonDirectoriesSkipped(st: ImageIngest, dataPath: string, entries: seq<FolderEntry>,
                                               embed: Image -> Option<Vector>, insertOk: nat -> bool)
    ensures FolderImages(st, dataPath, entries, embed, insertOk)
            == FolderImages(st, dataPath, SubDirsOnly(entries), embed, insertOk)
    decreases |entries|
  {
    if entries != [] {
      var st2 := match entries[0]
                 case NotDir(_) => st
                 case SubDir(name, files) => ImagesIn(st, PathJoin(dataPath, name), files, embed, insertOk);
      NonDirectoriesSkipped(st2, dataPath, entries[1..], embed, insertOk);
      if entries[0].SubDir? {
        var rest := SubDirsOnly(entries[1..]);
        assert SubDirsOnly(entries) == [entries[0]] + rest;
        assert ([entries[0]] + rest)[1..] == rest && ([entries[0]] + rest)[0] == entries[0];
        assert FolderImages(st, dataPath, [entries[0]] + rest, embed, insertOk)
               == FolderImages(st2, dataPath, rest, embed, insertOk);
      } else {
        assert SubDirsOnly(entries) == [] + SubDirsOnly(entries[1..]) == SubDirsOnly(entries[1..]);
      }
    }
  }
}
