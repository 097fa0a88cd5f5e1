/**
  Frame files and thumbnails (app/utils/common.py): `extract_frames_from_video`
  saves every `int(fps * frame_interval)`-th frame under a zero-padded
  consecutive name, and `generate_thumbnail_from_video` clamps its seek time
  into the video.
 */
module FrameFiles {
  import opened Wrappers
  import opened Strings
  import opened Sampling
  import opened KeyFrames

  datatype FrameFileError = ZeroInterval  // `total_frames / 0` when `int(fps * frame_interval)` is 0

  /** `len(str(int(total_frames / frame_interval_frames)))`. */
  function NumDigits(totalFrames: nat, interval: nat): (nd: nat)
    requires interval > 0
    ensures nd >= 1
  {
    |NatToString(totalFrames / interval)|
  }

  /** `os.path.join(output_dir, f'frame_{index:0{num_digits}d}.jpg')`. */
  function FramePath(dir: string, index: nat, numDigits: nat): string {
    PathJoin(dir, "frame_" + PadNat(index, numDigits) + ".jpg")
  }

  /** The (path, frame) writes of the first `n` readable frames, in order. */
  function Saved(fs: seq<Frame>, d: nat, nd: nat, dir: string, n: nat): seq<(string, Frame)>
    requires d > 0 && n <= |fs|
  {
    if n == 0 then []
    else Saved(fs, d, nd, dir, n - 1) + (if (n - 1) % d == 0 then [(FramePath(dir, (n - 1) / d, nd), fs[n - 1])] else [])
  }

  /** The files `extract_frames_from_video` writes, or its error. */
  function ExtractedFrames(capture: seq<Option<Frame>>, fps: nat, frameInterval: nat, totalFrames: nat,
                           dir: string): Result<seq<(string, Frame)>, FrameFileError> {
    var d := fps * frameInterval;
    if d == 0 then Err(ZeroInterval)
    else Ok(Saved(Readable(capture), d, NumDigits(totalFrames, d), dir, |Readable(capture)|))
  }

  /**
    The read loop of `extract_frames_from_video(video_url, output_dir,
    frame_interval)`; `totalFrames` is the container's frame-count property.
   */
  method ExtractFramesFromVideo(capture: seq<Option<Frame>>, fps: nat, frameInterval: nat, totalFrames: nat,
                                dir: string) returns (r: Result<seq<(string, Frame)>, FrameFileError>)
    ensures r == ExtractedFrames(capture, fps, frameInterval, totalFrames, dir)
  {
    var d := fps * frameInterval;
    if d == 0 {
      return Err(ZeroInterval);
    }
    ghost var fs := Readable(capture);
    var numDigits := NumDigits(totalFrames, d);
    var written: seq<(string, Frame)> := [];
    var frameCount := 0;
    while frameCount < |capture|
      invariant 0 <= frameCount <= |fs|
      invariant written == Saved(fs, d, numDigits, dir, frameCount)
    {
      var read := capture[frameCount];
      if read.None? {
        break;
      }
      if frameCount % d == 0 {
        written := written + [(FramePath(dir, frameCount / d, numDigits), read.value)];
      }
      frameCount := frameCount + 1;
    }
    return Ok(written);
  }

  lemma {:induction false} SavedLength(fs: seq<Frame>, d: nat, nd: nat, dir: string, n: nat)
    requires d > 0 && n <= |fs|
    ensures |Saved(fs, d, nd, dir, n)| == CountMultiples(n, d)
  {
    if n > 0 {
      SavedLength(fs, d, nd, dir, n - 1);
    }
  }

  lemma {:induction false} SavedEntry(fs: seq<Frame>, d: nat, nd: nat, dir: string, n: nat, k: nat)
    requires d > 0 && n <= |fs| && k < |Saved(fs, d, nd, dir, n)|
    ensures k * d < n && Saved(fs, d, nd, dir, n)[k] == (FramePath(dir, k, nd), fs[k * d])
  {
    var i := n - 1;
    var w0 := Saved(fs, d, nd, dir, i);
    if k < |w0| {
      SavedEntry(fs, d, nd, dir, i, k);
    } else {
      CandidateIndex(i, d);
      SavedLength(fs, d, nd, dir, i);
    }
  }

  /**
    The `k`-th write is frame `k * d` under name index `k`: indices are
    consecutive from 0 and one file is written per candidate frame.
   */
  lemma SavedConsecutive(fs: seq<Frame>, d: nat, nd: nat, dir: string, n: nat)
    requires d > 0 && n <= |fs|
    ensures var w := Saved(fs, d, nd, dir, n);
            |w| == CountMultiples(n, d)
            && forall k :: 0 <= k < |w| ==> k * d < n && w[k] == (FramePath(dir, k, nd), fs[k * d])
  {
    SavedLength(fs, d, nd, dir, n);
    forall k | 0 <= k < |Saved(fs, d, nd, dir, n)| {
      SavedEntry(fs, d, nd, dir, n, k);
    }
  }

  lemma CandidateIndex(i: nat, d: nat)
    requires d > 0 && i % d == 0
    ensures (i / d) * d == i && CountMultiples(i, d) == i / d
  {
    assert i == d * (i / d) + i % d;
    MultiplesBelowMultiple(i, d);
  }

  lemma PathJoinCancel(dir: string, a: string, b: string)
    requires PathJoin(dir, a) == PathJoin(dir, b)
    ensures a == b
  {
    var p := if dir == [] || dir[|dir| - 1] == '/' then dir else dir + "/";
    assert PathJoin(dir, a) == p + a && PathJoin(dir, b) == p + b;
    assert a == (p + a)[|p|..];
  }

  /** Distinct indices give distinct paths, so no saved frame overwrites another. */
  lemma FramePathInjective(dir: string, i: nat, j: nat, nd: nat)
    requires FramePath(dir, i, nd) == FramePath(dir, j, nd)
    ensures i == j
  {
    var a := "frame_" + PadNat(i, nd) + ".jpg";
    var b := "frame_" + PadNat(j, nd) + ".jpg";
    PathJoinCancel(dir, a, b);
    assert |a| == |b|;
    assert PadNat(i, nd) == a[6..|a| - 4];
    assert PadNat(j, nd) == b[6..|b| - 4];
    PadNatInjective(i, j, nd);
  }

  /** Every name's digit part has at least `num_digits` digits and reads back as its index. */
  lemma FrameNameDigits(index: nat, nd: nat)
    ensures |PadNat(index, nd)| >= nd && AllDigits(PadNat(index, nd)) && DigitsValue(PadNat(index, nd)) == index
  {
    PadNatValue(index, nd);
  }

  /** A zero interval is an error even for a capture that yields no frame. */
  lemma ZeroIntervalFails(capture: seq<Option<Frame>>, fps: nat, frameInterval: nat, totalFrames: nat, dir: string)
    requires fps == 0 || frameInterval == 0
    ensures ExtractedFrames(capture, fps, frameInterval, totalFrames, dir) == Err(ZeroInterval)
  {
  }

  // ---------------------------------------------------------------------------
  // generate_thumbnail_from_video
  // ---------------------------------------------------------------------------

  datatype ThumbnailError =
    | EmptyVideoUrl  // ValueError before any probing
    | ProbeOrRunFailed  // RuntimeError wrapping the ffmpeg or other error

  /** `max(0, min(t, duration - 1))`. */
  function ClampSeek(t: int, duration: int): (s: int)
    ensures s >= 0
    ensures duration >= 1 ==> s <= duration - 1
    ensures 0 <= t < duration ==> s == t
    ensures t < 0 ==> s == 0
    ensures duration >= 1 && t >= duration ==> s == duration - 1
  {
    var m := if t < duration - 1 then t else duration - 1;
    if m < 0 then 0 else m
  }

  /**
    `generate_thumbnail_from_video(video_url, thumbnail_path, time_seconds)`
    with `t = int(time_seconds)`: `probe` gives the whole-second duration or
    `None` when it raises, and `run` whether the frame grab succeeded. The
    result is the seek time used.
   */
  function GenerateThumbnail(videoUrl: string, thumbnailPath: string, t: int,
                             probe: string -> Option<int>, run: (string, int, string) -> bool): (r: Result<int, ThumbnailError>)
    ensures videoUrl == "" ==> r == Err(EmptyVideoUrl)
    ensures videoUrl != "" && probe(videoUrl).None? ==> r == Err(ProbeOrRunFailed)
    ensures r.Ok? ==> probe(videoUrl).Some? && r.value == ClampSeek(t, probe(videoUrl).value)
                      && run(videoUrl, r.value, thumbnailPath)
    ensures videoUrl != "" && probe(videoUrl).Some? ==>
              (r.Ok? <==> run(videoUrl, ClampSeek(t, probe(videoUrl).value), thumbnailPath))
              && (r.Err? ==> r.error == ProbeOrRunFailed)
  {
    if videoUrl == "" then Err(EmptyVideoUrl)
    else match probe(videoUrl)
      case None => Err(ProbeOrRunFailed)
      case Some(duration) =>
        var ss := ClampSeek(t, duration);
        if run(videoUrl, ss, thumbnailPath) then Ok(ss) else Err(ProbeOrRunFailed)
  }

  /** The seek time of a successful call lies within the video: in `[0, duration - 1]` once it lasts a second. */
  lemma ThumbnailSeekInRange(videoUrl: string, thumbnailPath: string, t: int,
                             probe: string -> Option<int>, run: (string, int, string) -> bool)
    requires GenerateThumbnail(videoUrl, thumbnailPath, t, probe, run).Ok?
    requires probe(videoUrl).value >= 1
    ensures 0 <= GenerateThumbnail(videoUrl, thumbnailPath, t, probe, run).value <= probe(videoUrl).value - 1
  {
  }
}
