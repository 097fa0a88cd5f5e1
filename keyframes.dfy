/**
  Key-frame selection (`VideoProcessor.extract_key_frames`): every
  `frame_interval`-th frame read from a capture is a candidate; the first
  candidate is kept, and a later one is kept when its mean absolute
  difference from the previous candidate exceeds 30.
 */
module KeyFrames {
  import opened Wrappers
  import opened Sampling

  /** A decoded frame: its pixel values in row-major order. */
  type Frame = seq<int>

  datatype KeyFrameError = ZeroDivision  // `frame_count % 0` with a zero frame interval

  /** The frames a capture yields before its first failed read (`None`). */
  function Readable(capture: seq<Option<Frame>>): (fs: seq<Frame>)
    ensures |fs| <= |capture|
    ensures forall i :: 0 <= i < |fs| ==> capture[i] == Some(fs[i])
    ensures |fs| < |capture| ==> capture[|fs|].None?
  {
    if capture == [] || capture[0].None? then [] else [capture[0].value] + Readable(capture[1..])
  }

  /** `int(fps * interval_sec)` with the interval given in milliseconds. */
  function FrameInterval(fps: nat, intervalMs: nat): nat {
    fps * intervalMs / 1000
  }

  function Abs(x: int): nat {
    if x < 0 then -x else x
  }

  /** The sum of `cv2.absdiff(a, b)` over the pixels of two frames. */
  function AbsDiffSum(a: Frame, b: Frame): nat {
    if a == [] || b == [] then 0 else Abs(a[0] - b[0]) + AbsDiffSum(a[1..], b[1..])
  }

  /** `np.mean(absdiff(cur, prev)) > 30`, multiplied out by the pixel count. */
  predicate Changed(cur: Frame, prev: Frame) {
    AbsDiffSum(cur, prev) > 30 * |cur|
  }

  lemma MultipleAtLeast(i: nat, d: nat)
    requires d > 0 && i % d == 0 && i > 0
    ensures i >= d
  {
    if i < d {
      DivModUnique(i, d, 0, i);
    }
  }

  /** Frame `i` is kept: it is a candidate, and the first or changed from the candidate `d` frames before. */
  predicate KeptAt(fs: seq<Frame>, d: nat, i: nat)
    requires d > 0 && i < |fs|
  {
    i % d == 0 && (i == 0 || (MultipleAtLeast(i, d); Changed(fs[i], fs[i - d])))
  }

  /** The indices below `n` that the selector keeps, in read order. */
  function KeptIndices(fs: seq<Frame>, d: nat, n: nat): seq<nat>
    requires d > 0 && n <= |fs|
  {
    if n == 0 then [] else KeptIndices(fs, d, n - 1) + (if KeptAt(fs, d, n - 1) then [n - 1] else [])
  }

  lemma {:induction false} KeptIndicesBelow(fs: seq<Frame>, d: nat, n: nat)
    requires d > 0 && n <= |fs|
    ensures forall k :: 0 <= k < |KeptIndices(fs, d, n)| ==> KeptIndices(fs, d, n)[k] < n
  {
    if n > 0 {
      KeptIndicesBelow(fs, d, n - 1);
    }
  }

  function Pick(fs: seq<Frame>, ks: seq<nat>): (r: seq<Frame>)
    requires forall k :: 0 <= k < |ks| ==> ks[k] < |fs|
    ensures |r| == |ks| && forall k :: 0 <= k < |ks| ==> r[k] == fs[ks[k]]
  {
    if ks == [] then [] else [fs[ks[0]]] + Pick(fs, ks[1..])
  }

  /** What `extract_key_frames` returns for a capture (frames stand for their JPEG/base64 text). */
  function KeyFrameSelection(capture: seq<Option<Frame>>, fps: nat, intervalMs: nat): Result<seq<Frame>, KeyFrameError> {
    var fs := Readable(capture);
    var d := FrameInterval(fps, intervalMs);
    if d == 0 then (if fs == [] then Ok([]) else Err(ZeroDivision))
    else
      KeptIndicesBelow(fs, d, |fs|);
      Ok(Pick(fs, KeptIndices(fs, d, |fs|)))
  }

  /** The read loop of `extract_key_frames`. */
  method ExtractKeyFrames(capture: seq<Option<Frame>>, fps: nat, intervalMs: nat)
    returns (r: Result<seq<Frame>, KeyFrameError>)
    ensures r == KeyFrameSelection(capture, fps, intervalMs)
  {
    ghost var fs := Readable(capture);
    var d := FrameInterval(fps, intervalMs);
    var frames: seq<Frame> := [];
    var count := 0;
    var prev: Option<Frame> := None;
    ghost var last := 0;
    while count < |capture|
      invariant 0 <= count <= |fs|
      invariant d == 0 ==> count == 0 && frames == []
      invariant d > 0 ==> frames == (KeptIndicesBelow(fs, d, count); Pick(fs, KeptIndices(fs, d, count)))
      invariant count == 0 <==> prev.None?
      invariant d > 0 && count > 0 ==> last % d == 0 && last < count <= last + d && prev == Some(fs[last])
    {
      var read := capture[count];
      if read.None? {
        break;
      }
      var frame := read.value;
      assert count < |fs|;
      if d == 0 {
        return Err(ZeroDivision);
      }
      SelectionStep(fs, d, count);
      if count % d == 0 {
        if prev.Some? {
          NextMultiple(d, last, count);
          if Changed(frame, prev.value) {
            frames := frames + [frame];
          }
        } else {
          frames := frames + [frame];
        }
        prev := Some(frame);
        last := count;
      } else if count > 0 {
        MultiplePlus(d, last);
      }
      count := count + 1;
    }
    assert count == |fs|;
    return Ok(frames);
  }

  /** One more frame read: the selection grows by that frame exactly when it is kept. */
  lemma SelectionStep(fs: seq<Frame>, d: nat, count: nat)
    requires d > 0 && count < |fs|
    ensures (KeptIndicesBelow(fs, d, count); KeptIndicesBelow(fs, d, count + 1);
             Pick(fs, KeptIndices(fs, d, count + 1))
             == Pick(fs, KeptIndices(fs, d, count)) + (if KeptAt(fs, d, count) then [fs[count]] else []))
  {
    KeptIndicesBelow(fs, d, count);
    KeptIndicesBelow(fs, d, count + 1);
  }

  // ---------------------------------------------------------------------------
  // Properties of the selection
  // ---------------------------------------------------------------------------

  /** Kept indices are increasing candidates, and an index is kept exactly when `KeptAt` holds. */
  lemma {:induction false} KeptIndicesExact(fs: seq<Frame>, d: nat, n: nat)
    requires d > 0 && n <= |fs|
    ensures var ks := KeptIndices(fs, d, n);
            (forall k :: 0 <= k < |ks| ==> ks[k] < n && ks[k] % d == 0)
            && (forall j, k :: 0 <= j < k < |ks| ==> ks[j] < ks[k])
            && (forall i :: 0 <= i < n ==> (i in ks <==> KeptAt(fs, d, i)))
  {
    if n > 0 {
      KeptIndicesExact(fs, d, n - 1);
    }
  }

  /** The first candidate is always kept: a capture with a readable frame yields its first frame. */
  lemma {:induction false} FirstFrameKept(fs: seq<Frame>, d: nat, n: nat)
    requires d > 0 && 1 <= n <= |fs|
    ensures |KeptIndices(fs, d, n)| >= 1 && KeptIndices(fs, d, n)[0] == 0
  {
    if n > 1 {
      FirstFrameKept(fs, d, n - 1);
    }
  }

  lemma SelectionStartsWithFirstFrame(capture: seq<Option<Frame>>, fps: nat, intervalMs: nat)
    requires FrameInterval(fps, intervalMs) > 0 && |Readable(capture)| >= 1
    ensures var r := KeyFrameSelection(capture, fps, intervalMs);
            r.Ok? && |r.value| >= 1 && r.value[0] == Readable(capture)[0]
  {
    FirstFrameKept(Readable(capture), FrameInterval(fps, intervalMs), |Readable(capture)|);
  }

  /** At most one frame per candidate: no more than `ceil(n / d)` frames from `n` reads. */
  lemma {:induction false} KeptAtMostCandidates(fs: seq<Frame>, d: nat, n: nat)
    requires d > 0 && n <= |fs|
    ensures |KeptIndices(fs, d, n)| <= CountMultiples(n, d) == (n + d - 1) / d
  {
    CountMultiplesValue(n, d);
    if n > 0 {
      KeptAtMostCandidates(fs, d, n - 1);
    }
  }

  /** Frames that are not candidates never influence what is kept. */
  lemma {:induction false} NonCandidatesIgnored(fs: seq<Frame>, gs: seq<Frame>, d: nat, n: nat)
    requires d > 0 && n <= |fs| == |gs|
    requires forall i :: 0 <= i < |fs| && i % d == 0 ==> fs[i] == gs[i]
    ensures KeptIndices(fs, d, n) == KeptIndices(gs, d, n)
  {
    if n > 0 {
      NonCandidatesIgnored(fs, gs, d, n - 1);
      var i := n - 1;
      if i % d == 0 && i > 0 {
        MultipleAtLeast(i, d);
        MultiplePlusBack(d, i);
      }
    }
  }

  lemma MultiplePlusBack(d: nat, i: nat)
    requires d > 0 && i >= d && i % d == 0
    ensures (i - d) % d == 0
  {
    DivModUnique(i - d, d, i / d - 1, 0);
  }

  lemma NonCandidatesIgnoredInSelection(fs: seq<Frame>, gs: seq<Frame>, d: nat)
    requires d > 0 && |fs| == |gs|
    requires forall i :: 0 <= i < |fs| && i % d == 0 ==> fs[i] == gs[i]
    ensures (KeptIndicesBelow(fs, d, |fs|); Pick(fs, KeptIndices(fs, d, |fs|)))
            == (KeptIndicesBelow(gs, d, |gs|); Pick(gs, KeptIndices(gs, d, |gs|)))
  {
    NonCandidatesIgnored(fs, gs, d, |fs|);
    KeptIndicesExact(fs, d, |fs|);
  }

  /** Reading stops at the first failed read: what the capture holds after it does not matter. */
  lemma {:induction false} ReadableStopsAtFailure(c1: seq<Option<Frame>>, c2: seq<Option<Frame>>, p: nat)
    requires p < |c1| && p < |c2| && c1[..p + 1] == c2[..p + 1] && c1[p].None?
    ensures Readable(c1) == Readable(c2)
  {
    assert c1[0] == c1[..p + 1][0] && c2[0] == c2[..p + 1][0];
    if p > 0 && c1[0].Some? {
      assert c1[1..][..p] == c1[..p + 1][1..];
      assert c2[1..][..p] == c2[..p + 1][1..];
      ReadableStopsAtFailure(c1[1..], c2[1..], p - 1);
    }
  }

  lemma SelectionStopsAtFailure(c1: seq<Option<Frame>>, c2: seq<Option<Frame>>, p: nat, fps: nat, intervalMs: nat)
    requires p < |c1| && p < |c2| && c1[..p + 1] == c2[..p + 1] && c1[p].None?
    ensures KeyFrameSelection(c1, fps, intervalMs) == KeyFrameSelection(c2, fps, intervalMs)
  {
    ReadableStopsAtFailure(c1, c2, p);
  }
}
