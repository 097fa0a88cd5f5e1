/**
  Normalisation of the behaviours a language model mines from a video
  (app/services/video/mining.py): "M:S" / "H:M:S" times and seconds,
  "start-end" ranges, the per-item filter that rewrites each kept item's
  range and attaches a thumbnail, and the cleaning of the model's reply text.
 */
module Mining {
  import opened Wrappers
  import opened Strings

  datatype MiningError =
    | ValueError    // a malformed time or range
    | RuntimeError  // the thumbnail could not be produced

  /** The `behaviour` object of one mined item; `None` is a JSON null. */
  datatype Behaviour = Behaviour(behaviourId: Option<string>, behaviourName: Option<string>, timeRange: Option<string>)

  datatype MiningItem = MiningItem(behaviour: Behaviour, thumbnailUrl: Option<string>)

  // ---------------------------------------------------------------------------
  // Times
  // ---------------------------------------------------------------------------

  /** `list(map(int, parts))`: every part must parse. */
  function ParseInts(parts: seq<string>): (r: Option<seq<int>>)
    ensures r.Some? ==> |r.value| == |parts|
  {
    if parts == [] then Some([])
    else match (ParseInt(parts[0]), ParseInts(parts[1..]))
      case (Some(v), Some(vs)) => Some([v] + vs)
      case (None, _) => None
      case (_, None) => None
  }

  /** `time_to_seconds`: "M:S" or "H:M:S"; anything else is a ValueError (`None`). */
  function TimeToSeconds(t: string): Option<int> {
    FieldsToSeconds(ParseInts(Split(t, ":")))
  }

  /** Minutes and seconds, or hours, minutes and seconds; any other field count is a ValueError. */
  function FieldsToSeconds(fields: Option<seq<int>>): Option<int> {
    match fields
    case None => None
    case Some(v) =>
      if |v| == 2 then Some(v[0] * 60 + v[1])
      else if |v| == 3 then Some(v[0] * 3600 + v[1] * 60 + v[2])
      else None
  }

  lemma FieldsToSecondsThree(h: int, m: int, s: int)
    ensures FieldsToSeconds(Some([h, m, s])) == Some(h * 3600 + m * 60 + s)
  {
  }

  /** `seconds_to_time_format`: hours unpadded, minutes and seconds on two digits. */
  function SecondsToTimeFormat(n: int): string {
    IntToString(n / 3600) + ":" + PadNat((n % 3600) / 60, 2) + ":" + PadNat(n % 60, 2)
  }

  lemma HoursMinutesSeconds(n: int)
    ensures n == (n / 3600) * 3600 + ((n % 3600) / 60) * 60 + n % 60
  {
    var q, r := n / 3600, n % 3600;
    assert n == 3600 * q + r;
    var m, s := r / 60, r % 60;
    assert r == 60 * m + s;
    assert n == 60 * (60 * q + m) + s;
    Mod60(n, 60 * q + m, s);
  }

  lemma Mod60(n: int, q: int, r: int)
    requires 0 <= r < 60 && n == 60 * q + r
    ensures n % 60 == r
  {
  }

  function TwoDigits(n: nat): (s: string)
    requires n < 60
    ensures s == PadNat(n, 2) && |s| == 2 && AllDigits(s) && DigitsValue(s) == n
  {
    NatToStringShort(n);
    PadNatValue(n, 2);
    PadNat(n, 2)
  }

  /** The three fields of a formatted time: minutes and seconds are two digits below 60. */
  lemma SecondsToTimeFormatShape(n: int)
    ensures Split(SecondsToTimeFormat(n), ":") == [IntToString(n / 3600), TwoDigits((n % 3600) / 60), TwoDigits(n % 60)]
  {
    var h, mm, ss := IntToString(n / 3600), TwoDigits((n % 3600) / 60), TwoDigits(n % 60);
    assert ':' !in h by {
      forall k | 0 <= k < |h| ensures h[k] != ':' {
        assert IsDigit(h[k]) || h[k] == '-';
      }
    }
    DigitsAvoid(mm, ':');
    DigitsAvoid(ss, ':');
    SplitThree(h, mm, ss, ':');
  }

  /** A non-negative number of seconds is written without a minus sign. */
  lemma SecondsToTimeFormatNoDash(n: int)
    requires n >= 0
    ensures '-' !in SecondsToTimeFormat(n)
  {
    DigitsAvoid(NatToString(n / 3600), '-');
    DigitsAvoid(TwoDigits((n % 3600) / 60), '-');
    DigitsAvoid(TwoDigits(n % 60), '-');
  }

  /** Round trip: reading back a formatted time gives the same number of seconds, for every integer. */
  lemma TimeRoundTrip(n: int)
    ensures TimeToSeconds(SecondsToTimeFormat(n)) == Some(n)
  {
    var h, m, s := n / 3600, (n % 3600) / 60, n % 60;
    HoursMinutesSeconds(n);
    assert h * 3600 + m * 60 + s == n;
    SecondsToTimeFormatShape(n);
    ReadBackFields(SecondsToTimeFormat(n), h, m, s);
  }

  lemma ReadBackFields(t: string, h: int, m: nat, s: nat)
    requires m < 60 && s < 60
    requires Split(t, ":") == [IntToString(h), TwoDigits(m), TwoDigits(s)]
    ensures TimeToSeconds(t) == Some(h * 3600 + m * 60 + s)
  {
    ParseThree(h, m, s);
    TimeOfThreeParts(t, h, m, s);
  }

  lemma ParseThree(h: int, m: nat, s: nat)
    requires m < 60 && s < 60
    ensures ParseInts([IntToString(h), TwoDigits(m), TwoDigits(s)]) == Some([h, m, s])
  {
    ParseIntOfString(h);
    ParseIntOfDigits(TwoDigits(m));
    ParseIntOfDigits(TwoDigits(s));
    ParseIntsOfThree(IntToString(h), TwoDigits(m), TwoDigits(s), h, m, s);
  }

  lemma ParseIntsOfThree(a: string, b: string, c: string, x: int, y: int, z: int)
    requires ParseInt(a) == Some(x) && ParseInt(b) == Some(y) && ParseInt(c) == Some(z)
    ensures ParseInts([a, b, c]) == Some([x, y, z])
  {
    assert [c][1..] == [] && ParseInts([]) == Some([]);
    assert [z] + [] == [z];
    assert ParseInts([c]) == Some([z]);
    assert [b, c][1..] == [c] && [y] + [z] == [y, z];
    assert ParseInts([b, c]) == Some([y, z]);
    assert [a, b, c][1..] == [b, c] && [x] + [y, z] == [x, y, z];
  }

  lemma TimeOfThreeParts(t: string, h: int, m: int, s: int)
    requires ParseInts(Split(t, ":")) == Some([h, m, s])
    ensures TimeToSeconds(t) == Some(h * 3600 + m * 60 + s)
  {
    FieldsToSecondsThree(h, m, s);
  }

  /** A time written without '-' never reads as a negative number of seconds. */
  lemma TimeToSecondsNonNegative(t: string)
    requires '-' !in t && TimeToSeconds(t).Some?
    ensures TimeToSeconds(t).value >= 0
  {
    SplitPartsAvoid(t, ":", '-');
    ParseIntsNonNegative(Split(t, ":"));
  }

  lemma {:induction false} ParseIntsNonNegative(parts: seq<string>)
    requires forall k :: 0 <= k < |parts| ==> '-' !in parts[k]
    requires ParseInts(parts).Some?
    ensures forall k :: 0 <= k < |parts| ==> ParseInts(parts).value[k] >= 0
  {
    if parts != [] {
      ParseIntNonNegative(parts[0]);
      ParseIntsNonNegative(parts[1..]);
      var v := ParseInts(parts).value;
      assert v == [ParseInt(parts[0]).value] + ParseInts(parts[1..]).value;
    }
  }

  // ---------------------------------------------------------------------------
  // Ranges
  // ---------------------------------------------------------------------------

  /** `time_to_standard_format`: exactly two '-'-separated times, both rewritten as "H:MM:SS". */
  function TimeToStandardFormat(range: string): Option<(string, string)> {
    var parts := Split(range, "-");
    if |parts| != 2 then None
    else match (TimeToSeconds(parts[0]), TimeToSeconds(parts[1]))
      case (Some(a), Some(b)) => Some((SecondsToTimeFormat(a), SecondsToTimeFormat(b)))
      case _ => None
  }

  /** The seconds a normalised range starts at are those of the original start time. */
  lemma StandardFormatStart(range: string)
    requires TimeToStandardFormat(range).Some?
    ensures TimeToSeconds(TimeToStandardFormat(range).value.0) == TimeToSeconds(Split(range, "-")[0])
  {
    TimeRoundTrip(TimeToSeconds(Split(range, "-")[0]).value);
  }

  /** Normalising the "start-end" text of a normalised range changes nothing. */
  lemma StandardFormatIdempotent(range: string)
    requires TimeToStandardFormat(range).Some?
    ensures var (a, b) := TimeToStandardFormat(range).value;
            TimeToStandardFormat(a + "-" + b) == Some((a, b))
  {
    var parts := Split(range, "-");
    SplitPartsNoSep(range, '-');
    var x, y := TimeToSeconds(parts[0]).value, TimeToSeconds(parts[1]).value;
    TimeToSecondsNonNegative(parts[0]);
    TimeToSecondsNonNegative(parts[1]);
    var a, b := SecondsToTimeFormat(x), SecondsToTimeFormat(y);
    SecondsToTimeFormatNoDash(x);
    SecondsToTimeFormatNoDash(y);
    JoinTwo(a, b, "-");
    SplitJoin([a, b], "-");
    TimeRoundTrip(x);
    TimeRoundTrip(y);
  }

  // ---------------------------------------------------------------------------
  // format_mining_result
  // ---------------------------------------------------------------------------

  /** The thumbnail file named after the video and the range's start second. */
  function ThumbnailName(videoUrl: string, start: int): (name: string)
    ensures |name| >= 4 && name[|name| - 4..] == ".jpg"
  {
    BaseName(videoUrl) + "_t_" + IntToString(start) + ".jpg"
  }

  /** The item passes the null checks and its range has a '-'. */
  predicate Eligible(item: MiningItem) {
    var b := item.behaviour;
    b.behaviourId.Some? && b.behaviourName.Some? && b.timeRange.Some? && |Split(b.timeRange.value, "-")| >= 2
  }

  datatype Step = Skip | Fail(error: MiningError) | Keep(item: MiningItem)

  /**
    What one iteration of the loop does with an item. `thumbnailOk(url, path, t)`
    says whether the thumbnail of `url` at second `t` could be written to `path`;
    `upload(name, path)` is the URL the uploaded thumbnail gets.
   */
  function ProcessItem(item: MiningItem, videoUrl: string, thumbnailOk: (string, string, int) -> bool,
                       upload: (string, string) -> string): Step
  {
    if !Eligible(item) then Skip
    else
      var b := item.behaviour;
      match TimeToStandardFormat(b.timeRange.value)
      case None => Fail(ValueError)
      case Some((st, en)) =>
        match TimeToSeconds(st)
        case None => Fail(ValueError)
        case Some(start) =>
          var name := ThumbnailName(videoUrl, start);
          var local := PathJoin("/tmp", name);
          if !thumbnailOk(videoUrl, local, start) then Fail(RuntimeError)
          else Keep(MiningItem(b.(timeRange := Some(st + "-" + en)), Some(upload(name, local))))
  }

  /** The whole loop: kept items in order, or the first error, which is not caught. */
  function FormatSpec(items: seq<MiningItem>, videoUrl: string, thumbnailOk: (string, string, int) -> bool,
                      upload: (string, string) -> string): Result<seq<MiningItem>, MiningError>
  {
    if items == [] then Ok([])
    else match ProcessItem(items[0], videoUrl, thumbnailOk, upload)
      case Fail(e) => Err(e)
      case Skip => FormatSpec(items[1..], videoUrl, thumbnailOk, upload)
      case Keep(it) =>
        match FormatSpec(items[1..], videoUrl, thumbnailOk, upload)
        case Ok(rest) => Ok([it] + rest)
        case Err(e) => Err(e)
  }

  function Prefixed(done: seq<MiningItem>, r: Result<seq<MiningItem>, MiningError>): Result<seq<MiningItem>, MiningError> {
    match r
    case Ok(rest) => Ok(done + rest)
    case Err(e) => Err(e)
  }

  /** `format_mining_result`: one pass over the items, appending each kept, rewritten item. */
  method FormatMiningResult(items: seq<MiningItem>, videoUrl: string, thumbnailOk: (string, string, int) -> bool,
                            upload: (string, string) -> string)
    returns (r: Result<seq<MiningItem>, MiningError>)
    ensures r == FormatSpec(items, videoUrl, thumbnailOk, upload)
  {
    var result: seq<MiningItem> := [];
    var i := 0;
    assert items[i..] == items;
    assert FormatSpec(items, videoUrl, thumbnailOk, upload) == Prefixed(result, FormatSpec(items, videoUrl, thumbnailOk, upload)) by {
      match FormatSpec(items, videoUrl, thumbnailOk, upload)
      case Err(e) =>
      case Ok(rs) => assert result + rs == rs;
    }
    while i < |items|
      invariant 0 <= i <= |items|
      invariant FormatSpec(items, videoUrl, thumbnailOk, upload)
                == Prefixed(result, FormatSpec(items[i..], videoUrl, thumbnailOk, upload))
    {
      FormatStep(items, i, result, videoUrl, thumbnailOk, upload);
      var step := ProcessItem(items[i], videoUrl, thumbnailOk, upload);
      if step.Fail? {
        return Err(step.error);
      }
      if step.Keep? {
        result := result + [step.item];
      }
      i := i + 1;
    }
    assert items[i..] == [];
    assert result + [] == result;
    return Ok(result);
  }

  /** One iteration of the loop, stated on the remaining items. */
  lemma FormatStep(items: seq<MiningItem>, i: nat, done: seq<MiningItem>, videoUrl: string,
                   thumbnailOk: (string, string, int) -> bool, upload: (string, string) -> string)
    requires i < |items|
    ensures var before := Prefixed(done, FormatSpec(items[i..], videoUrl, thumbnailOk, upload));
            var after := FormatSpec(items[i + 1..], videoUrl, thumbnailOk, upload);
            match ProcessItem(items[i], videoUrl, thumbnailOk, upload)
            case Fail(e) => before == Err(e)
            case Skip => before == Prefixed(done, after)
            case Keep(it) => before == Prefixed(done + [it], after)
  {
    assert items[i..][0] == items[i];
    assert items[i..][1..] == items[i + 1..];
    match ProcessItem(items[i], videoUrl, thumbnailOk, upload)
    case Fail(e) =>
    case Skip =>
    case Keep(it) =>
      match FormatSpec(items[i + 1..], videoUrl, thumbnailOk, upload)
      case Err(e) =>
      case Ok(rest) =>
        assert done + ([it] + rest) == (done + [it]) + rest;
  }

  function Eligibles(items: seq<MiningItem>): (r: seq<MiningItem>)
    ensures forall k :: 0 <= k < |r| ==> Eligible(r[k])
  {
    if items == [] then []
    else (if Eligible(items[0]) then [items[0]] else []) + Eligibles(items[1..])
  }

  /** Two item lists that agree, position by position, on behaviour id and name. */
  predicate SameIdentity(a: seq<MiningItem>, b: seq<MiningItem>) {
    |a| == |b|
    && forall k :: 0 <= k < |a| ==>
         a[k].behaviour.behaviourId == b[k].behaviour.behaviourId
         && a[k].behaviour.behaviourName == b[k].behaviour.behaviourName
  }

  lemma ConsSameIdentity(x: MiningItem, y: MiningItem, a: seq<MiningItem>, b: seq<MiningItem>)
    requires x.behaviour.behaviourId == y.behaviour.behaviourId && x.behaviour.behaviourName == y.behaviour.behaviourName
    requires SameIdentity(a, b)
    ensures SameIdentity([x] + a, [y] + b)
  {
    forall k | 0 < k < |a| + 1
      ensures ([x] + a)[k] == a[k - 1] && ([y] + b)[k] == b[k - 1]
    {
    }
  }

  /** A successful run keeps exactly the eligible items, in order, with their ids and names. */
  lemma {:induction false} FormatKeepsEligible(items: seq<MiningItem>, videoUrl: string,
      thumbnailOk: (string, string, int) -> bool, upload: (string, string) -> string)
    requires FormatSpec(items, videoUrl, thumbnailOk, upload).Ok?
    ensures var rs := FormatSpec(items, videoUrl, thumbnailOk, upload).value;
            |rs| == |Eligibles(items)|
            && forall k :: 0 <= k < |rs| ==>
                 rs[k].behaviour.behaviourId == Eligibles(items)[k].behaviour.behaviourId
                 && rs[k].behaviour.behaviourName == Eligibles(items)[k].behaviour.behaviourName
  {
    if items != [] {
      var rest := FormatSpec(items[1..], videoUrl, thumbnailOk, upload);
      var step := ProcessItem(items[0], videoUrl, thumbnailOk, upload);
      assert step.Skip? || rest.Ok?;
      FormatKeepsEligible(items[1..], videoUrl, thumbnailOk, upload);
      ProcessItemKinds(items[0], videoUrl, thumbnailOk, upload);
      if Eligible(items[0]) {
        assert step.Keep?;
        assert FormatSpec(items, videoUrl, thumbnailOk, upload).value == [step.item] + rest.value;
        assert Eligibles(items) == [items[0]] + Eligibles(items[1..]);
        ConsSameIdentity(step.item, items[0], rest.value, Eligibles(items[1..]));
      } else {
        assert Eligibles(items) == Eligibles(items[1..]);
      }
    }
  }

  /** `Keep` holds a normalised range, and a thumbnail named after the original start second. */
  lemma KeptItemShape(item: MiningItem, videoUrl: string, thumbnailOk: (string, string, int) -> bool,
                      upload: (string, string) -> string)
    requires ProcessItem(item, videoUrl, thumbnailOk, upload).Keep?
    ensures var it := ProcessItem(item, videoUrl, thumbnailOk, upload).item;
            var range := item.behaviour.timeRange.value;
            var start := TimeToSeconds(Split(range, "-")[0]).value;
            it.behaviour.timeRange.Some?
            && TimeToStandardFormat(it.behaviour.timeRange.value) == TimeToStandardFormat(range)
            && it.thumbnailUrl == Some(upload(ThumbnailName(videoUrl, start), PathJoin("/tmp", ThumbnailName(videoUrl, start))))
  {
    StandardFormatIdempotent(item.behaviour.timeRange.value);
    StandardFormatStart(item.behaviour.timeRange.value);
  }

  /** Only ineligible items are skipped, and a kept item keeps its id and name. */
  lemma ProcessItemKinds(item: MiningItem, videoUrl: string, thumbnailOk: (string, string, int) -> bool,
                         upload: (string, string) -> string)
    ensures ProcessItem(item, videoUrl, thumbnailOk, upload).Skip? <==> !Eligible(item)
    ensures ProcessItem(item, videoUrl, thumbnailOk, upload).Keep? ==>
              ProcessItem(item, videoUrl, thumbnailOk, upload).item.behaviour.behaviourId == item.behaviour.behaviourId
              && ProcessItem(item, videoUrl, thumbnailOk, upload).item.behaviour.behaviourName == item.behaviour.behaviourName
  {
  }

  /** A range with more than one '-' passes the filter and then raises ValueError. */
  lemma ManyDashesFail(item: MiningItem, videoUrl: string, thumbnailOk: (string, string, int) -> bool,
                       upload: (string, string) -> string)
    requires Eligible(item) && |Split(item.behaviour.timeRange.value, "-")| > 2
    ensures ProcessItem(item, videoUrl, thumbnailOk, upload) == Fail(ValueError)
  {
  }

  /** The result is an error exactly when some item's processing fails. */
  lemma {:induction false} FormatFailsIff(items: seq<MiningItem>, videoUrl: string,
      thumbnailOk: (string, string, int) -> bool, upload: (string, string) -> string)
    ensures FormatSpec(items, videoUrl, thumbnailOk, upload).Err?
            <==> exists k :: 0 <= k < |items| && ProcessItem(items[k], videoUrl, thumbnailOk, upload).Fail?
  {
    if items != [] {
      FormatFailsIff(items[1..], videoUrl, thumbnailOk, upload);
      if exists k :: 0 <= k < |items| && ProcessItem(items[k], videoUrl, thumbnailOk, upload).Fail? {
        var k :| 0 <= k < |items| && ProcessItem(items[k], videoUrl, thumbnailOk, upload).Fail?;
        if k > 0 {
          assert items[1..][k - 1] == items[k];
        }
      } else {
        forall k | 0 <= k < |items| - 1 ensures !ProcessItem(items[1..][k], videoUrl, thumbnailOk, upload).Fail? {
          assert items[1..][k] == items[k + 1];
        }
      }
    }
  }

  // ---------------------------------------------------------------------------
  // parse_json_string (the text cleaning; `json.loads` is not modelled)
  // ---------------------------------------------------------------------------

  /** The characters of "```json", which `strip` treats as a set. */
  const JsonFence: set<char> := {'`', 'j', 's', 'o', 'n'}

  /** Deletes every backslash-n pair, turns backslash-quote into a quote, strips the fence characters. */
  function CleanJsonString(s: string): (r: string)
    ensures r == [] || (r[0] !in JsonFence && r[|r| - 1] !in JsonFence)
  {
    StripEnds(Replace(Replace(s, "\\n", ""), "\\\"", "\""), JsonFence);
    Strip(Replace(Replace(s, "\\n", ""), "\\\"", "\""), JsonFence)
  }

  /** Each deleted backslash-n pair shortens the text by two characters. */
  lemma NewlineEscapesRemoved(s: string)
    ensures |Replace(s, "\\n", "")| == |s| - 2 * (|Split(s, "\\n")| - 1)
  {
    ReplaceLength(s, "\\n", "");
  }

  /** Without a backslash only the stripping of fence characters takes effect. */
  lemma CleanPlainText(s: string)
    requires '\\' !in s
    ensures CleanJsonString(s) == Strip(s, JsonFence)
  {
    ReplaceAbsent(s, "\\n", "");
    ReplaceAbsent(s, "\\\"", "\"");
  }
}
