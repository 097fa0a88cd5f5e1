/**
  The evaluation report (app/tests/model_evaluation/visualization.py):
  `calculate_statistics` tallies the evaluation records into overall totals
  and per-tag counters, and `generate_evaluation_report` turns the counters
  into per-tag rows sorted by their recall denominator. Percentages and the
  charts are not modelled.
 */
module EvaluationReport {
  import opened Wrappers
  import opened Strings
  import opened Sorting

  /** An element of a record's `wrong_tags` or `missed_tags` list. */
  datatype TagEntry =
    | TagDict(tag: Option<string>)  // a dict with a 'tag' key
    | OtherDict(isEmpty: bool)      // a dict without 'tag', which is then used as the tag itself
    | BareTag(tag: Option<string>)  // a plain string or None

  /**
    One line of the records file. `originalTags` is `None` when the key is
    missing or null; the other fields are `None` when their key is missing
    from `evaluation_results`.
   */
  datatype EvalRecord = EvalRecord(
    originalTags: Option<seq<Option<string>>>,
    totalTags: Option<int>,
    correctTags: Option<int>,
    wrongTags: Option<seq<TagEntry>>,
    missedTags: Option<seq<TagEntry>>)

  /** A non-empty dict used as a dictionary key raises `TypeError: unhashable type`. */
  datatype StatsError = UnhashableTag

  datatype Totals = Totals(totalVideos: int, totalTags: int, correctTags: int, wrongTags: int, missedTags: int)

  /** The counters `tag_stats[tag]`. */
  datatype TagStats = TagStats(total: int, correct: int, wrong: int, missed: int, modelTags: int)

  /** The `defaultdict`: the counters by tag and the tags in first-use (iteration) order. */
  datatype TagTable = TagTable(order: seq<string>, stats: map<string, TagStats>)

  const Zero: TagStats := TagStats(0, 0, 0, 0, 0)
  const EmptyTable: TagTable := TagTable([], map[])

  /** `tag_stats[tag]` read without being stored. */
  function Get(t: TagTable, tag: string): TagStats {
    if tag in t.stats then t.stats[tag] else Zero
  }

  /** Storing counters under `tag`; a new tag goes to the end of the iteration order. */
  function Put(t: TagTable, tag: string, s: TagStats): TagTable {
    TagTable(if tag in t.stats then t.order else t.order + [tag], t.stats[tag := s])
  }

  /** `if tag:` for a string or None. */
  predicate Truthy(tag: Option<string>) {
    tag.Some? && tag.value != ""
  }

  // ---------------------------------------------------------------------------
  // The specification of calculate_statistics, record by record
  // ---------------------------------------------------------------------------

  function AddModelTag(t: TagTable, tag: Option<string>): TagTable {
    if Truthy(tag) then
      var s := Get(t, tag.value);
      Put(t, tag.value, s.(modelTags := s.modelTags + 1, total := s.total + 1))
    else t
  }

  /** The loop over `original_tags`. */
  function AddModelTags(t: TagTable, tags: seq<Option<string>>): TagTable
    decreases |tags|
  {
    if tags == [] then t else AddModelTag(AddModelTags(t, tags[..|tags| - 1]), tags[|tags| - 1])
  }

  /** The tag an entry stands for; an empty dict is falsy and so is skipped like None. */
  function EntryTag(e: TagEntry): Result<Option<string>, StatsError> {
    match e
    case TagDict(tag) => Ok(tag)
    case BareTag(tag) => Ok(tag)
    case OtherDict(isEmpty) => if isEmpty then Ok(None) else Err(UnhashableTag)
  }

  function AddEntry(t: TagTable, e: TagEntry, missed: bool): Result<TagTable, StatsError> {
    match EntryTag(e)
    case Err(err) => Err(err)
    case Ok(tag) =>
      if !Truthy(tag) then Ok(t)
      else
        var s := Get(t, tag.value);
        Ok(Put(t, tag.value, if missed then s.(missed := s.missed + 1, total := s.total + 1) else s.(wrong := s.wrong + 1)))
  }

  /** The loop over `wrong_tags` (`missed` false) or over `missed_tags` (`missed` true). */
  function AddEntries(t: TagTable, entries: seq<TagEntry>, missed: bool): Result<TagTable, StatsError>
    decreases |entries|
  {
    if entries == [] then Ok(t)
    else match AddEntries(t, entries[..|entries| - 1], missed)
      case Err(err) => Err(err)
      case Ok(t') => AddEntry(t', entries[|entries| - 1], missed)
  }

  function Fix(s: TagStats): TagStats {
    s.(correct := s.modelTags - s.wrong)
  }

  /** The loop `for tag in tag_stats: if tag: ...correct = model_tags - wrong` over the keys `keys`. */
  function RecomputeOver(stats: map<string, TagStats>, keys: seq<string>): map<string, TagStats>
    decreases |keys|
  {
    if keys == [] then stats
    else
      var m := RecomputeOver(stats, keys[..|keys| - 1]);
      var k := keys[|keys| - 1];
      if k != "" && k in m then m[k := Fix(m[k])] else m
  }

  function RecomputeCorrect(t: TagTable): TagTable {
    TagTable(t.order, RecomputeOver(t.stats, t.order))
  }

  /** The body of `for record in records`. */
  function RecordStep(tot: Totals, t: TagTable, r: EvalRecord): Result<(Totals, TagTable), StatsError> {
    var wrong := r.wrongTags.GetOr([]);
    var missed := r.missedTags.GetOr([]);
    var tot' := tot.(totalTags := tot.totalTags + r.totalTags.GetOr(0),
                     correctTags := tot.correctTags + r.correctTags.GetOr(0),
                     wrongTags := tot.wrongTags + |wrong|,
                     missedTags := tot.missedTags + |missed|);
    match AddEntries(AddModelTags(t, r.originalTags.GetOr([])), wrong, false)
    case Err(err) => Err(err)
    case Ok(t2) =>
      match AddEntries(t2, missed, true)
      case Err(err) => Err(err)
      case Ok(t3) => Ok((tot', RecomputeCorrect(t3)))
  }

  function Fold(n: int, records: seq<EvalRecord>): Result<(Totals, TagTable), StatsError>
    decreases |records|
  {
    if records == [] then Ok((Totals(n, 0, 0, 0, 0), EmptyTable))
    else match Fold(n, records[..|records| - 1])
      case Err(err) => Err(err)
      case Ok(acc) => RecordStep(acc.0, acc.1, records[|records| - 1])
  }

  /** What `calculate_statistics(records)` returns, or the error it raises. */
  function Statistics(records: seq<EvalRecord>): Result<(Totals, TagTable), StatsError> {
    Fold(|records|, records)
  }

  // ---------------------------------------------------------------------------
  // calculate_statistics
  // ---------------------------------------------------------------------------

  method CountModelTags(t: TagTable, tags: seq<Option<string>>) returns (out: TagTable)
    ensures out == AddModelTags(t, tags)
  {
    out := t;
    for i := 0 to |tags|
      invariant out == AddModelTags(t, tags[..i])
    {
      var tag := tags[i];
      if tag.Some? && tag.value != "" {
        var s := if tag.value in out.stats then out.stats[tag.value] else Zero;
        var order := if tag.value in out.stats then out.order else out.order + [tag.value];
        out := TagTable(order, out.stats[tag.value := s.(modelTags := s.modelTags + 1, total := s.total + 1)]);
      }
      assert tags[..i + 1][..i] == tags[..i];
    }
    assert tags[..|tags|] == tags;
  }

  method CountEntries(t: TagTable, entries: seq<TagEntry>, missed: bool) returns (r: Result<TagTable, StatsError>)
    ensures r == AddEntries(t, entries, missed)
  {
    var out := t;
    for i := 0 to |entries|
      invariant AddEntries(t, entries[..i], missed) == Ok(out)
    {
      assert entries[..i + 1][..i] == entries[..i];
      var e := entries[i];
      var tag: Option<string>;
      if e.TagDict? {
        tag := e.tag;
      } else if e.BareTag? {
        tag := e.tag;
      } else if e.isEmpty {
        tag := None;
      } else {
        AddEntriesErrPersists(t, entries, missed, i + 1);
        return Err(UnhashableTag);
      }
      if tag.Some? && tag.value != "" {
        var s := if tag.value in out.stats then out.stats[tag.value] else Zero;
        var order := if tag.value in out.stats then out.order else out.order + [tag.value];
        var s' := if missed then s.(missed := s.missed + 1, total := s.total + 1) else s.(wrong := s.wrong + 1);
        out := TagTable(order, out.stats[tag.value := s']);
      }
    }
    assert entries[..|entries|] == entries;
    return Ok(out);
  }

  lemma {:induction false} AddEntriesErrPersists(t: TagTable, entries: seq<TagEntry>, missed: bool, k: nat)
    requires k <= |entries| && AddEntries(t, entries[..k], missed).Err?
    ensures AddEntries(t, entries, missed) == AddEntries(t, entries[..k], missed)
    decreases |entries|
  {
    if k < |entries| {
      var pre := entries[..|entries| - 1];
      assert pre[..k] == entries[..k];
      AddEntriesErrPersists(t, pre, missed, k);
    } else {
      assert entries[..k] == entries;
    }
  }

  method RecomputeCorrectMethod(t: TagTable) returns (out: TagTable)
    ensures out == RecomputeCorrect(t)
  {
    var stats := t.stats;
    for i := 0 to |t.order|
      invariant stats == RecomputeOver(t.stats, t.order[..i])
    {
      var k := t.order[i];
      if k != "" && k in stats {
        stats := stats[k := stats[k].(correct := stats[k].modelTags - stats[k].wrong)];
      }
      assert t.order[..i + 1][..i] == t.order[..i];
    }
    assert t.order[..|t.order|] == t.order;
    out := TagTable(t.order, stats);
  }

  lemma {:induction false} FoldErrPersists(n: int, records: seq<EvalRecord>, k: nat)
    requires k <= |records| && Fold(n, records[..k]).Err?
    ensures Fold(n, records) == Fold(n, records[..k])
    decreases |records|
  {
    if k < |records| {
      var pre := records[..|records| - 1];
      assert pre[..k] == records[..k];
      FoldErrPersists(n, pre, k);
    } else {
      assert records[..k] == records;
    }
  }

  /** The body of the loop over the records. */
  method ProcessRecord(tot: Totals, table: TagTable, rec: EvalRecord) returns (r: Result<(Totals, TagTable), StatsError>)
    ensures r == RecordStep(tot, table, rec)
  {
    var wrong := rec.wrongTags.GetOr([]);
    var missed := rec.missedTags.GetOr([]);
    var tot' := tot.(totalTags := tot.totalTags + rec.totalTags.GetOr(0),
                     correctTags := tot.correctTags + rec.correctTags.GetOr(0),
                     wrongTags := tot.wrongTags + |wrong|,
                     missedTags := tot.missedTags + |missed|);
    var t1 := CountModelTags(table, rec.originalTags.GetOr([]));
    var w := CountEntries(t1, wrong, false);
    if w.Err? {
      return Err(w.error);
    }
    var m := CountEntries(w.value, missed, true);
    if m.Err? {
      return Err(m.error);
    }
    var t3 := RecomputeCorrectMethod(m.value);
    return Ok((tot', t3));
  }

  /** `calculate_statistics(records)`: the totals and the per-tag counters, or the error it raises. */
  method CalculateStatistics(records: seq<EvalRecord>) returns (r: Result<(Totals, TagTable), StatsError>)
    ensures r == Statistics(records)
  {
    var tot := Totals(|records|, 0, 0, 0, 0);
    var table := EmptyTable;
    for i := 0 to |records|
      invariant Fold(|records|, records[..i]) == Ok((tot, table))
    {
      assert records[..i + 1][..i] == records[..i];
      var step := ProcessRecord(tot, table, records[i]);
      if step.Err? {
        FoldErrPersists(|records|, records, i + 1);
        return Err(step.error);
      }
      tot, table := step.value.0, step.value.1;
    }
    assert records[..|records|] == records;
    return Ok((tot, table));
  }

  // ---------------------------------------------------------------------------
  // What the counters count
  // ---------------------------------------------------------------------------

  /** The number of occurrences of `x` in `s`. */
  function Occ<T(==)>(x: T, s: seq<T>): nat
    decreases |s|
  {
    if s == [] then 0 else Occ(x, s[..|s| - 1]) + (if s[|s| - 1] == x then 1 else 0)
  }

  /** The number of entries that stand for `tag`. */
  function EntryOcc(tag: string, entries: seq<TagEntry>): nat
    decreases |entries|
  {
    if entries == [] then 0
    else EntryOcc(tag, entries[..|entries| - 1]) + (if EntryTag(entries[|entries| - 1]) == Ok(Some(tag)) then 1 else 0)
  }

  /** Summing a per-record quantity over the records. */
  function SumBy(records: seq<EvalRecord>, f: EvalRecord -> int): int
    decreases |records|
  {
    if records == [] then 0 else SumBy(records[..|records| - 1], f) + f(records[|records| - 1])
  }

  function ModelCount(tag: string, records: seq<EvalRecord>): int {
    SumBy(records, (r: EvalRecord) => Occ(Some(tag), r.originalTags.GetOr([])))
  }

  function WrongCount(tag: string, records: seq<EvalRecord>): int {
    SumBy(records, (r: EvalRecord) => EntryOcc(tag, r.wrongTags.GetOr([])))
  }

  function MissedCount(tag: string, records: seq<EvalRecord>): int {
    SumBy(records, (r: EvalRecord) => EntryOcc(tag, r.missedTags.GetOr([])))
  }

  /** The counters of `tag` as the record lists determine them. */
  function Expected(tag: string, records: seq<EvalRecord>): TagStats {
    var m := ModelCount(tag, records);
    var w := WrongCount(tag, records);
    var mi := MissedCount(tag, records);
    TagStats(m + mi, m - w, w, mi, m)
  }

  /** The iteration order lists every tag once, and the empty tag is never a key. */
  ghost predicate WellFormed(t: TagTable) {
    "" !in t.stats
    && (forall i :: 0 <= i < |t.order| ==> t.order[i] in t.stats)
    && (forall k :: k in t.stats ==> k in t.order)
    && (forall i, j :: 0 <= i < j < |t.order| ==> t.order[i] != t.order[j])
  }

  lemma PutWellFormed(t: TagTable, tag: string, s: TagStats)
    requires WellFormed(t) && tag != ""
    ensures WellFormed(Put(t, tag, s))
  {
  }

  lemma {:induction false} AddModelTagsGet(t: TagTable, tags: seq<Option<string>>, tag: string)
    requires tag != ""
    ensures var t' := AddModelTags(t, tags);
            var c := Occ(Some(tag), tags);
            Get(t', tag) == Get(t, tag).(modelTags := Get(t, tag).modelTags + c, total := Get(t, tag).total + c)
            && (tag in t'.stats <==> tag in t.stats || c > 0)
    decreases |tags|
  {
    if tags != [] {
      var pre := tags[..|tags| - 1];
      AddModelTagsGet(t, pre, tag);
    }
  }

  lemma {:induction false} AddEntriesGet(t: TagTable, entries: seq<TagEntry>, missed: bool, tag: string)
    requires tag != ""
    requires AddEntries(t, entries, missed).Ok?
    ensures var t' := AddEntries(t, entries, missed).value;
            var c := EntryOcc(tag, entries);
            var s := Get(t, tag);
            Get(t', tag) == (if missed then s.(missed := s.missed + c, total := s.total + c) else s.(wrong := s.wrong + c))
            && (tag in t'.stats <==> tag in t.stats || c > 0)
    decreases |entries|
  {
    if entries != [] {
      var pre := entries[..|entries| - 1];
      AddEntriesGet(t, pre, missed, tag);
    }
  }

  lemma {:induction false} RecomputeOverGet(stats: map<string, TagStats>, keys: seq<string>, tag: string)
    ensures RecomputeOver(stats, keys).Keys == stats.Keys
    ensures tag in stats ==> RecomputeOver(stats, keys)[tag] == if tag in keys && tag != "" then Fix(stats[tag]) else stats[tag]
    decreases |keys|
  {
    if keys != [] {
      var pre := keys[..|keys| - 1];
      RecomputeOverGet(stats, pre, tag);
      assert tag in keys <==> tag in pre || tag == keys[|keys| - 1] by {
        assert keys == pre + [keys[|keys| - 1]];
      }
    }
  }

  lemma RecomputeCorrectWellFormed(t: TagTable)
    requires WellFormed(t)
    ensures WellFormed(RecomputeCorrect(t))
  {
    RecomputeOverGet(t.stats, t.order, "");
  }

  lemma RecomputeCorrectGet(t: TagTable, tag: string)
    requires WellFormed(t) && tag != ""
    ensures Get(RecomputeCorrect(t), tag) == if tag in t.stats then Fix(Get(t, tag)) else Zero
    ensures tag in RecomputeCorrect(t).stats <==> tag in t.stats
  {
    RecomputeOverGet(t.stats, t.order, tag);
  }

  lemma {:induction false} FoldWellFormed(n: int, records: seq<EvalRecord>)
    requires Fold(n, records).Ok?
    ensures WellFormed(Fold(n, records).value.1)
    decreases |records|
  {
    if records != [] {
      var pre := records[..|records| - 1];
      var r := records[|records| - 1];
      FoldWellFormed(n, pre);
      var t := Fold(n, pre).value.1;
      var t1 := AddModelTags(t, r.originalTags.GetOr([]));
      AddModelTagsWellFormed(t, r.originalTags.GetOr([]));
      AddEntriesWellFormed(t1, r.wrongTags.GetOr([]), false);
      var t2 := AddEntries(t1, r.wrongTags.GetOr([]), false).value;
      AddEntriesWellFormed(t2, r.missedTags.GetOr([]), true);
      var t3 := AddEntries(t2, r.missedTags.GetOr([]), true).value;
      RecomputeCorrectWellFormed(t3);
      assert Fold(n, records).value.1 == RecomputeCorrect(t3);
    }
  }

  lemma {:induction false} FoldTotals(n: int, records: seq<EvalRecord>)
    requires Fold(n, records).Ok?
    ensures Fold(n, records).value.0
            == Totals(n, SumBy(records, (r: EvalRecord) => r.totalTags.GetOr(0)), SumBy(records, (r: EvalRecord) => r.correctTags.GetOr(0)),
                      SumBy(records, (r: EvalRecord) => |r.wrongTags.GetOr([])|), SumBy(records, (r: EvalRecord) => |r.missedTags.GetOr([])|))
    decreases |records|
  {
    if records != [] {
      FoldTotals(n, records[..|records| - 1]);
    }
  }

  /**
    After the records, the counters of every non-empty tag are the counts of
    the record lists: `model_tags` and `wrong` and `missed` count the tag's
    occurrences, `total` is `model_tags + missed`, and `correct` is
    `model_tags - wrong`, which is negative when a tag is marked wrong more
    often than the model gave it. A tag is a key exactly when it occurs
    somewhere.
   */
  lemma {:induction false} FoldCounts(n: int, records: seq<EvalRecord>, tag: string)
    requires tag != "" && Fold(n, records).Ok?
    ensures var t := Fold(n, records).value.1;
            Get(t, tag) == Expected(tag, records)
            && (tag in t.stats <==> ModelCount(tag, records) + WrongCount(tag, records) + MissedCount(tag, records) > 0)
    decreases |records|
  {
    if records != [] {
      var pre := records[..|records| - 1];
      var r := records[|records| - 1];
      FoldCounts(n, pre, tag);
      FoldWellFormed(n, pre);
      var acc := Fold(n, pre).value;
      RecordStepGet(acc.0, acc.1, r, tag);
      CountsStep(tag, records);
    }
  }

  /** One record adds its occurrences of `tag` to the tag's counters, and `correct` is recomputed. */
  lemma RecordStepGet(tot: Totals, t: TagTable, r: EvalRecord, tag: string)
    requires tag != "" && WellFormed(t) && RecordStep(tot, t, r).Ok?
    ensures var t' := RecordStep(tot, t, r).value.1;
            var s := Get(t, tag);
            var c := Occ(Some(tag), r.originalTags.GetOr([]));
            var cw := EntryOcc(tag, r.wrongTags.GetOr([]));
            var cm := EntryOcc(tag, r.missedTags.GetOr([]));
            (tag in t'.stats <==> tag in t.stats || c + cw + cm > 0)
            && Get(t', tag) == if tag in t'.stats
                               then TagStats(s.total + c + cm, s.modelTags + c - (s.wrong + cw), s.wrong + cw, s.missed + cm, s.modelTags + c)
                               else Zero
  {
    var t1 := AddModelTags(t, r.originalTags.GetOr([]));
    AddModelTagsGet(t, r.originalTags.GetOr([]), tag);
    AddModelTagsWellFormed(t, r.originalTags.GetOr([]));
    AddEntriesGet(t1, r.wrongTags.GetOr([]), false, tag);
    AddEntriesWellFormed(t1, r.wrongTags.GetOr([]), false);
    var t2 := AddEntries(t1, r.wrongTags.GetOr([]), false).value;
    AddEntriesGet(t2, r.missedTags.GetOr([]), true, tag);
    AddEntriesWellFormed(t2, r.missedTags.GetOr([]), true);
    var t3 := AddEntries(t2, r.missedTags.GetOr([]), true).value;
    RecomputeCorrectGet(t3, tag);
    assert RecordStep(tot, t, r).value.1 == RecomputeCorrect(t3);
  }

  /** The counts of one more record add up. */
  lemma CountsStep(tag: string, records: seq<EvalRecord>)
    requires records != []
    ensures var pre, r := records[..|records| - 1], records[|records| - 1];
            ModelCount(tag, records) == ModelCount(tag, pre) + Occ(Some(tag), r.originalTags.GetOr([]))
            && WrongCount(tag, records) == WrongCount(tag, pre) + EntryOcc(tag, r.wrongTags.GetOr([]))
            && MissedCount(tag, records) == MissedCount(tag, pre) + EntryOcc(tag, r.missedTags.GetOr([]))
  {
  }

  /** The counters of every tag after `calculate_statistics`. */
  lemma StatisticsCounts(records: seq<EvalRecord>, tag: string)
    requires tag != "" && Statistics(records).Ok?
    ensures var (tot, t) := Statistics(records).value;
            Get(t, tag) == Expected(tag, records)
            && (tag in t.stats <==> ModelCount(tag, records) + WrongCount(tag, records) + MissedCount(tag, records) > 0)
            && tot.totalVideos == |records| && tot.wrongTags == SumBy(records, (r: EvalRecord) => |r.wrongTags.GetOr([])|)
            && tot.missedTags == SumBy(records, (r: EvalRecord) => |r.missedTags.GetOr([])|)
            && tot.totalTags == SumBy(records, (r: EvalRecord) => r.totalTags.GetOr(0))
            && tot.correctTags == SumBy(records, (r: EvalRecord) => r.correctTags.GetOr(0))
  {
    FoldCounts(|records|, records, tag);
    FoldTotals(|records|, records);
  }

  /** A record whose lists hold a non-empty dict without a 'tag' key. */
  predicate Unhashable(r: EvalRecord) {
    OtherDict(false) in r.wrongTags.GetOr([]) || OtherDict(false) in r.missedTags.GetOr([])
  }

  lemma {:induction false} AddModelTagsWellFormed(t: TagTable, tags: seq<Option<string>>)
    requires WellFormed(t)
    ensures WellFormed(AddModelTags(t, tags))
    decreases |tags|
  {
    if tags != [] {
      AddModelTagsWellFormed(t, tags[..|tags| - 1]);
      var u := AddModelTags(t, tags[..|tags| - 1]);
      var x := tags[|tags| - 1];
      if Truthy(x) {
        PutWellFormed(u, x.value, Get(u, x.value).(modelTags := Get(u, x.value).modelTags + 1, total := Get(u, x.value).total + 1));
      }
    }
  }

  lemma {:induction false} AddEntriesWellFormed(t: TagTable, entries: seq<TagEntry>, missed: bool)
    requires WellFormed(t) && AddEntries(t, entries, missed).Ok?
    ensures WellFormed(AddEntries(t, entries, missed).value)
    decreases |entries|
  {
    if entries != [] {
      var pre := entries[..|entries| - 1];
      AddEntriesWellFormed(t, pre, missed);
      var u := AddEntries(t, pre, missed).value;
      var e := entries[|entries| - 1];
      if EntryTag(e).Ok? && Truthy(EntryTag(e).value) {
        var x := EntryTag(e).value.value;
        var sx := Get(u, x);
        PutWellFormed(u, x, if missed then sx.(missed := sx.missed + 1, total := sx.total + 1) else sx.(wrong := sx.wrong + 1));
      }
    }
  }

  lemma {:induction false} AddEntriesFails(t: TagTable, entries: seq<TagEntry>, missed: bool)
    ensures AddEntries(t, entries, missed).Err? <==> OtherDict(false) in entries
    decreases |entries|
  {
    if entries != [] {
      var pre := entries[..|entries| - 1];
      AddEntriesFails(t, pre, missed);
      assert entries == pre + [entries[|entries| - 1]];
    }
  }

  /** `calculate_statistics` raises exactly when some record's lists hold a non-empty dict without 'tag'. */
  lemma {:induction false} FoldFails(n: int, records: seq<EvalRecord>)
    ensures Fold(n, records).Err? <==> exists i :: 0 <= i < |records| && Unhashable(records[i])
    decreases |records|
  {
    if records != [] {
      var pre := records[..|records| - 1];
      var r := records[|records| - 1];
      FoldFails(n, pre);
      assert (exists i :: 0 <= i < |records| && Unhashable(records[i]))
             <==> (exists i :: 0 <= i < |pre| && Unhashable(pre[i])) || Unhashable(r) by {
        if exists i :: 0 <= i < |records| && Unhashable(records[i]) {
          var i :| 0 <= i < |records| && Unhashable(records[i]);
          if i < |pre| {
            assert Unhashable(pre[i]);
          }
        }
        if exists i :: 0 <= i < |pre| && Unhashable(pre[i]) {
          var i :| 0 <= i < |pre| && Unhashable(pre[i]);
          assert records[i] == pre[i];
        }
      }
      if Fold(n, pre).Ok? {
        var (tot, t) := Fold(n, pre).value;
        var t1 := AddModelTags(t, r.originalTags.GetOr([]));
        AddEntriesFails(t1, r.wrongTags.GetOr([]), false);
        if AddEntries(t1, r.wrongTags.GetOr([]), false).Ok? {
          AddEntriesFails(AddEntries(t1, r.wrongTags.GetOr([]), false).value, r.missedTags.GetOr([]), true);
        }
      }
    }
  }

  // ---------------------------------------------------------------------------
  // generate_evaluation_report, without the percentages and the charts
  // ---------------------------------------------------------------------------

  /** A `tag_data` entry without its two percentages. */
  datatype TagRow = TagRow(tag: string, accuracyTotal: int, recallTotal: int, correct: int, wrong: int, missed: int,
                           modelTags: int)

  /** `recall_total` is the recall denominator `model_tags - wrong + missed`. */
  function RowOf(tag: string, s: TagStats): TagRow {
    TagRow(tag, s.modelTags, s.modelTags - s.wrong + s.missed, s.correct, s.wrong, s.missed, s.modelTags)
  }

  /** The loop over `tag_stats.items()`, skipping falsy tags. */
  function TagRowsOver(stats: map<string, TagStats>, keys: seq<string>): (rows: seq<TagRow>)
    ensures |rows| <= |keys|
    decreases |keys|
  {
    if keys == [] then []
    else
      var k := keys[|keys| - 1];
      TagRowsOver(stats, keys[..|keys| - 1]) + (if k != "" && k in stats then [RowOf(k, stats[k])] else [])
  }

  function RecallTotal(r: TagRow): int {
    r.recallTotal
  }

  /** `tag_data` after `tag_data.sort(key=lambda x: x['recall_total'], reverse=True)`. */
  function TagData(t: TagTable): seq<TagRow> {
    SortDescending(TagRowsOver(t.stats, t.order), RecallTotal)
  }

  /** A `tag_analysis` entry without its two percentage strings. */
  datatype AnalysisRow = AnalysisRow(tagName: string, sampleSize: int, correct: int, wrong: int, missed: int)

  function AnalysisRowOf(d: TagRow): AnalysisRow {
    AnalysisRow(CleanTagFormat(d.tag), d.recallTotal, d.correct, d.wrong, d.missed)
  }

  function AnalysisOf(rows: seq<TagRow>): (a: seq<AnalysisRow>)
    ensures |a| == |rows|
    decreases |rows|
  {
    if rows == [] then [] else AnalysisOf(rows[..|rows| - 1]) + [AnalysisRowOf(rows[|rows| - 1])]
  }

  datatype Report = Report(totals: Totals, tagStatistics: map<string, TagStats>, tagAnalysis: seq<AnalysisRow>)

  /** The report with all totals zero except `total_videos`, no counters and no analysis. */
  function ZeroReport(videos: int): Report {
    Report(Totals(videos, 0, 0, 0, 0), map[], [])
  }

  /**
    What `generate_evaluation_report` returns: `loaded` is the record list,
    `None` when loading raises; `outputsOk` says whether writing the charts
    and the JSON report succeeded.
   */
  function ReportOf(loaded: Option<seq<EvalRecord>>, outputsOk: bool): Report {
    var records := loaded.GetOr([]);
    if records == [] then ZeroReport(0)
    else match Statistics(records)
      case Err(_) => ZeroReport(|records|)
      case Ok((tot, t)) =>
        if !outputsOk then ZeroReport(|records|)
        else Report(tot, t.stats, AnalysisOf(TagData(t)))
  }

  method BuildTagRows(table: TagTable) returns (tagData: seq<TagRow>)
    ensures tagData == TagRowsOver(table.stats, table.order)
  {
    tagData := [];
    for i := 0 to |table.order|
      invariant tagData == TagRowsOver(table.stats, table.order[..i])
    {
      var tag := table.order[i];
      if tag != "" && tag in table.stats {
        tagData := tagData + [RowOf(tag, table.stats[tag])];
      }
      assert table.order[..i + 1][..i] == table.order[..i];
    }
    assert table.order[..|table.order|] == table.order;
  }

  method BuildAnalysis(tagData: seq<TagRow>) returns (analysis: seq<AnalysisRow>)
    ensures analysis == AnalysisOf(tagData)
  {
    analysis := [];
    for i := 0 to |tagData|
      invariant analysis == AnalysisOf(tagData[..i])
    {
      analysis := analysis + [AnalysisRowOf(tagData[i])];
      assert tagData[..i + 1][..i] == tagData[..i];
    }
    assert tagData[..|tagData|] == tagData;
  }

  /** `generate_evaluation_report(jsonl_path, output_path)`. */
  method GenerateEvaluationReport(loaded: Option<seq<EvalRecord>>, outputsOk: bool) returns (report: Report)
    ensures report == ReportOf(loaded, outputsOk)
  {
    var records := if loaded.Some? then loaded.value else [];
    if records == [] {
      return ZeroReport(0);
    }
    var st := CalculateStatistics(records);
    if st.Err? || !outputsOk {
      return ZeroReport(|records|);
    }
    var tot, table := st.value.0, st.value.1;
    var tagData := BuildTagRows(table);
    tagData := SortDescending(tagData, RecallTotal);
    var analysis := BuildAnalysis(tagData);
    return Report(tot, table.stats, analysis);
  }

  lemma {:induction false} TagRowsOverRows(stats: map<string, TagStats>, keys: seq<string>)
    ensures forall r :: r in TagRowsOver(stats, keys) ==> r.tag in stats && r.tag in keys && r == RowOf(r.tag, stats[r.tag])
    ensures forall k :: k in keys && k != "" && k in stats ==> RowOf(k, stats[k]) in TagRowsOver(stats, keys)
    decreases |keys|
  {
    if keys != [] {
      var pre := keys[..|keys| - 1];
      TagRowsOverRows(stats, pre);
      assert keys == pre + [keys[|keys| - 1]];
    }
  }

  lemma {:induction false} AnalysisOfRows(rows: seq<TagRow>)
    ensures forall i :: 0 <= i < |rows| ==> AnalysisOf(rows)[i] == AnalysisRowOf(rows[i])
    decreases |rows|
  {
    if rows != [] {
      AnalysisOfRows(rows[..|rows| - 1]);
    }
  }

  /**
    `tag_data` has one row per counted tag, ordered by non-increasing
    `recall_total`: every counted tag has its row, and every row is the row
    of a counted tag with that tag's counters.
   */
  lemma TagDataRows(t: TagTable)
    requires WellFormed(t)
    ensures var data := TagData(t);
            |data| == |TagRowsOver(t.stats, t.order)|
            && (forall i, j :: 0 <= i < j < |data| ==> data[i].recallTotal >= data[j].recallTotal)
            && (forall k :: k in t.stats ==> RowOf(k, t.stats[k]) in data)
            && (forall r :: r in data ==> r.tag in t.stats && r == RowOf(r.tag, t.stats[r.tag]))
  {
    var rows := TagRowsOver(t.stats, t.order);
    TagRowsOverRows(t.stats, t.order);
    SortDescendingCorrect(rows, RecallTotal, 0);
    assert |multiset(TagData(t))| == |multiset(rows)|;
    forall r | r in TagData(t) ensures r in rows {
      assert r in multiset(TagData(t));
    }
    forall k | k in t.stats ensures RowOf(k, t.stats[k]) in TagData(t) {
      assert RowOf(k, t.stats[k]) in multiset(rows);
    }
  }

  /** A full report keeps the counters and has the analysis row of each `tag_data` row, in that order. */
  lemma ReportRows(records: seq<EvalRecord>, outputsOk: bool)
    requires records != [] && outputsOk && Statistics(records).Ok?
    ensures var t := Statistics(records).value.1;
            var report := ReportOf(Some(records), outputsOk);
            WellFormed(t) && report.tagStatistics == t.stats && report.totals == Statistics(records).value.0
            && |report.tagAnalysis| == |TagData(t)|
            && forall i :: 0 <= i < |TagData(t)| ==> report.tagAnalysis[i] == AnalysisRowOf(TagData(t)[i])
  {
    FoldWellFormed(|records|, records);
    AnalysisOfRows(TagData(Statistics(records).value.1));
  }

  /** No records, or records that cannot be loaded, give the all-zero report. */
  lemma NoRecordsGiveZeroReport(loaded: Option<seq<EvalRecord>>, outputsOk: bool)
    requires loaded.None? || loaded == Some([])
    ensures ReportOf(loaded, outputsOk) == ZeroReport(0)
  {
  }

  /** A failure after loading keeps only the number of records. */
  lemma FailureKeepsVideoCount(records: seq<EvalRecord>, outputsOk: bool)
    requires records != [] && (Statistics(records).Err? || !outputsOk)
    ensures ReportOf(Some(records), outputsOk) == ZeroReport(|records|)
  {
  }

  // ---------------------------------------------------------------------------
  // clean_tag_format
  // ---------------------------------------------------------------------------

  /** `clean_tag_format(tag)`: the text after the first ": " up to the next one. */
  function CleanTagFormat(tag: string): string {
    if Contains(tag, ": ") then Split(tag, ": ")[1] else tag
  }

  lemma NoOccurrenceInPrefix(s: string, j: nat)
    requires j <= |s| && forall i :: 0 <= i < j ==> !OccursAt(s, ": ", i)
    ensures forall i :: 0 <= i <= j ==> !OccursAt(s[..j], ": ", i)
  {
    var p := s[..j];
    forall i | 0 <= i <= |p| ensures !OccursAt(p, ": ", i) {
      if i + 2 <= |p| {
        assert p[i..i + 2] == s[i..i + 2];
        assert !OccursAt(s, ": ", i);
      }
    }
  }

  lemma SplitHead(s: string)
    ensures Find(s, ": ").None? ==> Split(s, ": ")[0] == s
    ensures Find(s, ": ").Some? ==> Split(s, ": ")[0] == s[..Find(s, ": ").value]
  {
  }

  /** A tag without ": " is returned unchanged. */
  lemma CleanTagFormatUnchanged(tag: string)
    requires Find(tag, ": ").None?
    ensures CleanTagFormat(tag) == tag
  {
  }

  /**
    For a tag whose first ": " is at `i`, the result is the text that follows
    it, up to the next ": " or the end, and it holds no ": " itself.
   */
  lemma CleanTagFormatSpec(tag: string, i: nat)
    requires Find(tag, ": ") == Some(i)
    ensures CleanShape(tag, i, CleanTagFormat(tag))
  {
    CleanViaSplit(tag, i);
    var rest := tag[i + 2..];
    if Find(rest, ": ").Some? {
      CleanUpToSecondShape(tag, i, Find(rest, ": ").value);
    } else {
      CleanToEnd(tag, i);
    }
  }

  lemma CleanUpToSecond(tag: string, i: nat, j: nat)
    requires i + 2 <= |tag| && CleanTagFormat(tag) == Split(tag[i + 2..], ": ")[0]
    requires Find(tag[i + 2..], ": ") == Some(j)
    ensures var r := CleanTagFormat(tag);
            r == tag[i + 2..i + 2 + j] && (forall k :: 0 <= k <= |r| ==> !OccursAt(r, ": ", k))
            && OccursAt(tag, ": ", i + 2 + j)
  {
    var rest := tag[i + 2..];
    SplitHead(rest);
    NoOccurrenceInPrefix(rest, j);
    assert tag[i + 2 + j..i + 2 + j + 2] == rest[j..j + 2];
  }

  lemma CleanUpToSecondShape(tag: string, i: nat, j: nat)
    requires i + 2 <= |tag| && CleanTagFormat(tag) == Split(tag[i + 2..], ": ")[0]
    requires Find(tag[i + 2..], ": ") == Some(j)
    ensures CleanShape(tag, i, CleanTagFormat(tag))
  {
    CleanUpToSecond(tag, i, j);
    assert |CleanTagFormat(tag)| == j;
  }

  lemma CleanToEnd(tag: string, i: nat)
    requires i + 2 <= |tag| && CleanTagFormat(tag) == Split(tag[i + 2..], ": ")[0]
    requires Find(tag[i + 2..], ": ").None?
    ensures var r := CleanTagFormat(tag);
            r == tag[i + 2..] && forall k :: 0 <= k <= |r| ==> !OccursAt(r, ": ", k)
    ensures CleanShape(tag, i, CleanTagFormat(tag))
  {
    SplitHead(tag[i + 2..]);
    assert tag[i + 2..i + 2 + |CleanTagFormat(tag)|] == tag[i + 2..];
  }

  /** `r` follows the ": " at `i`, holds no ": ", and ends at the next ": " or at the end of `tag`. */
  predicate CleanShape(tag: string, i: nat, r: string) {
    (forall k :: 0 <= k <= |r| ==> !OccursAt(r, ": ", k)) && i + 2 + |r| <= |tag| && tag[i + 2..i + 2 + |r|] == r
    && (i + 2 + |r| == |tag| || OccursAt(tag, ": ", i + 2 + |r|))
  }

  lemma CleanViaSplit(tag: string, i: nat)
    requires Find(tag, ": ") == Some(i)
    ensures i + 2 <= |tag| && CleanTagFormat(tag) == Split(tag[i + 2..], ": ")[0]
  {
    var later := Split(tag[i + 2..], ": ");
    assert Split(tag, ": ") == [tag[..i]] + later;
    assert Split(tag, ": ")[1] == later[0];
  }

  lemma CleanTagFormatExample()
    ensures CleanTagFormat("a: b: c") == "b" && CleanTagFormat("plain") == "plain"
  {
    FindAfterPrefix("a", ": ", "b: c");
    FindAfterPrefix("b", ": ", "c");
    assert "a: b: c" == "a" + ": " + "b: c";
    assert "a: b: c"[3..] == "b: c";
    assert "b: c" == "b" + ": " + "c";
    FindWithoutFirstChar("plain", ": ");
  }

  /** A tag marked wrong that the model never gave ends with `correct == -1`. */
  lemma CorrectCanBeNegative()
    ensures var records := [EvalRecord(Some([]), None, None, Some([BareTag(Some("x"))]), None)];
            Statistics(records).Ok? && Get(Statistics(records).value.1, "x").correct == -1
  {
    var e := [BareTag(Some("x"))];
    var r := EvalRecord(Some([]), None, None, Some(e), None);
    var records := [r];
    FoldFails(1, records);
    assert !Unhashable(records[0]);
    StatisticsCounts(records, "x");
    assert e[..0] == [];
    assert EntryOcc("x", e) == 1;
    SumByOne(r, (r: EvalRecord) => Occ(Some("x"), r.originalTags.GetOr([])));
    SumByOne(r, (r: EvalRecord) => EntryOcc("x", r.wrongTags.GetOr([])));
    SumByOne(r, (r: EvalRecord) => EntryOcc("x", r.missedTags.GetOr([])));
  }

  lemma SumByOne(r: EvalRecord, f: EvalRecord -> int)
    ensures SumBy([r], f) == f(r)
  {
    assert [r][..0] == [];
  }
}
