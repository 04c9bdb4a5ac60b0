/**
 The dashboard metrics service: buffered counters merged into a shared file, pruned, and summed up.
 */
module DashboardMetrics {

  import opened MetricsData
  import opened MetricsLog
  import opened MetricsRuns
  import opened TrendRecount

  method MergeBucket(target: Bucket, source: Bucket) returns (merged: Bucket)
    ensures merged == Add(target, source)
  {
    var tallies, names := target.tallies, source.tallies.Keys;
    while names != {}
      invariant names <= source.tallies.Keys
      invariant tallies.Keys == target.tallies.Keys + (source.tallies.Keys - names)
      invariant forall k :: k in tallies ==>
                  tallies[k] == Count(target.tallies, k) + if k in names then 0 else Count(source.tallies, k)
      decreases names
    {
      var k :| k in names;
      tallies := tallies[k := Count(tallies, k) + source.tallies[k]];
      names := names - {k};
    }
    assert tallies == AddTallies(target.tallies, source.tallies);
    merged := Bucket(target.total + source.total, target.success + source.success, target.failed + source.failed,
                     target.rateLimited + source.rateLimited, tallies);
  }

  method MergeHours(target: Hours, source: Hours) returns (merged: Hours)
    ensures merged == AddHours(target, source)
  {
    merged := target;
    var keys := source.Keys;
    while keys != {}
      invariant keys <= source.Keys
      invariant merged.Keys == target.Keys + (source.Keys - keys)
      invariant forall h :: h in merged ==>
                  merged[h] == if h in source && h !in keys then Add(HourAt(target, h), source[h]) else target[h]
      decreases keys
    {
      assert (forall h :: h !in keys) ==> keys == {};
      var h :| h in keys;
      var hour := MergeBucket(HourAt(merged, h), source[h]);
      merged := merged[h := hour];
      keys := keys - {h};
    }
    forall h | h in target && h !in source ensures merged[h] == Add(target[h], EMPTY) {
      BucketAlgebra(target[h], EMPTY, EMPTY);
    }
    assert merged == AddHours(target, source);
  }

  method MergeDay(target: Day, source: Day) returns (merged: Day)
    ensures merged == AddDay(target, source)
  {
    var bucket := MergeBucket(target.bucket, source.bucket);
    var hours := MergeHours(target.hours, source.hours);
    merged := Day(bucket, hours);
  }

  /** What a day has become when the days in `done` have been merged. */
  predicate MergedDay(merged: Metrics, target: Metrics, source: Metrics, done: set<DayKey>, k: DayKey) {
    DayAt(merged, k) == if k in done then AddDay(DayAt(target, k), DayAt(source, k)) else DayAt(target, k)
  }

  lemma {:induction false} AllMerged(merged: Metrics, target: Metrics, source: Metrics)
    requires merged.Keys == target.Keys + source.Keys
    requires forall k :: MergedDay(merged, target, source, source.Keys, k)
    ensures merged == Merge(target, source)
  {
    forall k | k in merged.Keys ensures DayAt(merged, k) == DayAt(Merge(target, source), k) {
      assert MergedDay(merged, target, source, source.Keys, k);
      DayAlgebra(DayAt(target, k), NO_DAY, NO_DAY);
    }
    assert Merge(target, source).Keys == merged.Keys;
    SameDays(merged, Merge(target, source));
  }

  /** Merging day by day and hour by hour into the target. */
  method MergeMetrics(target: Metrics, source: Metrics) returns (merged: Metrics)
    ensures merged == Merge(target, source)
  {
    merged := target;
    var left := source.Keys;
    while left != {}
      invariant left <= source.Keys
      invariant merged.Keys == target.Keys + (source.Keys - left)
      invariant forall k :: MergedDay(merged, target, source, source.Keys - left, k)
      decreases left
    {
      var k :| k in left;
      assert MergedDay(merged, target, source, source.Keys - left, k);
      var day := MergeDay(DayAt(merged, k), source[k]);
      var more := merged[k := day];
      forall j ensures MergedDay(more, target, source, source.Keys - (left - {k}), j) {
        assert MergedDay(merged, target, source, source.Keys - left, j);
      }
      merged := more;
      left := left - {k};
    }
    assert source.Keys - left == source.Keys;
    AllMerged(merged, target, source);
  }

  method PruneDays(data: Metrics, today: int) returns (kept: Metrics, changed: bool)
    ensures kept == Prune(data, today) && changed == (kept != data)
  {
    kept, changed := data, false;
    var cutoff := today - (RETENTION_DAYS - 1);
    var keys := data.Keys;
    while keys != {}
      invariant keys <= data.Keys
      invariant kept == map k | k in data && (k in keys || Retained(k, today)) :: data[k]
      invariant changed <==> kept.Keys != data.Keys
      decreases keys
    {
      var k :| k in keys;
      if k.Unreadable? || k.number < cutoff || k.number > today {
        kept := map j | j in kept && j != k :: kept[j];
        changed := true;
        assert k !in kept.Keys;
      }
      keys := keys - {k};
    }
    assert kept == Prune(data, today);
  }

  predicate AnyUpTo(series: seq<Bucket>, m: nat, w: Word)
    requires m <= |series|
  {
    exists j :: 0 <= j < m && HasModel(series[j], w)
  }

  /** A model's row after the first `m` buckets. */
  predicate RowUpTo(rows: map<Word, seq<int>>, series: seq<Bucket>, m: nat, w: Word)
    requires m <= |series|
  {
    && (w in rows <==> AnyUpTo(series, m, w))
    && (w in rows ==>
         && |rows[w]| == |series|
         && forall j :: 0 <= j < |series| ==> rows[w][j] == if j < m then ModelCount(series[j], w) else 0)
  }

  lemma {:induction false} RowAdded(rows: map<Word, seq<int>>, series: seq<Bucket>, i: nat, w: Word)
    requires i < |series| && RowUpTo(rows, series, i, w) && HasModel(series[i], w)
    ensures RowUpTo(RowBump(rows, w, |series|, i, ModelCount(series[i], w)), series, i + 1, w)
  {
    if w !in rows {
      forall j | 0 <= j < i ensures ModelCount(series[j], w) == 0 {
        assert !HasModel(series[j], w);
      }
    }
  }

  lemma {:induction false} RowSkipped(rows: map<Word, seq<int>>, series: seq<Bucket>, i: nat, w: Word)
    requires i < |series| && RowUpTo(rows, series, i, w) && !HasModel(series[i], w)
    ensures RowUpTo(rows, series, i + 1, w)
  {
    if AnyUpTo(series, i, w) {
      var j :| 0 <= j < i && HasModel(series[j], w);
      assert AnyUpTo(series, i + 1, w);
    }
  }

  function Models(b: Bucket): set<Word> {
    set k | k in b.tallies && k.Model? :: k.w
  }

  lemma {:induction false} ModelsOf(b: Bucket, w: Word)
    ensures w in Models(b) <==> HasModel(b, w)
  {
    if HasModel(b, w) {
      assert Model(w).w == w;
    }
  }

  ghost predicate RowsUpTo(rows: map<Word, seq<int>>, series: seq<Bucket>, m: nat)
    requires m <= |series|
  {
    forall w :: RowUpTo(rows, series, m, w)
  }

  /** How far a model's row has got while bucket `i` is being added. */
  function Reached(done: set<Word>, i: nat, w: Word): nat {
    if w in done then i + 1 else i
  }

  /** The rows of one more bucket. */
  method AddRows(before: map<Word, seq<int>>, series: seq<Bucket>, i: nat) returns (rows: map<Word, seq<int>>)
    requires i < |series| && RowsUpTo(before, series, i)
    ensures RowsUpTo(rows, series, i + 1)
  {
    rows := before;
    var models := Models(series[i]);
    var left := models;
    while left != {}
      invariant left <= models
      invariant forall w :: RowUpTo(rows, series, Reached(models - left, i, w), w)
      decreases left
    {
      var w :| w in left;
      ModelsOf(series[i], w);
      assert RowUpTo(rows, series, Reached(models - left, i, w), w);
      RowAdded(rows, series, i, w);
      var added := RowBump(rows, w, |series|, i, ModelCount(series[i], w));
      forall v ensures RowUpTo(added, series, Reached(models - (left - {w}), i, v), v) {
        assert RowUpTo(rows, series, Reached(models - left, i, v), v);
      }
      rows := added;
      left := left - {w};
    }
    ghost var next := i + 1;
    forall w ensures RowUpTo(rows, series, next, w) {
      ModelsOf(series[i], w);
      assert RowUpTo(rows, series, Reached(models - left, i, w), w);
      if w !in models {
        RowSkipped(rows, series, i, w);
      }
    }
  }

  /** The model table, bucket by bucket and model by model. */
  method ModelRows(series: seq<Bucket>) returns (rows: map<Word, seq<int>>)
    ensures RowsOf(rows, series)
  {
    rows := map[];
    for i := 0 to |series|
      invariant RowsUpTo(rows, series, i)
    {
      rows := AddRows(rows, series, i);
    }
    forall w ensures RowOf(rows, series, w) {
      assert RowUpTo(rows, series, |series|, w);
    }
  }

  /** The trend read off stored data: the buckets are looked up one by one. */
  method StoredTrend(range: Range, now: int, data: Metrics) returns (trend: Trend)
    ensures Shows(trend, StoredSeries(range, now, data))
  {
    var n := BucketCount(range);
    var series: seq<Bucket> := [];
    for i := 0 to n
      invariant |series| == i && forall j :: 0 <= j < i ==> series[j] == StoredBucket(range, data, Start(range, now, j))
    {
      series := series + [StoredBucket(range, data, Start(range, now, i))];
    }
    assert series == StoredSeries(range, now, data);
    var models := ModelRows(series);
    trend := Trend(seq(n, i requires 0 <= i < n => series[i].total),
                   seq(n, i requires 0 <= i < n => series[i].success),
                   seq(n, i requires 0 <= i < n => OtherFailures(series[i])),
                   seq(n, i requires 0 <= i < n => series[i].rateLimited),
                   models);
    forall i | 0 <= i < n ensures CellOf(trend, series[i], i) {}
  }

  /** Counting logged calls, which come newest first, in the order in which they were made. */
  method RecordBackwards(items: seq<Call>) returns (data: Metrics)
    ensures data == Recorded(Reverse(items))
  {
    data := map[];
    var i := |items|;
    ghost var done: seq<Call> := [];
    assert items[..i] == items && done + Reverse(items) == Reverse(items);
    while i > 0
      invariant 0 <= i <= |items|
      invariant data == Recorded(done) && done + Reverse(items[..i]) == Reverse(items)
    {
      i := i - 1;
      ghost var before, c := done, items[i];
      assert items[..i + 1][..i] == items[..i];
      done := before + [c];
      assert before + ([c] + Reverse(items[..i])) == done + Reverse(items[..i]);
      assert done[..|before|] == before;
      data := Applied(data, items[i]);
    }
    assert done + [] == done;
  }

  /** The file that all processes share. */
  class MetricsFile {
    var days: Metrics

    constructor (days: Metrics)
      ensures this.days == days
    {
      this.days := days;
    }
  }

  class DashboardMetricsService {
    const file: MetricsFile
    var pending: Metrics
    var dirty: bool

    constructor (file: MetricsFile)
      ensures this.file == file && Own() == IDLE
    {
      this.file, pending, dirty := file, map[], false;
    }

    ghost function Own(): Process
      reads this
    {
      Process(pending, dirty)
    }

    method RecordCallLog(call: Call)
      modifies this
      ensures (file.days, Own()) == AfterRecord(old(file.days), old(Own()), call)
    {
      if call.when.NoTime? {
        return;
      }
      var dayKey, hourKey := Date(DayOf(call.when.hour)), HourOf(call.when.hour);
      var day := DayAt(pending, dayKey);
      var hour := HourAt(day.hours, hourKey);
      pending := pending[dayKey := Day(Counted(day.bucket, call), day.hours[hourKey := Counted(hour, call)])];
      dirty := true;
    }

    /** `saved` says whether the file could be written; if not, everything stays as it was. */
    method Flush(today: int, saved: bool)
      modifies this, file
      ensures (file.days, Own()) == AfterFlush(old(file.days), old(Own()), saved, today)
    {
      if !dirty {
        return;
      }
      var data := MergeMetrics(file.days, pending);
      var changed;
      data, changed := PruneDays(data, today);
      if saved {
        file.days := data;
        pending, dirty := map[], false;
      } else {
        dirty := true;
      }
    }

    method BackfillIfEmpty(items: seq<Call>, today: int)
      modifies file
      ensures (file.days, Own()) == AfterBackfill(old(file.days), old(Own()), items, today)
    {
      if pending != map[] {
        return;
      }
      var data, changed := PruneDays(file.days, today);
      if data != map[] {
        if changed {
          file.days := data;
        }
        return;
      }
      data := RecordBackwards(items);
      var more;
      data, more := PruneDays(data, today);
      if changed || more || data != map[] {
        file.days := data;
      }
    }

    /** What the dashboard shows is what the file and this process's own pending calls hold. */
    method GetSummary(range: Range, now: int) returns (trend: Trend)
      modifies this
      ensures (file.days, Own()) == AfterSummary(old(file.days), old(Own()), DayOf(now))
      ensures Shows(trend, StoredSeries(range, now, Seen(old(file.days), old(Own()), DayOf(now))))
    {
      var data := MergeMetrics(file.days, pending);
      var changed;
      data, changed := PruneDays(data, DayOf(now));
      if changed {
        dirty := true;
      }
      trend := StoredTrend(range, now, data);
    }
  }

  /**
   The incremental trend is the batch recount of the log, once every logged call is counted and the other
   processes have flushed, after any run without a backfill of counted calls; the labels alone can differ.
   */
  lemma {:induction false} TrendsAgree(range: Range, now: int, processes: seq<Process>, log: seq<Call>,
                                       events: seq<LogEvent>, from: int, i: nat, shown: Trend, recount: Trend)
    requires AllIdle(processes) && NoneLater(log, from)
    requires var start := Beginning(processes, log);
             && AllPossible(start, events, from) && AllQuiet(start, events, from)
             && LastDate(events, from) <= DayOf(now)
             && var end := RunLog(start, events, from);
                && Based(end) && OthersFlushed(end.state, i) && end.hands == [] && Labelled(end.log[end.base..])
                && Shows(shown, StoredSeries(range, now, Seen(end.state.file, end.state.processes[i], DayOf(now))))
                && Shows(recount, Series(range, now, AllInBatch(end.log[end.base..])))
    ensures var end := RunLog(Beginning(processes, log), events, from);
            Based(end) &&
            (shown == recount <==> forall c :: c in end.log[end.base..] ==> !OnlyInBatch(range, now, c))
  {
    var start := Beginning(processes, log);
    var end := RunLog(start, events, from);
    BeginningIsOne(processes, log, from);
    RunsCountOnce(start, events, from);
    RunIsInOrder(start, events, from);
    LaterIsOne(end, LastDate(events, from), DayOf(now));
    SummaryIsCount(end, i, DayOf(now));
    StoredIsRecounted(range, now, end.log[end.base..]);
    LabelsDecide(range, now, end.log[end.base..], shown, recount);
  }
}
