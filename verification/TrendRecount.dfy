/**
 The dashboard's trend, twice: read off the day and hour buckets, and recounted from the raw calls.
 */
module TrendRecount {

  import opened MetricsData

  /** The ranges a caller can ask for; any other text gives 24 daily buckets. */
  datatype Range = Last24Hours | Last7Days | Last30Days | OtherRange

  function BucketCount(range: Range): nat {
    match range
    case Last24Hours => 24
    case Last7Days => 7
    case Last30Days => 30
    case OtherRange => 24
  }

  /** The first hour of bucket `i` when `now` is the current hour. */
  function Start(range: Range, now: int, i: int): int {
    var back := BucketCount(range) - 1 - i;
    if range.Last24Hours? then now - back else 24 * (DayOf(now) - back)
  }

  /** The last 24 hours, 7 days or 30 days, or 24 days for any other range, up to the current hour or day. */
  lemma RangesByNumber(now: int, i: int)
    ensures Start(Last24Hours, now, i) == now - 23 + i && BucketCount(Last24Hours) == 24
    ensures Start(Last7Days, now, i) == 24 * (now / 24 - 6 + i) && BucketCount(Last7Days) == 7
    ensures Start(Last30Days, now, i) == 24 * (now / 24 - 29 + i) && BucketCount(Last30Days) == 30
    ensures Start(OtherRange, now, i) == 24 * (now / 24 - 23 + i) && BucketCount(OtherRange) == 24
    ensures Length(Last24Hours) == 1 && Length(Last7Days) == Length(Last30Days) == Length(OtherRange) == 24
  {
  }

  function Length(range: Range): int {
    if range.Last24Hours? then 1 else 24
  }

  /** The bucket a call falls into, or -1. */
  function BucketIndex(range: Range, now: int, when: When): int {
    if when.NoTime? then -1
    else
      var first := Start(range, now, 0);
      var i := if range.Last24Hours? then when.hour - first else DayOf(when.hour) - DayOf(first);
      if 0 <= i < BucketCount(range) then i else -1
  }

  /** Every call falls into the one bucket whose span of hours it lies in. */
  lemma {:induction false} IndexIsSpan(range: Range, now: int, when: When, i: int)
    requires 0 <= i < BucketCount(range)
    ensures BucketIndex(range, now, when) == i
            <==> when.AtHour? && Start(range, now, i) <= when.hour < Start(range, now, i) + Length(range)
  {
    if when.AtHour? && !range.Last24Hours? {
      assert DayOf(Start(range, now, 0)) == DayOf(now) - (BucketCount(range) - 1);
    }
  }

  function BucketOf(range: Range, now: int, calls: seq<Call>, i: int): Bucket {
    Between(calls, Start(range, now, i), Start(range, now, i) + Length(range))
  }

  /** The raw calls counted into the shown buckets. */
  function Series(range: Range, now: int, calls: seq<Call>): (series: seq<Bucket>)
    ensures |series| == BucketCount(range)
    ensures forall i :: 0 <= i < |series| ==> series[i] == BucketOf(range, now, calls, i)
  {
    seq(BucketCount(range), i requires 0 <= i < BucketCount(range) => BucketOf(range, now, calls, i))
  }

  /** The bucket that the stored data has for a start hour. */
  function StoredBucket(range: Range, data: Metrics, start: int): Bucket {
    var day := DayAt(data, Date(DayOf(start)));
    if range.Last24Hours? then HourAt(day.hours, HourOf(start)) else day.bucket
  }

  function StoredSeries(range: Range, now: int, data: Metrics): (series: seq<Bucket>)
    ensures |series| == BucketCount(range)
    ensures forall i :: 0 <= i < |series| ==> series[i] == StoredBucket(range, data, Start(range, now, i))
  {
    seq(BucketCount(range), i requires 0 <= i < BucketCount(range) => StoredBucket(range, data, Start(range, now, i)))
  }

  /** All shown buckets are in the retained days, so pruning takes nothing from them. */
  lemma {:induction false} ShownIsRetained(range: Range, now: int, i: int)
    requires 0 <= i < BucketCount(range)
    ensures Retained(Date(DayOf(Start(range, now, i))), DayOf(now))
  {
  }

  /** The stored buckets are the recounted ones, for every range and any calls. */
  lemma {:induction false} StoredIsRecounted(range: Range, now: int, calls: seq<Call>)
    ensures StoredSeries(range, now, Prune(Recorded(calls), DayOf(now))) == Series(range, now, calls)
  {
    var data := Prune(Recorded(calls), DayOf(now));
    forall i | 0 <= i < BucketCount(range)
      ensures StoredBucket(range, data, Start(range, now, i)) == BucketOf(range, now, calls, i)
    {
      var start := Start(range, now, i);
      ShownIsRetained(range, now, i);
      RecordedIsRecount(calls, start);
      assert DayAt(data, Date(DayOf(start))) == DayAt(Recorded(calls), Date(DayOf(start)));
    }
  }

  datatype Trend = Trend(total: seq<int>, success: seq<int>, failed: seq<int>, rateLimited: seq<int>,
                         models: map<Word, seq<int>>)

  function ModelCount(b: Bucket, w: Word): int {
    Count(b.tallies, Model(w))
  }

  predicate HasModel(b: Bucket, w: Word) {
    Model(w) in b.tallies
  }

  predicate AnyHasModel(series: seq<Bucket>, w: Word) {
    exists i :: 0 <= i < |series| && HasModel(series[i], w)
  }

  /** A model has a row if some bucket has counted it, with its count in every bucket. */
  predicate RowOf(rows: map<Word, seq<int>>, series: seq<Bucket>, w: Word) {
    && (w in rows <==> AnyHasModel(series, w))
    && (w in rows ==> |rows[w]| == |series| && forall i :: 0 <= i < |series| ==> rows[w][i] == ModelCount(series[i], w))
  }

  ghost predicate RowsOf(rows: map<Word, seq<int>>, series: seq<Bucket>) {
    forall w :: RowOf(rows, series, w)
  }

  function OtherFailures(b: Bucket): int {
    if b.failed < b.rateLimited then 0 else b.failed - b.rateLimited
  }

  /** The failed calls between two hours that are not rate-limited. */
  function FailingOtherwise(calls: seq<Call>, lo: int, hi: int): int {
    if calls == [] then 0
    else
      var before, c := FailingOtherwise(calls[..|calls| - 1], lo, hi), calls[|calls| - 1];
      var limited := c.errorCode == RateLimitedCode || c.errorCode == RateLimitCode || c.errorCode == Code429;
      if c.when.AtHour? && lo <= c.when.hour < hi && Fails(c) && !limited then before + 1 else before
  }

  /** A bucket of calls shows as failed those that failed without being rate-limited. */
  lemma {:induction false} FailedIsOtherwise(calls: seq<Call>, lo: int, hi: int)
    ensures OtherFailures(Between(calls, lo, hi)) == FailingOtherwise(calls, lo, hi)
  {
    if calls == [] {
    } else {
      var front := calls[..|calls| - 1];
      FailedIsOtherwise(front, lo, hi);
      LimitedAreFailed(front, lo, hi);
    }
  }

  /** The four counts shown for one bucket. */
  predicate CellOf(trend: Trend, b: Bucket, i: nat)
    requires i < |trend.total| == |trend.success| == |trend.failed| == |trend.rateLimited|
  {
    && trend.total[i] == b.total && trend.success[i] == b.success
    && trend.failed[i] == OtherFailures(b) && trend.rateLimited[i] == b.rateLimited
  }

  predicate CellsOf(trend: Trend, series: seq<Bucket>) {
    && |trend.total| == |trend.success| == |trend.failed| == |trend.rateLimited| == |series|
    && forall i :: 0 <= i < |series| ==> CellOf(trend, series[i], i)
  }

  /** A trend that shows the given buckets. */
  ghost predicate Shows(trend: Trend, series: seq<Bucket>) {
    CellsOf(trend, series) && RowsOf(trend.models, series)
  }

  lemma {:induction false} RowsOnce(a: map<Word, seq<int>>, b: map<Word, seq<int>>, series: seq<Bucket>)
    requires RowsOf(a, series) && RowsOf(b, series)
    ensures a == b
  {
    forall w ensures w in a <==> w in b {
      assert RowOf(a, series, w) && RowOf(b, series, w);
    }
    forall w | w in a ensures a[w] == b[w] {
      assert RowOf(a, series, w) && RowOf(b, series, w);
    }
  }

  /** A trend is determined by the buckets it shows. */
  lemma {:induction false} ShownOnce(a: Trend, b: Trend, series: seq<Bucket>)
    requires Shows(a, series) && Shows(b, series)
    ensures a == b
  {
    RowsOnce(a.models, b.models, series);
    forall i | 0 <= i < |series|
      ensures a.total[i] == b.total[i] && a.success[i] == b.success[i]
      ensures a.failed[i] == b.failed[i] && a.rateLimited[i] == b.rateLimited[i]
    {
      assert CellOf(a, series[i], i) && CellOf(b, series[i], i);
    }
    assert a.total == b.total && a.success == b.success;
    assert a.failed == b.failed && a.rateLimited == b.rateLimited;
  }

  lemma {:induction false} CountedModel(b: Bucket, c: Call, w: Word)
    ensures ModelCount(Counted(b, c), w) == ModelCount(b, w) + if c.isModel && c.model == w then 1 else 0
    ensures HasModel(Counted(b, c), w) <==> HasModel(b, w) || (c.isModel && c.model == w)
  {
  }

  /** One more call changes at most the bucket it falls into. */
  lemma {:induction false} SeriesStep(range: Range, now: int, calls: seq<Call>, c: Call)
    ensures var i, before := BucketIndex(range, now, c.when), Series(range, now, calls);
            Series(range, now, calls + [c]) == if i < 0 then before else before[i := Counted(before[i], c)]
  {
    assert (calls + [c])[..|calls|] == calls;
    forall i | 0 <= i < BucketCount(range)
      ensures BucketOf(range, now, calls + [c], i)
              == if BucketIndex(range, now, c.when) == i then Counted(BucketOf(range, now, calls, i), c)
                 else BucketOf(range, now, calls, i)
    {
      IndexIsSpan(range, now, c.when, i);
    }
  }

  function Zeros(n: nat): (zeros: seq<int>)
    ensures |zeros| == n && forall i :: 0 <= i < n ==> zeros[i] == 0
  {
    seq(n, _ => 0)
  }

  /** Adding to one place of a model's row, which starts as zeros. */
  function RowBump(rows: map<Word, seq<int>>, w: Word, n: nat, i: nat, more: int): map<Word, seq<int>>
    requires i < n && (w in rows ==> |rows[w]| == n)
  {
    var row := if w in rows then rows[w] else Zeros(n);
    rows[w := row[i := row[i] + more]]
  }

  lemma {:induction false} AnyStep(series: seq<Bucket>, i: nat, c: Call, w: Word)
    requires i < |series|
    ensures AnyHasModel(series[i := Counted(series[i], c)], w)
            <==> AnyHasModel(series, w) || (c.isModel && c.model == w)
  {
    var after := series[i := Counted(series[i], c)];
    CountedModel(series[i], c, w);
    if AnyHasModel(series, w) {
      var j :| 0 <= j < |series| && HasModel(series[j], w);
      assert HasModel(after[j], w);
    }
    if c.isModel && c.model == w {
      assert HasModel(after[i], w);
    }
    if AnyHasModel(after, w) {
      var j :| 0 <= j < |after| && HasModel(after[j], w);
      assert j != i ==> HasModel(series[j], w);
    }
  }

  lemma {:induction false} RowStep(rows: map<Word, seq<int>>, series: seq<Bucket>, i: nat, c: Call, w: Word)
    requires RowOf(rows, series, w) && i < |series|
    requires c.isModel ==> RowOf(rows, series, c.model)
    ensures RowOf(if c.isModel then RowBump(rows, c.model, |series|, i, 1) else rows,
                  series[i := Counted(series[i], c)], w)
  {
    AnyStep(series, i, c, w);
    CountedModel(series[i], c, w);
    if c.isModel && c.model == w && w !in rows {
      forall j | 0 <= j < |series| ensures ModelCount(series[j], w) == 0 {
        assert !HasModel(series[j], w);
      }
    }
  }

  lemma {:induction false} RowsStep(rows: map<Word, seq<int>>, series: seq<Bucket>, i: nat, c: Call)
    requires RowsOf(rows, series) && i < |series|
    ensures c.model in rows ==> |rows[c.model]| == |series|
    ensures RowsOf(if c.isModel then RowBump(rows, c.model, |series|, i, 1) else rows,
                   series[i := Counted(series[i], c)])
  {
    assert RowOf(rows, series, c.model);
    var rows' := if c.isModel then RowBump(rows, c.model, |series|, i, 1) else rows;
    var series' := series[i := Counted(series[i], c)];
    forall w ensures RowOf(rows', series', w) {
      assert RowOf(rows, series, w);
      RowStep(rows, series, i, c, w);
    }
  }

  lemma {:induction false} LimitedInSeries(range: Range, now: int, calls: seq<Call>)
    ensures forall i :: 0 <= i < BucketCount(range) ==>
              var b := BucketOf(range, now, calls, i); 0 <= b.rateLimited <= b.failed
  {
    forall i | 0 <= i < BucketCount(range)
      ensures var b := BucketOf(range, now, calls, i); 0 <= b.rateLimited <= b.failed
    {
      LimitedAreFailed(calls, Start(range, now, i), Start(range, now, i) + Length(range));
    }
  }

  /** One call counted into the lists at its bucket. */
  method CountCall(trend: Trend, i: nat, c: Call, ghost series: seq<Bucket>) returns (after: Trend)
    requires Shows(trend, series) && i < |series|
    requires series[i].rateLimited <= series[i].failed
    ensures Shows(after, series[i := Counted(series[i], c)])
  {
    var n := |trend.total|;
    RowsStep(trend.models, series, i, c);
    ghost var bucket := series[i];
    assert CellOf(trend, bucket, i);
    var (total, success, failed, limited) := (trend.total, trend.success, trend.failed, trend.rateLimited);
    total := total[i := total[i] + 1];
    if IsFailed(c) {
      if c.errorCode in {RateLimitedCode, RateLimitCode, Code429} {
        limited := limited[i := limited[i] + 1];
      } else {
        failed := failed[i := failed[i] + 1];
      }
    } else {
      success := success[i := success[i] + 1];
    }
    var models := if c.isModel then RowBump(trend.models, c.model, n, i, 1) else trend.models;
    after := Trend(total, success, failed, limited, models);
    assert CellOf(after, Counted(bucket, c), i);
    forall j | 0 <= j < |series| && j != i ensures CellOf(after, series[j], j) {
      assert CellOf(trend, series[j], j);
    }
  }

  /** A call as the batch recount takes it: by its own test for a model's label. */
  function InBatch(c: Call): Call {
    c.(isModel := c.isBatchModel)
  }

  function AllInBatch(calls: seq<Call>): seq<Call> {
    seq(|calls|, i requires 0 <= i < |calls| => InBatch(calls[i]))
  }

  /** The batch recount: one pass over the raw calls, counting into lists by bucket. */
  method BatchTrend(range: Range, now: int, calls: seq<Call>) returns (trend: Trend)
    ensures Shows(trend, Series(range, now, AllInBatch(calls)))
  {
    var n := BucketCount(range);
    ghost var batch := AllInBatch(calls);
    trend := Trend(Zeros(n), Zeros(n), Zeros(n), Zeros(n), map[]);
    NothingShown(trend, Series(range, now, []));
    assert batch[..0] == [];
    for j := 0 to |calls|
      invariant Shows(trend, Series(range, now, batch[..j]))
    {
      var i := BucketIndex(range, now, calls[j].when);
      assert batch[..j + 1] == batch[..j] + [InBatch(calls[j])];
      SeriesStep(range, now, batch[..j], InBatch(calls[j]));
      if i >= 0 {
        LimitedInSeries(range, now, batch[..j]);
        trend := CountCall(trend, i, InBatch(calls[j]), Series(range, now, batch[..j]));
      }
    }
    assert batch[..|calls|] == batch;
  }

  /** Whatever is a model for the counters is one for the batch recount. */
  predicate Labelled(calls: seq<Call>) {
    forall c :: c in calls && c.isModel ==> c.isBatchModel
  }

  /** A shown call whose label is a model's for the batch recount alone. */
  predicate OnlyInBatch(range: Range, now: int, c: Call) {
    BucketIndex(range, now, c.when) >= 0 && c.isBatchModel && !c.isModel
  }

  predicate Within(c: Call, lo: int, hi: int) {
    c.when.AtHour? && lo <= c.when.hour < hi
  }

  lemma {:induction false} BatchFront(calls: seq<Call>)
    requires calls != []
    ensures var n := |calls| - 1;
            AllInBatch(calls)[..n] == AllInBatch(calls[..n]) && AllInBatch(calls)[n] == InBatch(calls[n])
  {
  }

  /** In a span of hours the batch recount never counts a model less often, and more often where the tests differ. */
  lemma {:induction false} BatchCountsMore(calls: seq<Call>, lo: int, hi: int, w: Word)
    requires Labelled(calls)
    ensures ModelCount(Between(AllInBatch(calls), lo, hi), w) >= ModelCount(Between(calls, lo, hi), w)
    ensures (exists c :: c in calls && Within(c, lo, hi) && c.isBatchModel && !c.isModel && c.model == w)
            ==> HasModel(Between(AllInBatch(calls), lo, hi), w)
                && ModelCount(Between(AllInBatch(calls), lo, hi), w) > ModelCount(Between(calls, lo, hi), w)
  {
    if calls == [] {
    } else {
      var front, last := calls[..|calls| - 1], calls[|calls| - 1];
      assert calls == front + [last];
      BatchFront(calls);
      BatchCountsMore(front, lo, hi, w);
      CountedModel(Between(front, lo, hi), last, w);
      CountedModel(Between(AllInBatch(front), lo, hi), InBatch(last), w);
    }
  }

  lemma {:induction false} BatchCountsSame(calls: seq<Call>, lo: int, hi: int)
    requires forall c :: c in calls && Within(c, lo, hi) ==> c.isBatchModel == c.isModel
    ensures Between(AllInBatch(calls), lo, hi) == Between(calls, lo, hi)
  {
    if calls == [] {
    } else {
      var front, last := calls[..|calls| - 1], calls[|calls| - 1];
      assert calls == front + [last];
      BatchFront(calls);
      BatchCountsSame(front, lo, hi);
      assert Within(last, lo, hi) ==> InBatch(last) == last;
    }
  }

  lemma {:induction false} SeriesSame(range: Range, now: int, calls: seq<Call>)
    requires Labelled(calls) && forall c :: c in calls ==> !OnlyInBatch(range, now, c)
    ensures Series(range, now, AllInBatch(calls)) == Series(range, now, calls)
  {
    forall i | 0 <= i < BucketCount(range)
      ensures BucketOf(range, now, AllInBatch(calls), i) == BucketOf(range, now, calls, i)
    {
      forall c | c in calls && Within(c, Start(range, now, i), Start(range, now, i) + Length(range))
        ensures c.isBatchModel == c.isModel
      {
        IndexIsSpan(range, now, c.when, i);
      }
      BatchCountsSame(calls, Start(range, now, i), Start(range, now, i) + Length(range));
    }
  }

  lemma {:induction false} RowsDiffer(range: Range, now: int, calls: seq<Call>, c: Call, a: Trend, b: Trend)
    requires Labelled(calls) && c in calls && OnlyInBatch(range, now, c)
    requires Shows(a, Series(range, now, calls)) && Shows(b, Series(range, now, AllInBatch(calls)))
    ensures a != b
  {
    var i, w := BucketIndex(range, now, c.when), c.model;
    IndexIsSpan(range, now, c.when, i);
    BatchCountsMore(calls, Start(range, now, i), Start(range, now, i) + Length(range), w);
    assert RowOf(a.models, Series(range, now, calls), w);
    assert RowOf(b.models, Series(range, now, AllInBatch(calls)), w);
    assert HasModel(Series(range, now, AllInBatch(calls))[i], w);
  }

  /** Counting the same calls, the two trends differ exactly if a shown label passes the batch test alone. */
  lemma {:induction false} LabelsDecide(range: Range, now: int, calls: seq<Call>, shown: Trend, recount: Trend)
    requires Labelled(calls)
    requires Shows(shown, Series(range, now, calls)) && Shows(recount, Series(range, now, AllInBatch(calls)))
    ensures shown == recount <==> forall c :: c in calls ==> !OnlyInBatch(range, now, c)
  {
    if forall c :: c in calls ==> !OnlyInBatch(range, now, c) {
      SeriesSame(range, now, calls);
      ShownOnce(shown, recount, Series(range, now, calls));
    } else {
      var c :| c in calls && OnlyInBatch(range, now, c);
      RowsDiffer(range, now, calls, c, shown, recount);
    }
  }

  lemma {:induction false} NothingShown(trend: Trend, series: seq<Bucket>)
    requires trend == Trend(Zeros(|series|), Zeros(|series|), Zeros(|series|), Zeros(|series|), map[])
    requires forall i :: 0 <= i < |series| ==> series[i] == EMPTY
    ensures Shows(trend, series)
  {
    forall i | 0 <= i < |series| ensures CellOf(trend, series[i], i) {}
    forall w ensures RowOf(trend.models, series, w) {
      assert forall i :: 0 <= i < |series| ==> !HasModel(series[i], w);
    }
  }

  /** The count over a whole range; the batch code counts all calls, whenever they were. */
  lemma {:induction false} TotalsAgree(calls: seq<Call>, lo: int, hi: int)
    ensures Between(calls, lo, hi).total <= |calls|
    ensures Between(calls, lo, hi).total == |calls|
            <==> forall j :: 0 <= j < |calls| ==> calls[j].when.AtHour? && lo <= calls[j].when.hour < hi
  {
    if calls == [] {
    } else {
      TotalsAgree(calls[..|calls| - 1], lo, hi);
    }
  }
}
