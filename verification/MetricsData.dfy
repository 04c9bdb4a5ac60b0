/**
 The dashboard's counters: buckets per day and per hour, how they merge, how they are pruned,
 and what one call adds to them.
 */
module MetricsData {

  /** The texts the counters tell apart by value; all others are only compared. */
  datatype Word = Blank | FailedWord | ErrorWord | FailWord | RateLimitedCode | RateLimitCode | Code429 | Other(n: nat)

  /** The named counters of a bucket: one kind for each of its six dictionaries. */
  datatype Tally = Endpoint(w: Word) | Model(w: Word) | StatusText(w: Word) | ErrorCode(w: Word)
                 | ModelTime(w: Word) | ModelTimed(w: Word)

  type Tallies = map<Tally, int>

  datatype Bucket = Bucket(total: int, success: int, failed: int, rateLimited: int, tallies: Tallies)

  const EMPTY := Bucket(0, 0, 0, 0, map[])

  function Count(m: Tallies, k: Tally): int {
    if k in m then m[k] else 0
  }

  function AddTallies(a: Tallies, b: Tallies): Tallies {
    map k | k in a.Keys + b.Keys :: Count(a, k) + Count(b, k)
  }

  function Add(a: Bucket, b: Bucket): Bucket {
    Bucket(a.total + b.total, a.success + b.success, a.failed + b.failed, a.rateLimited + b.rateLimited,
           AddTallies(a.tallies, b.tallies))
  }

  type Hours = map<int, Bucket>

  /** A day's bucket and the buckets of its hours. */
  datatype Day = Day(bucket: Bucket, hours: Hours)

  function HourAt(hours: Hours, h: int): Bucket {
    if h in hours then hours[h] else EMPTY
  }

  function AddHours(a: Hours, b: Hours): Hours {
    map h | h in a.Keys + b.Keys :: Add(HourAt(a, h), HourAt(b, h))
  }

  function AddDay(a: Day, b: Day): Day {
    Day(Add(a.bucket, b.bucket), AddHours(a.hours, b.hours))
  }

  /** A key that is a calendar day, counted from some first day, or a key that is none. */
  datatype DayKey = Date(number: int) | Unreadable(text: nat)

  type Metrics = map<DayKey, Day>

  const NO_DAY := Day(EMPTY, map[])

  function DayAt(m: Metrics, k: DayKey): Day {
    if k in m then m[k] else NO_DAY
  }

  function Merge(a: Metrics, b: Metrics): Metrics {
    map k | k in a.Keys + b.Keys :: AddDay(DayAt(a, k), DayAt(b, k))
  }

  lemma {:induction false} TalliesCommute(a: Tallies, b: Tallies)
    ensures AddTallies(a, b) == AddTallies(b, a)
  {
    assert AddTallies(a, b).Keys == AddTallies(b, a).Keys;
  }

  lemma {:induction false} TalliesAssociate(a: Tallies, b: Tallies, c: Tallies)
    ensures AddTallies(AddTallies(a, b), c) == AddTallies(a, AddTallies(b, c))
  {
    var left, right := AddTallies(AddTallies(a, b), c), AddTallies(a, AddTallies(b, c));
    assert left.Keys == right.Keys;
    forall k | k in left ensures left[k] == right[k] {
      CountOfSum(a, b, k);
      CountOfSum(b, c, k);
    }
  }

  lemma {:induction false} CountOfSum(a: Tallies, b: Tallies, k: Tally)
    ensures Count(AddTallies(a, b), k) == Count(a, k) + Count(b, k)
  {
  }

  lemma {:induction false} TalliesUnit(a: Tallies)
    ensures AddTallies(a, map[]) == a == AddTallies(map[], a)
  {
    assert AddTallies(a, map[]).Keys == a.Keys == AddTallies(map[], a).Keys;
  }

  lemma {:induction false} BucketAlgebra(a: Bucket, b: Bucket, c: Bucket)
    ensures Add(a, b) == Add(b, a)
    ensures Add(Add(a, b), c) == Add(a, Add(b, c))
    ensures Add(a, EMPTY) == a
  {
    TalliesCommute(a.tallies, b.tallies);
    TalliesAssociate(a.tallies, b.tallies, c.tallies);
    TalliesUnit(a.tallies);
  }

  lemma {:induction false} HoursCommute(a: Hours, b: Hours)
    ensures AddHours(a, b) == AddHours(b, a)
  {
    var left, right := AddHours(a, b), AddHours(b, a);
    assert left.Keys == right.Keys;
    forall h | h in left ensures left[h] == right[h] {
      BucketAlgebra(HourAt(a, h), HourAt(b, h), EMPTY);
    }
  }

  lemma {:induction false} HoursUnit(a: Hours)
    ensures AddHours(a, map[]) == a
  {
    var left := AddHours(a, map[]);
    assert left.Keys == a.Keys;
    forall h | h in a ensures left[h] == a[h] {
      BucketAlgebra(a[h], EMPTY, EMPTY);
    }
  }

  lemma {:induction false} HourOfSum(a: Hours, b: Hours, h: int)
    ensures HourAt(AddHours(a, b), h) == Add(HourAt(a, h), HourAt(b, h))
  {
    BucketAlgebra(EMPTY, EMPTY, EMPTY);
  }

  lemma {:induction false} SameHours(a: Hours, b: Hours)
    requires a.Keys == b.Keys && forall h :: h in a.Keys ==> HourAt(a, h) == HourAt(b, h)
    ensures a == b
  {
    forall h | h in a ensures a[h] == b[h] {
      assert HourAt(a, h) == HourAt(b, h);
    }
  }

  lemma {:induction false} HoursAssociate(a: Hours, b: Hours, c: Hours)
    ensures AddHours(AddHours(a, b), c) == AddHours(a, AddHours(b, c))
  {
    var left, right := AddHours(AddHours(a, b), c), AddHours(a, AddHours(b, c));
    assert left.Keys == right.Keys;
    forall h | h in left.Keys ensures HourAt(left, h) == HourAt(right, h) {
      HourOfSum(a, b, h);
      HourOfSum(b, c, h);
      HourOfSum(AddHours(a, b), c, h);
      HourOfSum(a, AddHours(b, c), h);
      BucketAlgebra(HourAt(a, h), HourAt(b, h), HourAt(c, h));
    }
    SameHours(left, right);
  }

  lemma {:induction false} DayAlgebra(a: Day, b: Day, c: Day)
    ensures AddDay(a, b) == AddDay(b, a)
    ensures AddDay(AddDay(a, b), c) == AddDay(a, AddDay(b, c))
    ensures AddDay(a, NO_DAY) == a == AddDay(NO_DAY, a)
  {
    BucketAlgebra(a.bucket, b.bucket, c.bucket);
    BucketAlgebra(EMPTY, a.bucket, EMPTY);
    HoursCommute(a.hours, b.hours);
    HoursCommute(a.hours, map[]);
    HoursUnit(a.hours);
    HoursAssociate(a.hours, b.hours, c.hours);
  }

  lemma {:induction false} DayOfSum(a: Metrics, b: Metrics, k: DayKey)
    ensures DayAt(Merge(a, b), k) == AddDay(DayAt(a, k), DayAt(b, k))
  {
    DayAlgebra(NO_DAY, NO_DAY, NO_DAY);
  }

  lemma {:induction false} SameDays(a: Metrics, b: Metrics)
    requires a.Keys == b.Keys && forall k :: k in a.Keys ==> DayAt(a, k) == DayAt(b, k)
    ensures a == b
  {
    forall k | k in a ensures a[k] == b[k] {
      assert DayAt(a, k) == DayAt(b, k);
    }
  }

  lemma {:induction false} MergeCommutes(a: Metrics, b: Metrics)
    ensures Merge(a, b) == Merge(b, a)
  {
    var left, right := Merge(a, b), Merge(b, a);
    assert left.Keys == right.Keys;
    forall k | k in left ensures left[k] == right[k] {
      DayAlgebra(DayAt(a, k), DayAt(b, k), NO_DAY);
    }
  }

  lemma {:induction false} MergeAssociates(a: Metrics, b: Metrics, c: Metrics)
    ensures Merge(Merge(a, b), c) == Merge(a, Merge(b, c))
  {
    var left, right := Merge(Merge(a, b), c), Merge(a, Merge(b, c));
    assert left.Keys == right.Keys;
    forall k | k in left ensures DayAt(left, k) == DayAt(right, k) {
      DayOfSum(a, b, k);
      DayOfSum(b, c, k);
      DayOfSum(Merge(a, b), c, k);
      DayOfSum(a, Merge(b, c), k);
      DayAlgebra(DayAt(a, k), DayAt(b, k), DayAt(c, k));
    }
    SameDays(left, right);
  }

  lemma {:induction false} MergeUnit(a: Metrics)
    ensures Merge(a, map[]) == a == Merge(map[], a)
  {
    MergeCommutes(a, map[]);
    assert Merge(a, map[]).Keys == a.Keys;
    forall k | k in a ensures Merge(a, map[])[k] == a[k] {
      DayAlgebra(a[k], NO_DAY, NO_DAY);
    }
  }

  const RETENTION_DAYS := 30

  predicate Retained(k: DayKey, today: int) {
    k.Date? && today - (RETENTION_DAYS - 1) <= k.number <= today
  }

  /** Today and the 29 days before it. */
  lemma ThirtyDays(k: DayKey, today: int)
    ensures Retained(k, today) <==> k.Date? && 0 <= today - k.number < 30
  {
  }

  function Prune(m: Metrics, today: int): Metrics {
    map k | k in m && Retained(k, today) :: m[k]
  }

  lemma {:induction false} PruneMerge(a: Metrics, b: Metrics, today: int)
    ensures Prune(Merge(a, b), today) == Merge(Prune(a, today), Prune(b, today))
  {
  }

  /** A day that is in the window now but was in the future when the data was pruned first. */
  predicate EarlyDay(m: Metrics, k: DayKey, early: int, late: int) {
    k in m && k.Date? && early < k.number && Retained(k, late)
  }

  /** An earlier pruning makes no difference to a later one exactly if no day was in the future then. */
  lemma {:induction false} PruneTwice(m: Metrics, early: int, late: int)
    requires early <= late
    ensures Prune(Prune(m, early), late) == Prune(m, late) <==> forall k :: !EarlyDay(m, k, early, late)
  {
    var twice, once := Prune(Prune(m, early), late), Prune(m, late);
    forall k | EarlyDay(m, k, early, late) ensures twice != once {
      assert k in once && k !in twice;
    }
    if forall k :: !EarlyDay(m, k, early, late) {
      forall k | k in once ensures k in twice {
        assert !EarlyDay(m, k, early, late);
      }
      assert twice.Keys == once.Keys;
    }
  }

  datatype When = NoTime | AtHour(hour: int)

  datatype Duration = Missing | NotANumber | Millis(ms: int)

  /**
   What the counters read of a logged call. `isPath` is the test for an endpoint; `isModel` and
   `isBatchModel` are the tests for a model's label in the counters and in the batch recount.
   */
  datatype Call = Call(when: When, status: Word, hasError: bool, errorCode: Word, endpoint: Word, isPath: bool,
                       model: Word, isModel: bool, isBatchModel: bool, duration: Duration)

  predicate IsFailed(c: Call) {
    c.status in {FailedWord, ErrorWord, FailWord} || c.hasError
  }

  predicate IsRateLimited(c: Call) {
    IsFailed(c) && c.errorCode in {RateLimitedCode, RateLimitCode, Code429}
  }

  function Bump(m: Tallies, k: Tally, n: int): Tallies {
    m[k := Count(m, k) + n]
  }

  function BumpIf(m: Tallies, test: bool, k: Tally, n: int): Tallies {
    if test then Bump(m, k, n) else m
  }

  /** A missing duration counts as one of no length, an unreadable one not at all. */
  predicate Timed(c: Call) {
    c.isModel && !c.duration.NotANumber?
  }

  function Length(c: Call): int {
    if c.duration.Millis? && c.duration.ms > 0 then c.duration.ms else 0
  }

  function Tallied(m: Tallies, c: Call): Tallies {
    var m1 := BumpIf(m, c.status != Blank, StatusText(c.status), 1);
    var m2 := BumpIf(m1, c.isPath, Endpoint(c.endpoint), 1);
    var m3 := BumpIf(m2, c.isModel, Model(c.model), 1);
    var m4 := BumpIf(m3, Timed(c), ModelTime(c.model), Length(c));
    var m5 := BumpIf(m4, Timed(c), ModelTimed(c.model), 1);
    BumpIf(m5, c.errorCode != Blank, ErrorCode(c.errorCode), 1)
  }

  /** A call counted into a bucket. */
  function Counted(b: Bucket, c: Call): Bucket {
    Bucket(b.total + 1,
           if IsFailed(c) then b.success else b.success + 1,
           if IsFailed(c) then b.failed + 1 else b.failed,
           if IsRateLimited(c) then b.rateLimited + 1 else b.rateLimited,
           Tallied(b.tallies, c))
  }

  /** The call is one of the failed. */
  predicate Fails(c: Call) {
    c.status == FailedWord || c.status == ErrorWord || c.status == FailWord || c.hasError
  }

  /** What one call adds to each of the plain counters. */
  lemma {:induction false} OneCallCounts(b: Bucket, c: Call)
    ensures var limited := c.errorCode == RateLimitedCode || c.errorCode == RateLimitCode || c.errorCode == Code429;
            var after := Counted(b, c);
            && after.total - b.total == 1
            && after.success - b.success == (if Fails(c) then 0 else 1)
            && after.failed - b.failed == (if Fails(c) then 1 else 0)
            && after.rateLimited - b.rateLimited == if Fails(c) && limited then 1 else 0
  {
  }

  /**
   What one call adds to each of the named counters. A model's time grows by the duration, if it is positive, and
   its count of timed calls by one, unless the duration is unreadable.
   */
  lemma {:induction false} OneCallTallies(b: Bucket, c: Call, k: Tally)
    ensures Count(Counted(b, c).tallies, k) - Count(b.tallies, k)
         == match k
            case StatusText(w) => (if w == c.status && w != Blank then 1 else 0)
            case Endpoint(w) => (if w == c.endpoint && c.isPath then 1 else 0)
            case Model(w) => (if w == c.model && c.isModel then 1 else 0)
            case ErrorCode(w) => (if w == c.errorCode && w != Blank then 1 else 0)
            case ModelTimed(w) => (if w == c.model && c.isModel && c.duration != NotANumber then 1 else 0)
            case ModelTime(w) =>
              (if w == c.model && c.isModel && c.duration.Millis? && c.duration.ms >= 0 then c.duration.ms else 0)
  {
  }

  lemma {:induction false} BumpAdds(a: Tallies, b: Tallies, test: bool, k: Tally, n: int)
    ensures AddTallies(a, BumpIf(b, test, k, n)) == BumpIf(AddTallies(a, b), test, k, n)
  {
  }

  lemma {:induction false} TalliedAdds(a: Tallies, b: Tallies, c: Call)
    ensures AddTallies(a, Tallied(b, c)) == Tallied(AddTallies(a, b), c)
  {
    var m1 := BumpIf(b, c.status != Blank, StatusText(c.status), 1);
    var m2 := BumpIf(m1, c.isPath, Endpoint(c.endpoint), 1);
    var m3 := BumpIf(m2, c.isModel, Model(c.model), 1);
    var m4 := BumpIf(m3, Timed(c), ModelTime(c.model), Length(c));
    var m5 := BumpIf(m4, Timed(c), ModelTimed(c.model), 1);
    BumpAdds(a, b, c.status != Blank, StatusText(c.status), 1);
    BumpAdds(a, m1, c.isPath, Endpoint(c.endpoint), 1);
    BumpAdds(a, m2, c.isModel, Model(c.model), 1);
    BumpAdds(a, m3, Timed(c), ModelTime(c.model), Length(c));
    BumpAdds(a, m4, Timed(c), ModelTimed(c.model), 1);
    BumpAdds(a, m5, c.errorCode != Blank, ErrorCode(c.errorCode), 1);
  }

  function One(c: Call): Bucket {
    Counted(EMPTY, c)
  }

  /** Counting a call in place is adding the bucket of that call alone. */
  lemma {:induction false} CountedIsAdded(b: Bucket, c: Call)
    ensures Counted(b, c) == Add(b, One(c))
  {
    TalliedAdds(b.tallies, map[], c);
    TalliesUnit(b.tallies);
  }

  function DayOf(hour: int): int {
    hour / 24
  }

  function HourOf(hour: int): int {
    hour % 24
  }

  /** An hour is that of its day, from 0 to 23. */
  lemma HoursOfDays(hour: int)
    ensures 0 <= HourOf(hour) <= 23 && hour == 24 * DayOf(hour) + HourOf(hour)
  {
  }

  /** A call counted into its day and into the hour of that day. */
  function Applied(m: Metrics, c: Call): Metrics {
    if c.when.NoTime? then m
    else
      var k, h := Date(DayOf(c.when.hour)), HourOf(c.when.hour);
      var day := DayAt(m, k);
      m[k := Day(Counted(day.bucket, c), day.hours[h := Counted(HourAt(day.hours, h), c)])]
  }

  function Alone(c: Call): Metrics {
    Applied(map[], c)
  }

  lemma {:induction false} HourCounted(hours: Hours, h: int, c: Call)
    ensures AddHours(hours, map[h := One(c)]) == hours[h := Counted(HourAt(hours, h), c)]
  {
    var left, right := AddHours(hours, map[h := One(c)]), hours[h := Counted(HourAt(hours, h), c)];
    assert left.Keys == right.Keys;
    forall g | g in left ensures left[g] == right[g] {
      CountedIsAdded(HourAt(hours, g), c);
      BucketAlgebra(HourAt(hours, g), EMPTY, EMPTY);
    }
  }

  lemma {:induction false} AppliedIsMerged(m: Metrics, c: Call)
    ensures Applied(m, c) == Merge(m, Alone(c))
  {
    if c.when.NoTime? {
      MergeUnit(m);
    } else {
      var k, h := Date(DayOf(c.when.hour)), HourOf(c.when.hour);
      var day := DayAt(m, k);
      CountedIsAdded(day.bucket, c);
      HourCounted(day.hours, h, c);
      assert Alone(c) == map[k := Day(One(c), map[h := One(c)])];
      var left, right := Applied(m, c), Merge(m, Alone(c));
      assert left.Keys == right.Keys;
      forall j | j in left ensures left[j] == right[j] {
        DayAlgebra(DayAt(m, j), NO_DAY, NO_DAY);
      }
    }
  }

  /** All calls counted into empty data. */
  function Recorded(calls: seq<Call>): Metrics {
    if calls == [] then map[] else Applied(Recorded(calls[..|calls| - 1]), calls[|calls| - 1])
  }

  /** The calls of the hours from `lo` up to but not including `hi`, counted into one bucket. */
  function Between(calls: seq<Call>, lo: int, hi: int): Bucket {
    if calls == [] then EMPTY
    else
      var before, c := Between(calls[..|calls| - 1], lo, hi), calls[|calls| - 1];
      if c.when.AtHour? && lo <= c.when.hour < hi then Counted(before, c) else before
  }

  /** The day buckets and the hour buckets are what a recount of the raw calls gives. */
  lemma {:induction false} RecordedIsRecount(calls: seq<Call>, hour: int)
    ensures var day := DayAt(Recorded(calls), Date(DayOf(hour)));
            && day.bucket == Between(calls, 24 * DayOf(hour), 24 * DayOf(hour) + 24)
            && HourAt(day.hours, HourOf(hour)) == Between(calls, hour, hour + 1)
  {
    if calls == [] {
    } else {
      RecordedIsRecount(calls[..|calls| - 1], hour);
    }
  }

  /** Adjoining spans add up; in particular a day's bucket is the sum of its hours'. */
  lemma {:induction false} SpansAdd(calls: seq<Call>, lo: int, mid: int, hi: int)
    requires lo <= mid <= hi
    ensures Between(calls, lo, hi) == Add(Between(calls, lo, mid), Between(calls, mid, hi))
  {
    if calls == [] {
      BucketAlgebra(EMPTY, EMPTY, EMPTY);
    } else {
      var rest, c := calls[..|calls| - 1], calls[|calls| - 1];
      SpansAdd(rest, lo, mid, hi);
      var a, b := Between(rest, lo, mid), Between(rest, mid, hi);
      CountedIsAdded(Add(a, b), c);
      CountedIsAdded(a, c);
      CountedIsAdded(b, c);
      BucketAlgebra(a, b, One(c));
      BucketAlgebra(a, One(c), b);
      BucketAlgebra(b, One(c), EMPTY);
    }
  }

  /** Rate-limited calls are failed ones, and every call is either failed or a success. */
  lemma {:induction false} LimitedAreFailed(calls: seq<Call>, lo: int, hi: int)
    ensures var b := Between(calls, lo, hi);
            0 <= b.rateLimited <= b.failed && 0 <= b.success && b.total == b.success + b.failed
  {
    if calls == [] {
    } else {
      LimitedAreFailed(calls[..|calls| - 1], lo, hi);
    }
  }
}
