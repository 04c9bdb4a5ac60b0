/**
 When a run of the processes loses a call: a save drops every day after its own, and a day that was dropped
 while it lay in the future is missed once it has come.
 */
module MetricsLoss {

  import opened MetricsData
  import opened MetricsRuns

  /** Two data that agree about one day. */
  predicate SameAt(a: Metrics, b: Metrics, k: DayKey) {
    (k in a <==> k in b) && DayAt(a, k) == DayAt(b, k)
  }

  function TotalAt(m: Metrics, k: DayKey): int {
    DayAt(m, k).bucket.total
  }

  lemma {:induction false} KeyOfSum(a: Metrics, b: Metrics, k: DayKey)
    ensures k in Merge(a, b) <==> k in a || k in b
  {
  }

  lemma {:induction false} SameMerges(a: Metrics, b: Metrics, c: Metrics, k: DayKey)
    requires SameAt(a, b, k)
    ensures SameAt(Merge(a, c), Merge(b, c), k)
  {
    DayOfSum(a, c, k);
    DayOfSum(b, c, k);
    KeyOfSum(a, c, k);
    KeyOfSum(b, c, k);
  }

  lemma {:induction false} TotalOfSum(a: Metrics, b: Metrics, k: DayKey)
    ensures TotalAt(Merge(a, b), k) == TotalAt(a, k) + TotalAt(b, k)
  {
  }

  /** Whether a step saves what it has, pruned. */
  predicate Writes(p: Process, op: Op) {
    match op
    case Flush(saved) => p.dirty && saved
    case Backfill(_) => p.pending == map[]
    case _ => false
  }

  /** What the file, the process and the step have together. */
  function Whole(s: State, i: nat, op: Op, today: int): Metrics
    requires i < |s.processes|
  {
    Merge(Merge(s.file, s.processes[i].pending), Recorded(NewCalls(s, i, op, today)))
  }

  lemma {:induction false} BackfillWrites(file: Metrics, p: Process, items: seq<Call>, today: int)
    requires p.pending == map[]
    ensures var more := if Takes(file, p, today) then Recorded(Reverse(items)) else map[];
            AfterBackfill(file, p, items, today) == (Prune(Merge(Merge(file, p.pending), more), today), p)
  {
    MergeUnit(file);
    if Takes(file, p, today) {
      var more := Recorded(Reverse(items));
      PruneMerge(file, more, today);
      MergeUnit(Prune(more, today));
    }
  }

  /** A step keeps all that there was and is new, but for what a save prunes. */
  lemma {:induction false} StepWrites(s: State, i: nat, op: Op, today: int)
    requires i < |s.processes|
    ensures var (file, p) := After(s.file, s.processes[i], op, today);
            var whole := Whole(s, i, op, today);
            Merge(file, p.pending) == if Writes(s.processes[i], op) then Prune(whole, today) else whole
  {
    var file, p := s.file, s.processes[i];
    var whole := Whole(s, i, op, today);
    MergeUnit(Merge(file, p.pending));
    MergeUnit(Prune(whole, today));
    match op {
      case Record(call) =>
        assert [call][..0] == [];
        assert Recorded([call]) == Alone(call);
        if call.when.AtHour? {
          AppliedIsMerged(p.pending, call);
          MergeAssociates(file, p.pending, Alone(call));
        }
      case Flush(saved) =>
      case Backfill(items) =>
        if p.pending == map[] {
          BackfillWrites(file, p, items, today);
        }
      case Summary =>
    }
  }

  /** A save drops the day `k`, which lies in its future. */
  predicate DroppedAt(s: State, e: Event, k: DayKey)
    requires e.process < |s.processes|
  {
    Writes(s.processes[e.process], e.op) && k in Whole(s, e.process, e.op, e.today) && k.Date? && e.today < k.number
  }

  predicate LostAt(s: State, events: seq<Event>, k: DayKey)
    requires Known(events, |s.processes|)
  {
    events != [] &&
    var front, e := events[..|events| - 1], events[|events| - 1];
    LostAt(s, front, k) || DroppedAt(Run(s, front), e, k)
  }

  /** Days only go forward; calls may be dated as they like. */
  predicate Forward(events: seq<Event>, processes: nat, from: int) {
    events == [] ||
    var front, e := events[..|events| - 1], events[|events| - 1];
    Forward(front, processes, from) && LastDay(front, from) <= e.today && e.process < processes
  }

  lemma {:induction false} ForwardIsKnown(events: seq<Event>, processes: nat, from: int)
    requires Forward(events, processes, from)
    ensures Known(events, processes) && from <= LastDay(events, from)
  {
    if events == [] {
    } else {
      ForwardIsKnown(events[..|events| - 1], processes, from);
    }
  }

  /** One day's step: nothing of it changes but by the new calls, or it is dropped from the file and from the process. */
  lemma {:induction false} DayStep(s: State, e: Event, k: DayKey, today: int)
    requires e.process < |s.processes| && Retained(k, today) && e.today <= today
    ensures var others := AllPending(s.processes[e.process := IDLE]);
            var whole, next := Whole(s, e.process, e.op, e.today), Next(s, e.process, e.op, e.today);
            SameAt(Everything(next), if DroppedAt(s, e, k) then others else Merge(whole, others), k)
  {
    var i := e.process;
    var others, whole := AllPending(s.processes[i := IDLE]), Whole(s, i, e.op, e.today);
    var next := Next(s, i, e.op, e.today);
    var mine := Merge(next.file, next.processes[i].pending);
    StepWrites(s, i, e.op, e.today);
    SeenFrom(next, i);
    assert next.processes[i := IDLE] == s.processes[i := IDLE];
    if DroppedAt(s, e, k) {
      assert k !in mine;
      assert SameAt(mine, map[], k);
      SameMerges(mine, map[], others, k);
      MergeUnit(others);
    } else {
      assert SameAt(mine, whole, k);
      SameMerges(mine, whole, others, k);
    }
  }

  lemma {:induction false} WholeSeen(s: State, i: nat, op: Op, today: int)
    requires i < |s.processes|
    ensures Merge(Whole(s, i, op, today), AllPending(s.processes[i := IDLE]))
            == Merge(Everything(s), Recorded(NewCalls(s, i, op, today)))
  {
    SeenFrom(s, i);
    MergeSwaps(Merge(s.file, s.processes[i].pending), Recorded(NewCalls(s, i, op, today)),
               AllPending(s.processes[i := IDLE]));
  }

  /** Every day that is there has a call. */
  predicate CountedAt(m: Metrics, k: DayKey) {
    k in m ==> m[k].bucket.total >= 1
  }

  predicate AllCountedAt(s: State, k: DayKey) {
    CountedAt(s.file, k) && forall i :: 0 <= i < |s.processes| ==> CountedAt(s.processes[i].pending, k)
  }

  lemma {:induction false} CountedMerges(a: Metrics, b: Metrics, k: DayKey)
    requires CountedAt(a, k) && CountedAt(b, k)
    ensures CountedAt(Merge(a, b), k)
  {
    TotalOfSum(a, b, k);
  }

  lemma {:induction false} RecordedIsCounted(calls: seq<Call>, k: DayKey)
    ensures CountedAt(Recorded(calls), k)
  {
    if calls == [] {
    } else {
      RecordedIsCounted(calls[..|calls| - 1], k);
    }
  }

  lemma {:induction false} WholeIsCounted(s: State, e: Event, k: DayKey)
    requires e.process < |s.processes| && AllCountedAt(s, k)
    ensures CountedAt(Whole(s, e.process, e.op, e.today), k)
  {
    var p := s.processes[e.process];
    CountedMerges(s.file, p.pending, k);
    RecordedIsCounted(NewCalls(s, e.process, e.op, e.today), k);
    CountedMerges(Merge(s.file, p.pending), Recorded(NewCalls(s, e.process, e.op, e.today)), k);
  }

  lemma {:induction false} AfterIsCounted(file: Metrics, p: Process, op: Op, today: int, k: DayKey)
    requires CountedAt(file, k) && CountedAt(p.pending, k)
    ensures CountedAt(After(file, p, op, today).0, k) && CountedAt(After(file, p, op, today).1.pending, k)
  {
    CountedMerges(file, p.pending, k);
    match op {
      case Record(call) => AppliedIsCounted(p.pending, call, k);
      case Flush(_) =>
      case Backfill(items) => RecordedIsCounted(Reverse(items), k);
      case Summary =>
    }
  }

  lemma {:induction false} AppliedIsCounted(m: Metrics, c: Call, k: DayKey)
    requires CountedAt(m, k)
    ensures CountedAt(Applied(m, c), k)
  {
  }

  lemma {:induction false} StepKeepsCounted(s: State, e: Event, k: DayKey)
    requires e.process < |s.processes| && AllCountedAt(s, k)
    ensures AllCountedAt(Next(s, e.process, e.op, e.today), k)
  {
    AfterIsCounted(s.file, s.processes[e.process], e.op, e.today, k);
  }

  lemma {:induction false} RunKeepsCounted(s: State, events: seq<Event>, k: DayKey)
    requires Known(events, |s.processes|) && AllCountedAt(s, k)
    ensures AllCountedAt(Run(s, events), k)
  {
    if events == [] {
    } else {
      RunKeepsCounted(s, events[..|events| - 1], k);
      StepKeepsCounted(Run(s, events[..|events| - 1]), events[|events| - 1], k);
    }
  }

  /** What there was at first and every call of the run. */
  function CountOf(s: State, events: seq<Event>): Metrics
    requires Known(events, |s.processes|)
  {
    Merge(Everything(s), Recorded(CallsOf(s, events)))
  }

  lemma {:induction false} CountGrows(s: State, events: seq<Event>)
    requires Known(events, |s.processes|) && events != []
    ensures var front, e := events[..|events| - 1], events[|events| - 1];
            CountOf(s, events)
            == Merge(CountOf(s, front), Recorded(NewCalls(Run(s, front), e.process, e.op, e.today)))
  {
    var front, e := events[..|events| - 1], events[|events| - 1];
    var more := NewCalls(Run(s, front), e.process, e.op, e.today);
    RecordedAppend(CallsOf(s, front), more);
    MergeAssociates(Everything(s), Recorded(CallsOf(s, front)), Recorded(more));
  }

  /** One day over a run: while it is not dropped it is complete, and once it was it never is again. */
  lemma {:induction false} DayOverRun(s: State, events: seq<Event>, from: int, k: DayKey, today: int)
    requires Forward(events, |s.processes|, from) && LastDay(events, from) <= today && Retained(k, today)
    requires k.number > from ==> AllCountedAt(s, k)
    ensures Known(events, |s.processes|)
    ensures !LostAt(s, events, k) ==> SameAt(Everything(Run(s, events)), CountOf(s, events), k)
    ensures LostAt(s, events, k) ==> TotalAt(Everything(Run(s, events)), k) < TotalAt(CountOf(s, events), k)
  {
    ForwardIsKnown(events, |s.processes|, from);
    if events == [] {
      MergeUnit(Everything(s));
    } else {
      var front, e := events[..|events| - 1], events[|events| - 1];
      ForwardIsKnown(front, |s.processes|, from);
      DayOverRun(s, front, from, k, today);
      if k.number > from {
        RunKeepsCounted(s, front, k);
      }
      DayGoesOn(s, events, from, k, today);
    }
  }

  lemma {:induction false} DayGoesOn(s: State, events: seq<Event>, from: int, k: DayKey, today: int)
    requires Known(events, |s.processes|) && events != [] && Retained(k, today)
    requires var front, e := events[..|events| - 1], events[|events| - 1];
             && from <= e.today <= today
             && (k.number > from ==> AllCountedAt(Run(s, front), k))
             && (!LostAt(s, front, k) ==> SameAt(Everything(Run(s, front)), CountOf(s, front), k))
             && (LostAt(s, front, k) ==> TotalAt(Everything(Run(s, front)), k) < TotalAt(CountOf(s, front), k))
    ensures !LostAt(s, events, k) ==> SameAt(Everything(Run(s, events)), CountOf(s, events), k)
    ensures LostAt(s, events, k) ==> TotalAt(Everything(Run(s, events)), k) < TotalAt(CountOf(s, events), k)
  {
    var front, e := events[..|events| - 1], events[|events| - 1];
    var mid, i := Run(s, front), e.process;
    var others, whole := AllPending(mid.processes[i := IDLE]), Whole(mid, i, e.op, e.today);
    var more := Recorded(NewCalls(mid, i, e.op, e.today));
    DayStep(mid, e, k, today);
    WholeSeen(mid, i, e.op, e.today);
    CountGrows(s, events);
    SameTotals(Everything(mid), CountOf(s, front), more, k);
    if DroppedAt(mid, e, k) {
      WholeIsCounted(mid, e, k);
      TotalOfSum(whole, others, k);
    }
  }

  lemma {:induction false} SameTotals(a: Metrics, b: Metrics, more: Metrics, k: DayKey)
    ensures TotalAt(Merge(a, more), k) == TotalAt(a, k) + TotalAt(more, k)
    ensures TotalAt(Merge(b, more), k) == TotalAt(b, k) + TotalAt(more, k)
    ensures SameAt(a, b, k) ==> SameAt(Merge(a, more), Merge(b, more), k)
  {
    TotalOfSum(a, more, k);
    TotalOfSum(b, more, k);
    if SameAt(a, b, k) {
      SameMerges(a, b, more, k);
    }
  }

  lemma {:induction false} SameDaysPruned(a: Metrics, b: Metrics, today: int)
    requires forall k :: Retained(k, today) ==> SameAt(a, b, k)
    ensures Prune(a, today) == Prune(b, today)
  {
    var left, right := Prune(a, today), Prune(b, today);
    forall k ensures k in left <==> k in right {
      assert Retained(k, today) ==> SameAt(a, b, k);
    }
    assert left.Keys == right.Keys;
    forall k | k in left ensures left[k] == right[k] {
      assert SameAt(a, b, k);
    }
  }

  lemma {:induction false} FutureIsCounted(s: State, from: int, k: DayKey)
    requires Orderly(s, from) && k.Date? && k.number > from
    ensures AllCountedAt(s, k)
  {
    assert k !in s.file;
    forall i | 0 <= i < |s.processes| ensures CountedAt(s.processes[i].pending, k) {
      assert NoFuture(s.processes[i].pending, from);
    }
  }

  /**
   Over any run in which days go forward, whatever the dates of the calls: file and pending data hold every
   call of the window at its end if and only if no save dropped a day of that window, in its own future.
   */
  lemma {:induction false} CompleteIffNoneLost(s: State, events: seq<Event>, from: int, today: int)
    requires Orderly(s, from) && Forward(events, |s.processes|, from) && LastDay(events, from) <= today
    ensures Known(events, |s.processes|)
    ensures Complete(s, events, today) <==> forall k :: Retained(k, today) ==> !LostAt(s, events, k)
  {
    ForwardIsKnown(events, |s.processes|, from);
    var end, count := Everything(Run(s, events)), CountOf(s, events);
    forall k | Retained(k, today)
      ensures !LostAt(s, events, k) ==> SameAt(end, count, k)
      ensures LostAt(s, events, k) ==> TotalAt(end, k) < TotalAt(count, k)
    {
      if k.number > from {
        FutureIsCounted(s, from, k);
      }
      DayOverRun(s, events, from, k, today);
    }
    if k :| Retained(k, today) && LostAt(s, events, k) {
      assert DayAt(Prune(end, today), k) == DayAt(end, k) && DayAt(Prune(count, today), k) == DayAt(count, k);
    } else {
      SameDaysPruned(end, count, today);
    }
  }
}
