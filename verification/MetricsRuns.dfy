/**
 Several processes counting calls into one shared file: whatever the order of recording, flushing and
 reading, nothing in the window is lost, and every call is counted as often as it was handed in: once
 when it is recorded, and once more by every backfill that takes it from the log.
 */
module MetricsRuns {

  import opened MetricsData

  /** What one process has not written yet, and whether it believes it has to write. */
  datatype Process = Process(pending: Metrics, dirty: bool)

  const IDLE := Process(map[], false)

  /** The shared file and the processes. */
  datatype State = State(file: Metrics, processes: seq<Process>)

  /** A process's atomic steps; a flush either saves or leaves the file as it was. */
  datatype Op = Record(call: Call) | Flush(saved: bool) | Backfill(items: seq<Call>) | Summary

  function Reverse(calls: seq<Call>): seq<Call> {
    if calls == [] then [] else [calls[|calls| - 1]] + Reverse(calls[..|calls| - 1])
  }

  /** Whether a backfill takes the logged calls: nothing pending and nothing retained. */
  predicate Takes(file: Metrics, p: Process, today: int) {
    p.pending == map[] && Prune(file, today) == map[]
  }

  function AfterRecord(file: Metrics, p: Process, call: Call): (Metrics, Process) {
    if call.when.NoTime? then (file, p) else (file, Process(Applied(p.pending, call), true))
  }

  function AfterFlush(file: Metrics, p: Process, saved: bool, today: int): (Metrics, Process) {
    if !p.dirty || !saved then (file, p) else (Prune(Merge(file, p.pending), today), IDLE)
  }

  function AfterBackfill(file: Metrics, p: Process, items: seq<Call>, today: int): (Metrics, Process) {
    if p.pending != map[] then (file, p)
    else if Prune(file, today) != map[] then (Prune(file, today), p)
    else (Prune(Recorded(Reverse(items)), today), p)
  }

  /** The data a summary is made from. */
  function Seen(file: Metrics, p: Process, today: int): Metrics {
    Prune(Merge(file, p.pending), today)
  }

  function AfterSummary(file: Metrics, p: Process, today: int): (Metrics, Process) {
    (file, Process(p.pending, p.dirty || Seen(file, p, today) != Merge(file, p.pending)))
  }

  /** A summary leaves something to write exactly if there was something, or it left out a day. */
  lemma SummaryMarks(file: Metrics, p: Process, today: int)
    ensures var (after, q) := AfterSummary(file, p, today);
            && after == file && q.pending == p.pending
            && (q.dirty <==> p.dirty || exists k :: (k in file || k in p.pending) && !Retained(k, today))
  {
    var all := Merge(file, p.pending);
    if k :| k in all && !Retained(k, today) {
      assert k !in Seen(file, p, today);
    } else {
      assert Seen(file, p, today) == all;
    }
    assert forall k :: (k in file || k in p.pending) <==> k in all;
  }

  /** File and process after a step. */
  function After(file: Metrics, p: Process, op: Op, today: int): (Metrics, Process) {
    match op
    case Record(call) => AfterRecord(file, p, call)
    case Flush(saved) => AfterFlush(file, p, saved, today)
    case Backfill(items) => AfterBackfill(file, p, items, today)
    case Summary => AfterSummary(file, p, today)
  }

  function Next(s: State, i: nat, op: Op, today: int): State
    requires i < |s.processes|
  {
    var (file, p) := After(s.file, s.processes[i], op, today);
    State(file, s.processes[i := p])
  }

  /** The calls a step counts. */
  function NewCalls(s: State, i: nat, op: Op, today: int): seq<Call>
    requires i < |s.processes|
  {
    match op
    case Record(call) => [call]
    case Backfill(items) => if Takes(s.file, s.processes[i], today) then Reverse(items) else []
    case _ => []
  }

  function AllPending(processes: seq<Process>): Metrics {
    if processes == [] then map[]
    else Merge(AllPending(processes[..|processes| - 1]), processes[|processes| - 1].pending)
  }

  function Everything(s: State): Metrics {
    Merge(s.file, AllPending(s.processes))
  }

  predicate NoFuture(m: Metrics, today: int) {
    forall k :: k in m && k.Date? ==> k.number <= today
  }

  predicate CallNotFuture(c: Call, today: int) {
    c.when.AtHour? ==> DayOf(c.when.hour) <= today
  }

  predicate OpNotFuture(op: Op, today: int) {
    match op
    case Record(call) => CallNotFuture(call, today)
    case Backfill(items) => forall j :: 0 <= j < |items| ==> CallNotFuture(items[j], today)
    case _ => true
  }

  lemma {:induction false} MergeSwaps(a: Metrics, b: Metrics, c: Metrics)
    ensures Merge(Merge(a, b), c) == Merge(Merge(a, c), b)
  {
    MergeAssociates(a, b, c);
    MergeCommutes(b, c);
    MergeAssociates(a, c, b);
  }

  lemma {:induction false} OneMoreProcess(front: seq<Process>, last: Process)
    ensures AllPending(front + [last]) == Merge(AllPending(front), last.pending)
  {
    assert (front + [last])[..|front|] == front;
  }

  lemma {:induction false} TakeOutOfFront(front: seq<Process>, last: Process, i: nat)
    requires i < |front| && AllPending(front) == Merge(AllPending(front[i := IDLE]), front[i].pending)
    ensures AllPending(front + [last]) == Merge(AllPending(front[i := IDLE] + [last]), front[i].pending)
  {
    OneMoreProcess(front, last);
    OneMoreProcess(front[i := IDLE], last);
    MergeSwaps(AllPending(front[i := IDLE]), front[i].pending, last.pending);
  }

  /** One process's pending data can be taken out of the whole. */
  lemma {:induction false} TakeOut(processes: seq<Process>, i: nat)
    requires i < |processes|
    ensures AllPending(processes) == Merge(AllPending(processes[i := IDLE]), processes[i].pending)
  {
    var n := |processes| - 1;
    var front, last := processes[..n], processes[n];
    assert processes == front + [last];
    if i == n {
      assert processes[i := IDLE] == front + [IDLE];
      OneMoreProcess(front, last);
      OneMoreProcess(front, IDLE);
      MergeUnit(AllPending(front));
    } else {
      TakeOut(front, i);
      TakeOutOfFront(front, last, i);
      assert processes[i := IDLE] == front[i := IDLE] + [last];
    }
  }

  /** Everything, seen from process `i`: the file, its own data, and the others'. */
  lemma {:induction false} SeenFrom(s: State, i: nat)
    requires i < |s.processes|
    ensures var others := AllPending(s.processes[i := IDLE]);
            Everything(s) == Merge(Merge(s.file, s.processes[i].pending), others)
  {
    var others, mine := AllPending(s.processes[i := IDLE]), s.processes[i].pending;
    TakeOut(s.processes, i);
    MergeCommutes(others, mine);
    MergeAssociates(s.file, mine, others);
  }

  lemma {:induction false} NoFutureMerge(a: Metrics, b: Metrics, today: int)
    requires NoFuture(a, today) && NoFuture(b, today)
    ensures NoFuture(Merge(a, b), today)
  {
  }

  lemma {:induction false} PruneAgain(m: Metrics, early: int, late: int)
    requires early <= late && NoFuture(m, early)
    ensures Prune(Prune(m, early), late) == Prune(m, late)
  {
    PruneTwice(m, early, late);
  }

  lemma {:induction false} RecordedNotFuture(calls: seq<Call>, today: int)
    requires forall j :: 0 <= j < |calls| ==> CallNotFuture(calls[j], today)
    ensures NoFuture(Recorded(calls), today)
  {
    if calls == [] {
    } else {
      RecordedNotFuture(calls[..|calls| - 1], today);
    }
  }

  lemma {:induction false} ReverseKeeps(calls: seq<Call>)
    ensures |Reverse(calls)| == |calls|
    ensures forall j :: 0 <= j < |calls| ==> Reverse(calls)[j] == calls[|calls| - 1 - j]
  {
    if calls == [] {
    } else {
      ReverseKeeps(calls[..|calls| - 1]);
    }
  }

  lemma {:induction false} RecordedAppend(a: seq<Call>, b: seq<Call>)
    ensures Recorded(a + b) == Merge(Recorded(a), Recorded(b))
  {
    if b == [] {
      assert a + b == a;
      MergeUnit(Recorded(a));
    } else {
      var front, c := b[..|b| - 1], b[|b| - 1];
      RecordedAppend(a, front);
      assert (a + b)[..|a + b| - 1] == a + front;
      AppliedIsMerged(Recorded(a + front), c);
      AppliedIsMerged(Recorded(front), c);
      MergeAssociates(Recorded(a), Recorded(front), Alone(c));
    }
  }

  /** Nothing lies in the future, and whoever has something pending knows it. */
  predicate Orderly(s: State, today: int) {
    && NoFuture(s.file, today)
    && forall i :: 0 <= i < |s.processes| ==>
         NoFuture(s.processes[i].pending, today) && (s.processes[i].pending != map[] ==> s.processes[i].dirty)
  }

  lemma {:induction false} PendingNotFuture(processes: seq<Process>, today: int)
    requires forall i :: 0 <= i < |processes| ==> NoFuture(processes[i].pending, today)
    ensures NoFuture(AllPending(processes), today)
  {
    if processes == [] {
    } else {
      PendingNotFuture(processes[..|processes| - 1], today);
    }
  }

  lemma {:induction false} AfterIsOrderly(file: Metrics, p: Process, op: Op, today: int)
    requires NoFuture(file, today) && NoFuture(p.pending, today) && (p.pending != map[] ==> p.dirty)
    requires OpNotFuture(op, today)
    ensures var (file', p') := After(file, p, op, today);
            NoFuture(file', today) && NoFuture(p'.pending, today) && (p'.pending != map[] ==> p'.dirty)
  {
  }

  /** What the file and one process hold together, within the window. */
  function Held(state: (Metrics, Process), today: int): Metrics {
    Prune(Merge(state.0, state.1.pending), today)
  }

  lemma {:induction false} RecordAdds(file: Metrics, p: Process, call: Call, today: int)
    ensures Held(AfterRecord(file, p, call), today) == Prune(Merge(Merge(file, p.pending), Recorded([call])), today)
  {
    assert [call][..0] == [];
    assert Recorded([call]) == Alone(call);
    if call.when.NoTime? {
      MergeUnit(Merge(file, p.pending));
    } else {
      AppliedIsMerged(p.pending, call);
      MergeAssociates(file, p.pending, Alone(call));
    }
  }

  lemma {:induction false} PrunedStays(m: Metrics, today: int)
    ensures Prune(Merge(Prune(m, today), map[]), today) == Prune(m, today)
  {
    MergeUnit(Prune(m, today));
    assert Prune(Prune(m, today), today) == Prune(m, today);
  }

  lemma {:induction false} FlushAdds(file: Metrics, p: Process, saved: bool, today: int)
    ensures Held(AfterFlush(file, p, saved, today), today) == Prune(Merge(Merge(file, p.pending), map[]), today)
  {
    PrunedStays(Merge(file, p.pending), today);
    MergeUnit(Merge(file, p.pending));
  }

  lemma {:induction false} BackfillAdds(file: Metrics, p: Process, items: seq<Call>, today: int)
    ensures var more := if Takes(file, p, today) then Recorded(Reverse(items)) else map[];
            Held(AfterBackfill(file, p, items, today), today) == Prune(Merge(Merge(file, p.pending), more), today)
  {
    MergeUnit(Merge(file, p.pending));
    if p.pending == map[] {
      MergeUnit(file);
      if Prune(file, today) != map[] {
        PrunedStays(file, today);
      } else {
        var more := Recorded(Reverse(items));
        PrunedStays(more, today);
        PruneMerge(file, more, today);
        MergeUnit(Prune(more, today));
      }
    }
  }

  /** A step adds the calls it counts to the file and its own pending data, up to pruning. */
  lemma {:induction false} StepAdds(s: State, i: nat, op: Op, today: int)
    requires i < |s.processes|
    ensures var p := s.processes[i];
            Held(After(s.file, p, op, today), today)
            == Prune(Merge(Merge(s.file, p.pending), Recorded(NewCalls(s, i, op, today))), today)
  {
    var file, p := s.file, s.processes[i];
    match op {
      case Record(call) => RecordAdds(file, p, call, today);
      case Flush(saved) => FlushAdds(file, p, saved, today);
      case Backfill(items) => BackfillAdds(file, p, items, today);
      case Summary => MergeUnit(Merge(file, p.pending));
    }
  }

  /** One step keeps the pruned whole equal to the pruned recount. */
  lemma {:induction false} StepKeepsTotal(s: State, i: nat, op: Op, today: int, counted: Metrics)
    requires i < |s.processes| && Orderly(s, today)
    requires Prune(Everything(s), today) == Prune(counted, today)
    ensures Prune(Everything(Next(s, i, op, today)), today)
            == Prune(Merge(counted, Recorded(NewCalls(s, i, op, today))), today)
  {
    var others, more := AllPending(s.processes[i := IDLE]), Recorded(NewCalls(s, i, op, today));
    var p, s' := s.processes[i], Next(s, i, op, today);
    var p' := s'.processes[i];
    SeenFrom(s, i);
    SeenFrom(s', i);
    assert s'.processes[i := IDLE] == s.processes[i := IDLE];
    StepAdds(s, i, op, today);
    var mine := Merge(s.file, p.pending);
    PruneMerge(Merge(s'.file, p'.pending), others, today);
    PruneMerge(Merge(mine, more), others, today);
    MergeSwaps(mine, more, others);
    PruneMerge(Everything(s), more, today);
    PruneMerge(counted, more, today);
  }

  datatype Event = Event(process: nat, op: Op, today: int)

  function LastDay(events: seq<Event>, from: int): int {
    if events == [] then from else events[|events| - 1].today
  }

  /** Days only go forward, and no call is dated later than the day it is counted on. */
  predicate Timely(events: seq<Event>, processes: nat, from: int) {
    events == [] ||
    var front, e := events[..|events| - 1], events[|events| - 1];
    && Timely(front, processes, from) && LastDay(front, from) <= e.today
    && e.process < processes && OpNotFuture(e.op, e.today)
  }

  predicate Known(events: seq<Event>, processes: nat) {
    forall j :: 0 <= j < |events| ==> events[j].process < processes
  }

  lemma {:induction false} TimelyIsKnown(events: seq<Event>, processes: nat, from: int)
    requires Timely(events, processes, from)
    ensures Known(events, processes) && from <= LastDay(events, from)
  {
    if events == [] {
    } else {
      TimelyIsKnown(events[..|events| - 1], processes, from);
    }
  }

  function Run(s: State, events: seq<Event>): State
    requires Known(events, |s.processes|)
    ensures |Run(s, events).processes| == |s.processes|
  {
    if events == [] then s
    else
      var e := events[|events| - 1];
      Next(Run(s, events[..|events| - 1]), e.process, e.op, e.today)
  }

  /** All calls a run counts, in the order of counting. */
  function CallsOf(s: State, events: seq<Event>): seq<Call>
    requires Known(events, |s.processes|)
  {
    if events == [] then []
    else
      var front, e := events[..|events| - 1], events[|events| - 1];
      CallsOf(s, front) + NewCalls(Run(s, front), e.process, e.op, e.today)
  }

  /** The file and all pending data together hold, within the window, what there was and every call of the run. */
  predicate Complete(s: State, events: seq<Event>, today: int)
    requires Known(events, |s.processes|)
  {
    Prune(Everything(Run(s, events)), today) == Prune(Merge(Everything(s), Recorded(CallsOf(s, events))), today)
  }

  /** Flush independence: every call a run records or takes in a backfill is in the file or pending, once each time. */
  lemma {:induction false} RunsCountEveryCall(s: State, events: seq<Event>, from: int, today: int)
    requires Orderly(s, from) && Timely(events, |s.processes|, from) && LastDay(events, from) <= today
    ensures Known(events, |s.processes|)
    ensures Orderly(Run(s, events), today) && Complete(s, events, today)
  {
    TimelyIsKnown(events, |s.processes|, from);
    if events == [] {
      MergeUnit(Everything(s));
    } else {
      var e := events[|events| - 1];
      RunsCountEveryCall(s, events[..|events| - 1], from, e.today);
      OneMoreEvent(s, events);
      CallsNotFuture(s, events, from);
      LaterDay(s, events, from, e.today, today);
    }
  }

  lemma {:induction false} OneMoreEvent(s: State, events: seq<Event>)
    requires Known(events, |s.processes|) && events != []
    requires var front, e := events[..|events| - 1], events[|events| - 1];
             OpNotFuture(e.op, e.today) && Orderly(Run(s, front), e.today) && Complete(s, front, e.today)
    ensures var e := events[|events| - 1];
            Orderly(Run(s, events), e.today) && Complete(s, events, e.today)
  {
    var front, e := events[..|events| - 1], events[|events| - 1];
    var mid, calls := Run(s, front), CallsOf(s, front);
    var more := NewCalls(mid, e.process, e.op, e.today);
    StepKeepsTotal(mid, e.process, e.op, e.today, Merge(Everything(s), Recorded(calls)));
    AfterIsOrderly(mid.file, mid.processes[e.process], e.op, e.today);
    RecordedAppend(calls, more);
    MergeAssociates(Everything(s), Recorded(calls), Recorded(more));
  }

  lemma {:induction false} CallsNotFuture(s: State, events: seq<Event>, from: int)
    requires Timely(events, |s.processes|, from)
    ensures Known(events, |s.processes|)
    ensures forall j :: 0 <= j < |CallsOf(s, events)| ==> CallNotFuture(CallsOf(s, events)[j], LastDay(events, from))
  {
    TimelyIsKnown(events, |s.processes|, from);
    if events == [] {
    } else {
      var front, e := events[..|events| - 1], events[|events| - 1];
      CallsNotFuture(s, front, from);
      if e.op.Backfill? {
        ReverseKeeps(e.op.items);
      }
    }
  }

  lemma {:induction false} EverythingNotFuture(s: State, today: int)
    requires Orderly(s, today)
    ensures NoFuture(Everything(s), today)
  {
    PendingNotFuture(s.processes, today);
    NoFutureMerge(s.file, AllPending(s.processes), today);
  }

  lemma {:induction false} LaterDay(s: State, events: seq<Event>, from: int, early: int, late: int)
    requires from <= early <= late && Known(events, |s.processes|)
    requires Orderly(s, from) && Orderly(Run(s, events), early) && Complete(s, events, early)
    requires forall j :: 0 <= j < |CallsOf(s, events)| ==> CallNotFuture(CallsOf(s, events)[j], early)
    ensures Orderly(Run(s, events), late) && Complete(s, events, late)
  {
    var calls := Recorded(CallsOf(s, events));
    EverythingNotFuture(s, from);
    EverythingNotFuture(Run(s, events), early);
    RecordedNotFuture(CallsOf(s, events), early);
    NoFutureMerge(Everything(s), calls, early);
    PruneAgain(Everything(Run(s, events)), early, late);
    PruneAgain(Merge(Everything(s), calls), early, late);
  }

  /** A summary misses exactly what the other processes have not flushed yet. */
  lemma {:induction false} SummarySeesFlushed(s: State, i: nat, today: int)
    requires i < |s.processes|
    ensures Prune(Everything(s), today)
            == Merge(Seen(s.file, s.processes[i], today), Prune(AllPending(s.processes[i := IDLE]), today))
  {
    SeenFrom(s, i);
    PruneMerge(Merge(s.file, s.processes[i].pending), AllPending(s.processes[i := IDLE]), today);
  }

  lemma {:induction false} AnyCallLast(left: seq<Call>, c: Call, right: seq<Call>)
    ensures Recorded(left + [c] + right) == Merge(Recorded(left + right), Alone(c))
  {
    RecordedAppend(left, right);
    RecordedAppend(left + [c], right);
    assert (left + [c])[..|left|] == left;
    AppliedIsMerged(Recorded(left), c);
    MergeSwaps(Recorded(left), Alone(c), Recorded(right));
  }

  lemma {:induction false} FindCall(b: seq<Call>, front: seq<Call>, c: Call) returns (left: seq<Call>, right: seq<Call>)
    requires multiset(front + [c]) == multiset(b)
    ensures b == left + [c] + right && multiset(front) == multiset(left + right)
  {
    assert c in front + [c];
    assert c in multiset(b);
    var i :| 0 <= i < |b| && b[i] == c;
    left, right := b[..i], b[i + 1..];
    assert b == left + [c] + right;
    assert multiset(front) + multiset{c} == multiset(left + right) + multiset{c};
    assert multiset(front) == (multiset(front) + multiset{c}) - multiset{c};
  }

  /** The order in which calls are counted makes no difference. */
  lemma {:induction false} OrderIsIrrelevant(a: seq<Call>, b: seq<Call>)
    requires multiset(a) == multiset(b)
    ensures Recorded(a) == Recorded(b)
  {
    if a == [] {
      assert |multiset(b)| == 0;
    } else {
      var c, front := a[|a| - 1], a[..|a| - 1];
      assert a == front + [c];
      var left, right := FindCall(b, front, c);
      OrderIsIrrelevant(front, left + right);
      AnyCallLast(left, c, right);
      AppliedIsMerged(Recorded(front), c);
    }
  }

  lemma {:induction false} AloneTomorrow(c: Call, today: int)
    requires c.when.AtHour? && DayOf(c.when.hour) == today + 1
    ensures Prune(Alone(c), today) == map[] && Prune(Alone(c), today + 1) != map[]
    ensures Recorded([c]) == Alone(c)
  {
    var k := Date(today + 1);
    assert Alone(c).Keys == {k};
    assert k in Prune(Alone(c), today + 1);
    assert [c][..0] == [];
  }

  /** A call dated tomorrow is lost for good by today's flush. */
  lemma {:induction false} FutureCallIsLost(c: Call, today: int)
    requires c.when.AtHour? && DayOf(c.when.hour) == today + 1
    ensures AfterRecord(map[], IDLE, c) == (map[], Process(Alone(c), true))
    ensures AfterFlush(map[], Process(Alone(c), true), true, today) == (map[], IDLE)
    ensures Prune(Recorded([c]), today + 1) != map[]
  {
    MergeUnit(Alone(c));
    AloneTomorrow(c, today);
  }
}
