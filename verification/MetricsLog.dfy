/**
 The counters and the log of calls they are backfilled from: when the file and all pending data
 together are one count of the log, and when a backfill counts calls twice.
 */
module MetricsLog {

  import opened MetricsData
  import opened MetricsRuns

  /**
   The counters, the log with the newest call last, and the calls that have been logged but not counted
   yet. The counters are to be a count of the log from `base` on.
   */
  datatype World = World(state: State, log: seq<Call>, hands: seq<Call>, base: nat)

  /**
   A call is logged, and counted in a step of its own. A backfill takes the newest `limit` calls of the
   log as it was read, when it held `hi` calls.
   */
  datatype LogOp = Append(call: Call) | Enter(j: nat) | Write(saved: bool) | Refill(hi: nat, limit: nat) | Read

  datatype LogEvent = LogEvent(process: nat, op: LogOp, today: int)

  predicate Based(w: World) {
    w.base <= |w.log|
  }

  predicate Possible(w: World, e: LogEvent) {
    && e.process < |w.state.processes|
    && match e.op
       case Append(call) => CallNotFuture(call, e.today)
       case Enter(j) => j < |w.hands|
       case Refill(hi, limit) => hi <= |w.log| && limit >= 1
       case _ => true
  }

  /** Where the newest `limit` of the first `hi` calls start. */
  function From(hi: nat, limit: nat): nat {
    if hi <= limit then 0 else hi - limit
  }

  /** The logged calls as they are read: newest first. */
  function Items(log: seq<Call>, hi: nat, limit: nat): seq<Call>
    requires hi <= |log|
  {
    Reverse(log[From(hi, limit)..hi])
  }

  predicate TakesLog(w: World, e: LogEvent)
    requires e.process < |w.state.processes|
  {
    e.op.Refill? && Takes(w.state.file, w.state.processes[e.process], e.today)
  }

  /** The step of the counters in a step of the whole. */
  function OpOf(w: World, e: LogEvent): Op
    requires Possible(w, e) && !e.op.Append?
  {
    match e.op
    case Enter(j) => Record(w.hands[j])
    case Write(saved) => Flush(saved)
    case Refill(hi, limit) => Backfill(Items(w.log, hi, limit))
    case Read => Summary
  }

  function Following(w: World, e: LogEvent): (next: World)
    requires Possible(w, e)
    ensures |next.state.processes| == |w.state.processes|
  {
    if e.op.Append? then w.(log := w.log + [e.op.call], hands := w.hands + [e.op.call])
    else World(Next(w.state, e.process, OpOf(w, e), e.today), w.log,
               if e.op.Enter? then w.hands[..e.op.j] + w.hands[e.op.j + 1..] else w.hands,
               if TakesLog(w, e) then From(e.op.hi, e.op.limit) else w.base)
  }

  /** The file, all pending data and the calls still to be counted are one count of the log, within the window. */
  predicate OneCount(w: World, today: int)
    requires Based(w)
  {
    Prune(Merge(Everything(w.state), Recorded(w.hands)), today) == Prune(Recorded(w.log[w.base..]), today)
  }

  predicate InWindow(c: Call, today: int) {
    c.when.AtHour? && Retained(Date(DayOf(c.when.hour)), today)
  }

  function Stretch(log: seq<Call>, a: nat, b: nat): seq<Call>
    requires a <= |log| && b <= |log|
  {
    if a <= b then log[a..b] else log[b..a]
  }

  /** A backfill takes nothing that has been counted: no call of the window lies between base and reading. */
  predicate Quiet(w: World, e: LogEvent)
    requires Based(w) && Possible(w, e)
  {
    TakesLog(w, e) ==> forall c :: c in Stretch(w.log, w.base, e.op.hi) ==> !InWindow(c, e.today)
  }

  lemma {:induction false} ReverseTwice(calls: seq<Call>)
    ensures Reverse(Reverse(calls)) == calls
  {
    ReverseKeeps(calls);
    ReverseKeeps(Reverse(calls));
  }

  /** A recorded day has at least one call. */
  lemma {:induction false} DaysHaveCalls(calls: seq<Call>, k: DayKey)
    ensures DayAt(Recorded(calls), k).bucket.total >= 0
    ensures k in Recorded(calls) ==> DayAt(Recorded(calls), k).bucket.total >= 1
  {
    if calls == [] {
    } else {
      DaysHaveCalls(calls[..|calls| - 1], k);
    }
  }

  lemma {:induction false} CallHasDay(calls: seq<Call>, c: Call)
    requires c in calls && c.when.AtHour?
    ensures Date(DayOf(c.when.hour)) in Recorded(calls)
  {
    var front, last := calls[..|calls| - 1], calls[|calls| - 1];
    assert calls == front + [last];
    if c != last {
      CallHasDay(front, c);
    }
  }

  lemma {:induction false} DayHasCall(calls: seq<Call>, k: DayKey)
    requires k in Recorded(calls)
    ensures exists c :: c in calls && c.when.AtHour? && k == Date(DayOf(c.when.hour))
  {
    var front, last := calls[..|calls| - 1], calls[|calls| - 1];
    assert calls == front + [last];
    if last.when.AtHour? && k == Date(DayOf(last.when.hour)) {
      assert last in calls;
    } else {
      DayHasCall(front, k);
      var c :| c in front && c.when.AtHour? && k == Date(DayOf(c.when.hour));
      assert c in calls;
    }
  }

  /** Counted calls show in the window exactly if one of them is in it. */
  lemma {:induction false} NothingInWindow(calls: seq<Call>, today: int)
    ensures Prune(Recorded(calls), today) == map[] <==> forall c :: c in calls ==> !InWindow(c, today)
  {
    var kept := Prune(Recorded(calls), today);
    forall c | c in calls && InWindow(c, today) ensures kept != map[] {
      CallHasDay(calls, c);
      assert Date(DayOf(c.when.hour)) in kept;
    }
    if kept != map[] {
      var k :| k in kept;
      DayHasCall(calls, k);
    }
  }

  /** What is added to data makes no difference exactly if it is nothing. */
  lemma {:induction false} AddingShows(whole: Metrics, calls: seq<Call>, today: int)
    ensures var more := Prune(Recorded(calls), today);
            Merge(whole, more) == whole <==> more == map[]
  {
    var more := Prune(Recorded(calls), today);
    MergeUnit(whole);
    forall k | k in more ensures Merge(whole, more) != whole {
      DayOfSum(whole, more, k);
      DaysHaveCalls(calls, k);
      assert DayAt(more, k) == DayAt(Recorded(calls), k);
    }
  }

  lemma {:induction false} PrunedAppend(a: seq<Call>, b: seq<Call>, today: int)
    ensures Prune(Recorded(a + b), today) == Merge(Prune(Recorded(a), today), Prune(Recorded(b), today))
  {
    RecordedAppend(a, b);
    PruneMerge(Recorded(a), Recorded(b), today);
  }

  /** Two counts that start at different places of the log are the same exactly if nothing between is in the window. */
  lemma {:induction false} StartsAgree(whole: Metrics, log: seq<Call>, a: nat, b: nat, today: int)
    requires a <= |log| && b <= |log|
    ensures Merge(whole, Prune(Recorded(log[a..]), today)) == Merge(whole, Prune(Recorded(log[b..]), today))
            <==> forall c :: c in Stretch(log, a, b) ==> !InWindow(c, today)
  {
    var lo, hi := if a <= b then a else b, if a <= b then b else a;
    var front, back := log[lo..hi], log[hi..];
    var more, tail := Prune(Recorded(front), today), Prune(Recorded(back), today);
    assert log[lo..] == front + back;
    PrunedAppend(front, back, today);
    MergeSwaps(whole, more, tail);
    MergeAssociates(whole, more, tail);
    AddingShows(Merge(whole, tail), front, today);
    NothingInWindow(front, today);
  }

  lemma {:induction false} AppendKeepsOne(w: World, e: LogEvent)
    requires Based(w) && Possible(w, e) && e.op.Append? && OneCount(w, e.today)
    ensures OneCount(Following(w, e), e.today)
  {
    var all, c, next := Everything(w.state), [e.op.call], Following(w, e);
    assert next.log[w.base..] == w.log[w.base..] + c;
    PrunedAppend(w.log[w.base..], c, e.today);
    RecordedAppend(w.hands, c);
    MergeAssociates(all, Recorded(w.hands), Recorded(c));
    PruneMerge(Merge(all, Recorded(w.hands)), Recorded(c), e.today);
  }

  /** What the whole holds after a step of the counters, within the window. */
  lemma {:induction false} StepHolds(w: World, e: LogEvent, hands: seq<Call>, more: seq<Call>)
    requires Possible(w, e) && !e.op.Append? && Orderly(w.state, e.today)
    requires more == NewCalls(w.state, e.process, OpOf(w, e), e.today)
    ensures Prune(Merge(Everything(Following(w, e).state), Recorded(hands)), e.today)
            == Prune(Merge(Merge(Everything(w.state), Recorded(more)), Recorded(hands)), e.today)
  {
    StepKeepsTotal(w.state, e.process, OpOf(w, e), e.today, Everything(w.state));
    PruneMerge(Everything(Following(w, e).state), Recorded(hands), e.today);
    PruneMerge(Merge(Everything(w.state), Recorded(more)), Recorded(hands), e.today);
  }

  lemma {:induction false} EnterKeepsOne(w: World, e: LogEvent)
    requires Based(w) && Possible(w, e) && e.op.Enter? && Orderly(w.state, e.today) && OneCount(w, e.today)
    ensures OneCount(Following(w, e), e.today)
  {
    var all, c := Everything(w.state), w.hands[e.op.j];
    var left, right := w.hands[..e.op.j], w.hands[e.op.j + 1..];
    assert w.hands == left + [c] + right;
    AnyCallLast(left, c, right);
    StepHolds(w, e, left + right, [c]);
    MergeAssociates(all, Recorded(left + right), Alone(c));
    MergeSwaps(all, Alone(c), Recorded(left + right));
    assert [c][..0] == [] && Recorded([c]) == Alone(c);
  }

  /** A step of the counters that takes nothing from the log. */
  lemma {:induction false} OtherKeepsOne(w: World, e: LogEvent)
    requires Based(w) && Possible(w, e) && !e.op.Append? && !e.op.Enter? && !TakesLog(w, e)
    requires Orderly(w.state, e.today) && OneCount(w, e.today)
    ensures OneCount(Following(w, e), e.today)
  {
    StepHolds(w, e, w.hands, []);
    MergeUnit(Everything(w.state));
  }

  /** The whole after a backfill that takes calls: what was there and the taken calls. */
  lemma {:induction false} RefillHolds(w: World, e: LogEvent, taken: seq<Call>)
    requires Based(w) && Possible(w, e) && TakesLog(w, e) && Orderly(w.state, e.today) && OneCount(w, e.today)
    requires taken == w.log[From(e.op.hi, e.op.limit)..e.op.hi]
    ensures Prune(Merge(Everything(Following(w, e).state), Recorded(w.hands)), e.today)
            == Merge(Prune(Recorded(taken), e.today), Prune(Recorded(w.log[w.base..]), e.today))
  {
    ReverseTwice(taken);
    StepHolds(w, e, w.hands, taken);
    TakenAside(Everything(w.state), Recorded(taken), Recorded(w.hands), e.today);
  }

  lemma {:induction false} TakenAside(a: Metrics, b: Metrics, c: Metrics, today: int)
    ensures Prune(Merge(Merge(a, b), c), today) == Merge(Prune(b, today), Prune(Merge(a, c), today))
  {
    MergeSwaps(a, b, c);
    PruneMerge(Merge(a, c), b, today);
    MergeCommutes(Prune(b, today), Prune(Merge(a, c), today));
  }

  /** A whole of the calls taken from the log and all from the old base is one count exactly under the condition. */
  lemma {:induction false} RefilledIsOne(next: World, base: nat, hi: nat, today: int)
    requires Based(next) && base <= |next.log| && next.base <= hi <= |next.log|
    requires Prune(Merge(Everything(next.state), Recorded(next.hands)), today)
             == Merge(Prune(Recorded(next.log[next.base..hi]), today), Prune(Recorded(next.log[base..]), today))
    ensures OneCount(next, today) <==> forall c :: c in Stretch(next.log, base, hi) ==> !InWindow(c, today)
  {
    var taken := next.log[next.base..hi];
    assert next.log[next.base..] == taken + next.log[hi..];
    PrunedAppend(taken, next.log[hi..], today);
    StartsAgree(Prune(Recorded(taken), today), next.log, base, hi, today);
  }

  lemma {:induction false} RefillKeepsOne(w: World, e: LogEvent)
    requires Based(w) && Possible(w, e) && TakesLog(w, e) && Orderly(w.state, e.today) && OneCount(w, e.today)
    ensures OneCount(Following(w, e), e.today) <==> Quiet(w, e)
  {
    RefillHolds(w, e, w.log[From(e.op.hi, e.op.limit)..e.op.hi]);
    RefilledIsOne(Following(w, e), w.base, e.op.hi, e.today);
  }

  /** The same condition by what is pending: no process has anything but the calls logged after the reading. */
  lemma {:induction false} QuietIsPending(w: World, e: LogEvent)
    requires Based(w) && Possible(w, e) && TakesLog(w, e) && OneCount(w, e.today)
    ensures Quiet(w, e)
            <==> Prune(Merge(AllPending(w.state.processes), Recorded(w.hands)), e.today)
                 == Prune(Recorded(w.log[e.op.hi..]), e.today)
  {
    var file, others, hands := w.state.file, AllPending(w.state.processes), Recorded(w.hands);
    MergeAssociates(file, others, hands);
    PruneMerge(file, Merge(others, hands), e.today);
    MergeUnit(Prune(Merge(others, hands), e.today));
    StartsAgree(map[], w.log, w.base, e.op.hi, e.today);
    MergeUnit(Prune(Recorded(w.log[w.base..]), e.today));
    MergeUnit(Prune(Recorded(w.log[e.op.hi..]), e.today));
  }

  /** A step keeps one count exactly if it is no backfill of calls that have been counted. */
  lemma {:induction false} StepKeepsOneCount(w: World, e: LogEvent)
    requires Based(w) && Possible(w, e) && Orderly(w.state, e.today) && OneCount(w, e.today)
    ensures Based(Following(w, e))
    ensures OneCount(Following(w, e), e.today) <==> Quiet(w, e)
  {
    if e.op.Append? {
      AppendKeepsOne(w, e);
    } else if e.op.Enter? {
      EnterKeepsOne(w, e);
    } else if TakesLog(w, e) {
      RefillKeepsOne(w, e);
    } else {
      OtherKeepsOne(w, e);
    }
  }

  predicate NoneLater(calls: seq<Call>, today: int) {
    forall j :: 0 <= j < |calls| ==> CallNotFuture(calls[j], today)
  }

  /** Nothing lies in the future, and whoever has something pending knows it. */
  predicate InOrder(w: World, today: int) {
    Based(w) && Orderly(w.state, today) && NoneLater(w.log, today) && NoneLater(w.hands, today)
  }

  lemma {:induction false} StepIsInOrder(w: World, e: LogEvent)
    requires InOrder(w, e.today) && Possible(w, e)
    ensures InOrder(Following(w, e), e.today)
  {
    if !e.op.Append? {
      var op, next := OpOf(w, e), Following(w, e);
      if e.op.Refill? {
        ReverseKeeps(w.log[From(e.op.hi, e.op.limit)..e.op.hi]);
      }
      AfterIsOrderly(w.state.file, w.state.processes[e.process], op, e.today);
    }
  }

  lemma {:induction false} LaterIsOne(w: World, early: int, late: int)
    requires early <= late && InOrder(w, early) && OneCount(w, early)
    ensures InOrder(w, late) && OneCount(w, late)
  {
    var all, log := Merge(Everything(w.state), Recorded(w.hands)), w.log[w.base..];
    EverythingNotFuture(w.state, early);
    RecordedNotFuture(w.hands, early);
    NoFutureMerge(Everything(w.state), Recorded(w.hands), early);
    RecordedNotFuture(log, early);
    PruneAgain(all, early, late);
    PruneAgain(Recorded(log), early, late);
  }

  function LastDate(events: seq<LogEvent>, from: int): int {
    if events == [] then from else events[|events| - 1].today
  }

  predicate AllPossible(w: World, events: seq<LogEvent>, from: int)
    decreases |events|, 0
  {
    events == [] ||
    var front, e := events[..|events| - 1], events[|events| - 1];
    AllPossible(w, front, from) && LastDate(front, from) <= e.today && Possible(RunLog(w, front, from), e)
  }

  function RunLog(w: World, events: seq<LogEvent>, from: int): World
    requires AllPossible(w, events, from)
    decreases |events|, 1
  {
    if events == [] then w
    else Following(RunLog(w, events[..|events| - 1], from), events[|events| - 1])
  }

  lemma {:induction false} RunIsInOrder(w: World, events: seq<LogEvent>, from: int)
    requires AllPossible(w, events, from) && InOrder(w, from)
    ensures InOrder(RunLog(w, events, from), LastDate(events, from)) && from <= LastDate(events, from)
  {
    if events == [] {
    } else {
      RunIsInOrder(w, events[..|events| - 1], from);
      StepIsInOrder(RunLog(w, events[..|events| - 1], from), events[|events| - 1]);
    }
  }

  /** One count after every step of a run. */
  predicate AlwaysOneCount(w: World, events: seq<LogEvent>, from: int)
    requires AllPossible(w, events, from)
  {
    var end := RunLog(w, events, from);
    && Based(end) && OneCount(end, LastDate(events, from))
    && (events == [] || AlwaysOneCount(w, events[..|events| - 1], from))
  }

  predicate AllQuiet(w: World, events: seq<LogEvent>, from: int)
    requires AllPossible(w, events, from)
  {
    events == [] ||
    var front, e := events[..|events| - 1], events[|events| - 1];
    var mid := RunLog(w, front, from);
    AllQuiet(w, front, from) && Based(mid) && Quiet(mid, e)
  }

  /**
   Over any run of any number of processes the counters stay one count of the log exactly if no backfill takes
   calls of the window that were counted before.
   */
  lemma {:induction false} RunsCountOnce(w: World, events: seq<LogEvent>, from: int)
    requires AllPossible(w, events, from) && InOrder(w, from) && OneCount(w, from)
    ensures AlwaysOneCount(w, events, from) <==> AllQuiet(w, events, from)
  {
    if events == [] {
    } else {
      var front, e := events[..|events| - 1], events[|events| - 1];
      var mid := RunLog(w, front, from);
      RunsCountOnce(w, front, from);
      RunIsInOrder(w, front, from);
      if AlwaysOneCount(w, front, from) {
        LaterIsOne(mid, LastDate(front, from), e.today);
        StepKeepsOneCount(mid, e);
      }
    }
  }

  predicate AllIdle(processes: seq<Process>) {
    forall j :: 0 <= j < |processes| ==> processes[j] == IDLE
  }

  lemma {:induction false} NothingPending(processes: seq<Process>)
    requires forall j :: 0 <= j < |processes| ==> processes[j].pending == map[]
    ensures AllPending(processes) == map[]
  {
    if processes == [] {
    } else {
      NothingPending(processes[..|processes| - 1]);
      MergeUnit(map[]);
    }
  }

  /** Where counting begins: no counters anywhere, and a log whose calls so far do not matter. */
  function Beginning(processes: seq<Process>, log: seq<Call>): World {
    World(State(map[], processes), log, [], |log|)
  }

  lemma {:induction false} BeginningIsOne(processes: seq<Process>, log: seq<Call>, today: int)
    requires AllIdle(processes) && NoneLater(log, today)
    ensures InOrder(Beginning(processes, log), today) && OneCount(Beginning(processes, log), today)
  {
    NothingPending(processes);
    MergeUnit(map[]);
    assert log[|log|..] == [];
  }

  /** No process but `i` has anything pending. */
  predicate OthersFlushed(s: State, i: nat) {
    i < |s.processes| && forall j :: 0 <= j < |s.processes| && j != i ==> s.processes[j].pending == map[]
  }

  /** Once the others have flushed and every logged call is counted, a process sees one count of the log. */
  lemma {:induction false} SummaryIsCount(w: World, i: nat, today: int)
    requires Based(w) && OneCount(w, today) && OthersFlushed(w.state, i) && w.hands == []
    ensures Seen(w.state.file, w.state.processes[i], today) == Prune(Recorded(w.log[w.base..]), today)
  {
    SummarySeesFlushed(w.state, i, today);
    NothingPending(w.state.processes[i := IDLE]);
    assert Prune(map[], today) == map[];
    MergeUnit(Seen(w.state.file, w.state.processes[i], today));
    MergeUnit(Everything(w.state));
  }

  lemma {:induction false} OneMoreStep(w: World, events: seq<LogEvent>, from: int, e: LogEvent)
    requires AllPossible(w, events, from) && LastDate(events, from) <= e.today
    requires Possible(RunLog(w, events, from), e)
    ensures AllPossible(w, events + [e], from) && LastDate(events + [e], from) == e.today
    ensures RunLog(w, events + [e], from) == Following(RunLog(w, events, from), e)
  {
    assert (events + [e])[..|events|] == events;
  }

  /** A call counted once and counted twice. */
  predicate OnceAndTwice(c: Call, today: int, once: Metrics, twice: Metrics)
    requires c.when.AtHour?
  {
    var k := Date(DayOf(c.when.hour));
    && Alone(c) == Recorded([c]) == Prune(once, today) == once != map[]
    && Merge(once, once) == Prune(twice, today) == twice
    && DayAt(once, k).bucket.total == 1 && DayAt(twice, k).bucket.total == 2
  }

  lemma {:induction false} CountsOnceAndTwice(c: Call, today: int)
    requires InWindow(c, today)
    ensures OnceAndTwice(c, today, Alone(c), Merge(Alone(c), Alone(c)))
  {
    var k := Date(DayOf(c.when.hour));
    assert [c][..0] == [];
    assert Alone(c).Keys == {k} && Merge(Alone(c), Alone(c)).Keys == {k};
  }

  /** One call is logged and counted by one process, the dashboard is asked of another, and the first one flushes. */
  function TwiceCounted(c: Call, limit: nat, today: int): seq<LogEvent> {
    [LogEvent(0, Append(c), today), LogEvent(0, Enter(0), today), LogEvent(1, Refill(1, limit), today),
     LogEvent(0, Write(true), today)]
  }

  /** The world after so many of these steps. */
  function Stage(c: Call, once: Metrics, twice: Metrics, n: nat): World {
    if n == 0 then Beginning([IDLE, IDLE], [])
    else if n == 1 then World(State(map[], [IDLE, IDLE]), [c], [c], 0)
    else if n == 2 then World(State(map[], [Process(once, true), IDLE]), [c], [], 0)
    else if n == 3 then World(State(once, [Process(once, true), IDLE]), [c], [], 0)
    else World(State(twice, [IDLE, IDLE]), [c], [], 0)
  }

  predicate Leads(w: World, e: LogEvent, next: World) {
    Possible(w, e) && Following(w, e) == next
  }

  lemma {:induction false} LoggedAndCounted(c: Call, once: Metrics, twice: Metrics, limit: nat, today: int, n: nat)
    requires InWindow(c, today) && Alone(c) == once && n < 2
    ensures Leads(Stage(c, once, twice, n), TwiceCounted(c, limit, today)[n], Stage(c, once, twice, n + 1))
  {
  }

  lemma {:induction false} OneItem(c: Call, limit: nat)
    requires limit >= 1
    ensures Items([c], 1, limit) == [c] == Reverse([c])
  {
    assert [c][0..1] == [c];
    ReverseKeeps([c]);
  }

  lemma {:induction false} Refilled(c: Call, once: Metrics, twice: Metrics, limit: nat, today: int)
    requires Recorded([c]) == Prune(once, today) == once && limit >= 1
    ensures Leads(Stage(c, once, twice, 2), TwiceCounted(c, limit, today)[2], Stage(c, once, twice, 3))
  {
    OneItem(c, limit);
    assert Prune(map[], today) == map[];
  }

  lemma {:induction false} Flushed(c: Call, once: Metrics, twice: Metrics, limit: nat, today: int)
    requires Merge(once, once) == Prune(twice, today) == twice
    ensures Leads(Stage(c, once, twice, 3), TwiceCounted(c, limit, today)[3], Stage(c, once, twice, 4))
  {
  }

  /** Steps that lead from one world to the next make a run. */
  lemma {:induction false} StepsMakeRun(worlds: seq<World>, events: seq<LogEvent>, today: int)
    requires |worlds| == |events| + 1
    requires forall j :: 0 <= j < |events| ==> events[j].today == today && Leads(worlds[j], events[j], worlds[j + 1])
    ensures AllPossible(worlds[0], events, today) && LastDate(events, today) == today
    ensures RunLog(worlds[0], events, today) == worlds[|events|]
  {
    if events == [] {
    } else {
      var n := |events| - 1;
      StepsMakeRun(worlds[..n + 1], events[..n], today);
      assert Leads(worlds[n], events[n], worlds[n + 1]);
      OneMoreStep(worlds[0], events[..n], today, events[n]);
      assert events == events[..n] + [events[n]];
    }
  }

  lemma {:induction false} ReachesEnd(c: Call, once: Metrics, twice: Metrics, limit: nat, today: int)
    requires InWindow(c, today) && OnceAndTwice(c, today, once, twice) && limit >= 1
    ensures var start, events := Beginning([IDLE, IDLE], []), TwiceCounted(c, limit, today);
            AllPossible(start, events, today) && RunLog(start, events, today) == Stage(c, once, twice, 4)
  {
    var events := TwiceCounted(c, limit, today);
    var worlds := seq(5, n requires 0 <= n < 5 => Stage(c, once, twice, n));
    LoggedAndCounted(c, once, twice, limit, today, 0);
    LoggedAndCounted(c, once, twice, limit, today, 1);
    Refilled(c, once, twice, limit, today);
    Flushed(c, once, twice, limit, today);
    assert forall j :: 0 <= j < 4 ==> Leads(worlds[j], events[j], worlds[j + 1]);
    StepsMakeRun(worlds, events, today);
  }

  /** Counted twice is not counted once. */
  lemma {:induction false} TwiceIsNotOnce(w: World, c: Call, once: Metrics, twice: Metrics, today: int)
    requires c.when.AtHour? && OnceAndTwice(c, today, once, twice) && Based(w)
    requires w.state.file == twice && AllIdle(w.state.processes) && w.hands == [] && w.log[w.base..] == [c]
    ensures !OneCount(w, today)
  {
    NothingPending(w.state.processes);
    MergeUnit(twice);
  }

  /** Then the file has the call twice. */
  lemma {:induction false} BackfillCountsTwice(c: Call, limit: nat, today: int) returns (end: World)
    requires InWindow(c, today) && limit >= 1
    ensures var start, events := Beginning([IDLE, IDLE], []), TwiceCounted(c, limit, today);
            AllPossible(start, events, today) && end == RunLog(start, events, today)
    ensures end.log == [c] && DayAt(end.state.file, Date(DayOf(c.when.hour))).bucket.total == 2
    ensures Based(end) && !OneCount(end, today)
  {
    var once := Alone(c);
    var twice := Merge(once, once);
    CountsOnceAndTwice(c, today);
    ReachesEnd(c, once, twice, limit, today);
    end := Stage(c, once, twice, 4);
    assert [c][0..] == [c];
    TwiceIsNotOnce(end, c, once, twice, today);
  }
}
