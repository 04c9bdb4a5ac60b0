/**
 The throttle on refreshes that follow failed image calls.

 The service keeps a table of recent starts and forgets the ones outside the cooldown.  The
 state here also carries the full history of starts and the refreshes in flight, against
 which the table's decisions are proved.
 */
module RefreshThrottle {
  import opened Options
  import opened TokenAliases

  const COOLDOWN := 30.0
  const MAX_CONCURRENT := 2

  datatype Start = Start(token: Token, at: real)

  /** The last start of `t`, if it ever started. */
  function LastStart(history: seq<Start>, t: Token): Option<real> {
    if history == [] then None
    else if history[|history| - 1].token == t then Some(history[|history| - 1].at)
    else LastStart(history[..|history| - 1], t)
  }

  /** The table without the starts before `cutoff`, except those of active refreshes. */
  function Recent(table: map<Token, real>, active: set<Token>, cutoff: real): map<Token, real> {
    map t | t in table && (t in active || table[t] >= cutoff) :: table[t]
  }

  /** A refresh may start if none is active for the token, its last start is long enough ago, and there is room. */
  predicate Allows(active: set<Token>, lastStart: Option<real>, t: Token, now: real) {
    t !in active && (lastStart.Some? ==> now - lastStart.value >= COOLDOWN) && |active| < MAX_CONCURRENT
  }

  /** `running` are the refreshes in flight and `clock` the time of the last request. */
  datatype State = State(
    active: set<Token>, table: map<Token, real>, clock: real,
    history: seq<Start>, running: map<nat, Token>, nextId: nat)
  {
    function Remembered(now: real): map<Token, real> {
      Recent(table, active, now - COOLDOWN)
    }

    /** The decision on the pruned table, where a token that is not there counts as started at time zero. */
    predicate TableAllows(t: Token, now: real) {
      var kept := Remembered(now);
      Allows(active, Some(if t in kept then kept[t] else 0.0), t, now)
    }

    /** The decision on everything that ever started. */
    predicate HistoryAllows(t: Token, now: real) {
      Allows(active, LastStart(history, t), t, now)
    }

    function Request(t: Token, now: real): State {
      var pruned := this.(table := Remembered(now), clock := now);
      if !TableAllows(t, now) then pruned
      else pruned.(
        active := active + {t}, table := pruned.table[t := now], history := history + [Start(t, now)],
        running := running[nextId := t], nextId := nextId + 1)
    }

    /** The refresh `id` ends, or its thread could not be started. */
    function Finish(id: nat): State {
      if id in running then this.(active := active - {running[id]}, running := running - {id}) else this
    }

    /** What the table says about `t` is the last start, or that start is outside the cooldown. */
    predicate TableSpeaksFor(t: Token) {
      var last := LastStart(history, t);
      if t in table then last == Some(table[t]) else last.Some? ==> last.value < clock - COOLDOWN
    }

    ghost predicate Valid() {
      && 0.0 <= clock
      && (forall i :: 0 <= i < |history| ==> 0.0 <= history[i].at <= clock)
      && (forall t :: TableSpeaksFor(t))
      && (forall i, j :: 0 <= i < j < |history| && history[i].token == history[j].token ==> history[j].at - history[i].at >= COOLDOWN)
      && (forall id :: id in running ==> id < nextId)
      && Injective(running)
      && active == running.Values && |active| <= MAX_CONCURRENT
    }
  }

  lemma {:induction false} LastStartIsLast(history: seq<Start>, t: Token, i: nat)
    requires i < |history| && history[i].token == t
    requires forall k, l :: 0 <= k < l < |history| && history[k].token == t && history[l].token == t ==> history[k].at <= history[l].at
    ensures LastStart(history, t).Some? && history[i].at <= LastStart(history, t).value
  {
    var k := |history| - 1;
    if history[k].token == t {
    } else {
      assert history[..k][i] == history[i];
      LastStartIsLast(history[..k], t, i);
    }
  }

  lemma {:induction false} LastStartIsOld(history: seq<Start>, t: Token, clock: real)
    requires 0.0 <= clock && forall i :: 0 <= i < |history| ==> 0.0 <= history[i].at <= clock
    ensures LastStart(history, t).Some? ==> 0.0 <= LastStart(history, t).value <= clock
  {
    if history == [] {
    } else {
      LastStartIsOld(history[..|history| - 1], t, clock);
    }
  }

  /** The decision in numbers: not active, fewer than two active ones, and at least thirty seconds since the last start. */
  lemma AllowsInNumbers(s: State, t: Token, now: real)
    ensures s.HistoryAllows(t, now)
       <==> && t !in s.active && |s.active| <= 1
            && match LastStart(s.history, t)
               case None => true
               case Some(at) => at + 30.0 <= now
  {
  }

  /** A request leaves in the table exactly the starts of active refreshes and of the last thirty seconds, and its own. */
  lemma RequestForgets(s: State, t: Token, now: real, x: Token)
    ensures var v := s.Request(t, now); var starts := |v.history| > |s.history|;
            && (x in v.table <==> (x == t && starts) || (x in s.table && (x in s.active || s.table[x] + 30.0 >= now)))
            && (x in v.table ==> v.table[x] == if x == t && starts then now else s.table[x])
  {
  }

  lemma StartIsLast(history: seq<Start>, s: Start, t: Token)
    ensures LastStart(history + [s], t) == if t == s.token then Some(s.at) else LastStart(history, t)
  {
    assert (history + [s])[..|history|] == history;
  }

  /**
   Forgetting old starts never changes a decision. The default start does, for a token that never
   started, exactly while the clock is within the cooldown of its own beginning.
   */
  lemma TableDecidesAsHistory(s: State, t: Token, now: real)
    requires s.Valid() && s.clock <= now
    ensures s.TableAllows(t, now) <==> s.HistoryAllows(t, now) && (LastStart(s.history, t).Some? || now >= COOLDOWN)
  {
    LastStartIsOld(s.history, t, s.clock);
    assert s.TableSpeaksFor(t);
  }

  lemma PruningKeepsTable(s: State, now: real, t: Token)
    requires s.Valid() && s.clock <= now
    ensures s.(table := s.Remembered(now), clock := now).TableSpeaksFor(t)
  {
    assert s.TableSpeaksFor(t);
  }

  lemma RequestSpaces(s: State, t: Token, now: real)
    requires s.Valid() && s.clock <= now && s.TableAllows(t, now)
    ensures forall i :: 0 <= i < |s.history| && s.history[i].token == t ==> now - s.history[i].at >= COOLDOWN
  {
    TableDecidesAsHistory(s, t, now);
    forall i | 0 <= i < |s.history| && s.history[i].token == t ensures now - s.history[i].at >= COOLDOWN {
      LastStartIsLast(s.history, t, i);
    }
  }

  predicate Injective(m: map<nat, Token>) {
    forall a, b :: a in m && b in m && a != b ==> m[a] != m[b]
  }

  lemma ValuesPlus(m: map<nat, Token>, k: nat, t: Token)
    requires k !in m
    ensures m[k := t].Values == m.Values + {t}
  {
    forall x ensures x in m[k := t].Values <==> x in m.Values || x == t {
      if x in m.Values {
        var j :| j in m && m[j] == x;
        assert m[k := t][j] == x;
      }
      if x == t {
        assert m[k := t][k] == t;
      }
    }
  }

  lemma InjectivePlus(m: map<nat, Token>, k: nat, t: Token)
    requires Injective(m) && k !in m && t !in m.Values
    ensures Injective(m[k := t])
  {
    forall a | a in m ensures m[a] != t {
      assert m[a] in m.Values;
    }
  }

  lemma ValuesMinus(m: map<nat, Token>, k: nat)
    requires k in m && Injective(m)
    ensures (m - {k}).Values == m.Values - {m[k]} && Injective(m - {k})
  {
    forall x ensures x in (m - {k}).Values <==> x in m.Values && x != m[k] {
      if x in m.Values && x != m[k] {
        var j :| j in m && m[j] == x;
        assert (m - {k})[j] == x;
      }
    }
  }

  lemma {:induction false} ValuesCount(m: map<nat, Token>)
    requires Injective(m)
    ensures |m.Values| == |m|
    decreases |m|
  {
    if m == map[] {
    } else {
      var k :| k in m;
      ValuesMinus(m, k);
      assert m[k] in m.Values;
      ValuesCount(m - {k});
    }
  }

  lemma RequestRuns(s: State, t: Token, now: real)
    requires s.Valid() && s.TableAllows(t, now)
    ensures var v := s.Request(t, now);
            Injective(v.running) && v.active == v.running.Values && forall id :: id in v.running ==> id < v.nextId
  {
    ValuesPlus(s.running, s.nextId, t);
    InjectivePlus(s.running, s.nextId, t);
  }

  lemma RequestKeepsValid(s: State, t: Token, now: real)
    requires s.Valid() && s.clock <= now
    ensures s.Request(t, now).Valid()
  {
    var v := s.Request(t, now);
    forall x ensures v.TableSpeaksFor(x) {
      PruningKeepsTable(s, now, x);
      StartIsLast(s.history, Start(t, now), x);
    }
    if s.TableAllows(t, now) {
      RequestSpaces(s, t, now);
      RequestRuns(s, t, now);
    }
  }

  lemma RunningIsActive(s: State)
    requires s.Valid()
    ensures |s.running| == |s.active|
  {
    ValuesCount(s.running);
  }

  lemma FinishKeepsValid(s: State, id: nat)
    requires s.Valid()
    ensures s.Finish(id).Valid()
  {
    var v := s.Finish(id);
    forall t ensures v.TableSpeaksFor(t) {
      assert s.TableSpeaksFor(t);
    }
    if id in s.running {
      ValuesMinus(s.running, id);
      assert s.running[id] in s.running.Values;
    }
  }

  datatype Event = Requested(token: Token, now: real) | Finished(id: nat)

  function Step(s: State, e: Event): State {
    match e
    case Requested(t, now) => s.Request(t, now)
    case Finished(id) => s.Finish(id)
  }

  const INITIAL := State({}, map[], 0.0, [], map[], 0)

  /** A run of requests at times that do not run backwards, and of endings. */
  ghost predicate Run(states: seq<State>, events: seq<Event>) {
    && |states| == |events| + 1 && states[0] == INITIAL
    && forall i :: 0 <= i < |events| ==>
         (events[i].Requested? ==> states[i].clock <= events[i].now) && states[i + 1] == Step(states[i], events[i])
  }

  lemma {:induction false} RunsAreValid(states: seq<State>, events: seq<Event>, i: nat)
    requires Run(states, events) && i < |states|
    ensures states[i].Valid()
  {
    if i == 0 {
    } else {
      RunsAreValid(states, events, i - 1);
      match events[i - 1]
      case Requested(t, now) => RequestKeepsValid(states[i - 1], t, now);
      case Finished(id) => FinishKeepsValid(states[i - 1], id);
    }
  }

  /**
   In every run at most two refreshes are in flight, never two for one token, two starts for
   one token are at least the cooldown apart, and every decision is the one that the full
   history would have given, but for first starts within the cooldown of the clock's beginning.
   */
  lemma RunsAreThrottled(states: seq<State>, events: seq<Event>, i: nat)
    requires Run(states, events) && i < |states|
    ensures var s := states[i];
            && |s.running| <= 2
            && Injective(s.running)
            && (forall j, k :: 0 <= j < k < |s.history| && s.history[j].token == s.history[k].token ==>
                  s.history[k].at - s.history[j].at >= 30.0)
    ensures i < |events| && events[i].Requested? ==>
              (states[i + 1].history == states[i].history + [Start(events[i].token, events[i].now)]
               <==> && states[i].HistoryAllows(events[i].token, events[i].now)
                    && (LastStart(states[i].history, events[i].token).Some? || events[i].now >= 30.0))
  {
    RunsAreValid(states, events, i);
    RunningIsActive(states[i]);
    if i < |events| && events[i].Requested? {
      TableDecidesAsHistory(states[i], events[i].token, events[i].now);
      if !states[i].TableAllows(events[i].token, events[i].now) {
        assert |states[i + 1].history| == |states[i].history|;
      }
    }
  }

  class Throttle {
    var active: set<Token>
    var startedAt: map<Token, real>
    ghost var state: State

    ghost predicate Valid() reads this {
      state.Valid() && active == state.active && startedAt == state.table
    }

    constructor ()
      ensures Valid() && state == INITIAL
    {
      active, startedAt, state := {}, map[], INITIAL;
    }

    /** Whether a refresh of `token` may start now; if so it is registered. */
    method Schedule(token: Token, now: real) returns (start: bool)
      requires Valid() && state.clock <= now
      modifies this
      ensures Valid() && state == old(state).Request(token, now)
      ensures start <==>
                && old(state).HistoryAllows(token, now)
                && (LastStart(old(state).history, token).Some? || now >= COOLDOWN)
    {
      TableDecidesAsHistory(state, token, now);
      RequestKeepsValid(state, token, now);
      state := state.Request(token, now);
      var kept := Recent(startedAt, active, now - COOLDOWN);
      var last := if token in kept then kept[token] else 0.0;
      if token in active || now - last < COOLDOWN || |active| >= MAX_CONCURRENT {
        startedAt := kept;
        return false;
      }
      active, startedAt := active + {token}, kept[token := now];
      return true;
    }

    /** The refresh has ended, or its thread could not be started. */
    method Discard(token: Token, ghost id: nat)
      requires Valid() && id in state.running && state.running[id] == token
      modifies this
      ensures Valid() && state == old(state).Finish(id)
    {
      FinishKeepsValid(state, id);
      state := state.Finish(id);
      active := active - {token};
    }
  }
}
