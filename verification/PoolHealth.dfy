/**
 The pool refresh loop: confirm stale normal accounts in small batches until a target is
 confirmed or nothing stale is left.
 */
module PoolHealth {
  import opened Options
  import opened TokenAliases
  import opened SlotPool
  import opened RemoteCheck
  import opened AccountPool

  const BATCH_SIZE := 10

  predicate Within(at: Option<int>, now: int, freshness: int) {
    at.Some? && now - at.value <= freshness
  }

  /** A normal account that was neither checked nor attempted within the freshness window. */
  predicate Stale(a: Account, now: int, freshness: int) {
    a.status.Normal? && !Within(a.checkedAt, now, freshness) && !Within(a.attemptedAt, now, freshness)
  }

  /** The two times of a stale account lie more than the window back, if there are any. */
  lemma StaleIsOld(a: Account, now: int, freshness: int)
    ensures Stale(a, now, freshness)
       <==> && a.status == Normal
            && (a.checkedAt == None || a.checkedAt.value < now - freshness)
            && (a.attemptedAt == None || a.attemptedAt.value < now - freshness)
  {
  }

  /** A normal account that was neither checked nor attempted since `t0`. */
  predicate Untouched(a: Account, t0: int) {
    && a.status.Normal?
    && (a.checkedAt.Some? ==> a.checkedAt.value < t0)
    && (a.attemptedAt.Some? ==> a.attemptedAt.value < t0)
  }

  function UntouchedKeys(p: Pool, t0: int): set<Token> {
    set t | t in p.accounts && Untouched(p.accounts[t], t0)
  }

  // ---- What one confirmation does to the untouched accounts ----

  lemma RefreshMovesUntouched(p: Pool, token: Token, offer: Grant, t0: int)
    requires Empty !in p.accounts && p.Resolved(token) in p.accounts
    ensures var (q, active) := Refreshed(p, token, offer);
            && Empty !in q.accounts && active in q.accounts && q.Resolved(active) == active
            && UntouchedKeys(q, t0) <= UntouchedKeys(p, t0) - {p.Resolved(token)} + {active}
  {
    assert p.Resolved(p.Resolved(token)) == p.Resolved(token);
  }

  lemma ChangeTouches(p: Pool, active: Token, change: Account -> Account, dropLimited: bool, t0: int)
    requires Empty !in p.accounts && active in p.accounts
    ensures var q := Changed(p, active, change, dropLimited);
            && Empty !in q.accounts
            && (active in q.accounts ==> q.accounts[active] == change(p.accounts[active]))
            && (!Untouched(change(p.accounts[active]), t0) ==> UntouchedKeys(q, t0) <= UntouchedKeys(p, t0) - {active})
            && (!dropLimited ==> active in q.accounts)
  {
    assert p.Resolved(active) == active;
  }

  lemma LandingTouches(p: Pool, active: Token, i: RemoteInfo, now: int, dropLimited: bool, t0: int)
    requires Empty !in p.accounts && active in p.accounts && t0 <= now
    ensures UntouchedKeys(Landed(p, active, i, now, dropLimited).0, t0) <= UntouchedKeys(p, t0) - {active}
  {
    ChangeTouches(p, active, a => CheckedOk(a, now), false, t0);
    var q := Changed(p, active, a => CheckedOk(a, now), false);
    ChangeTouches(q, active, a => Merged(a, i), dropLimited, t0);
  }

  lemma RetryTouches(p: Pool, active: Token, forced: Grant, reply: Reply, now: int, dropLimited: bool, t0: int)
    requires Empty !in p.accounts && active in p.accounts && t0 <= now
    ensures UntouchedKeys(Retried(p, active, forced, reply, now, false, dropLimited).0, t0) <= UntouchedKeys(p, t0) - {active}
  {
    assert p.Resolved(active) == active;
    RefreshMovesUntouched(p, active, forced, t0);
    var (q, again) := Refreshed(p, active, forced);
    ChangeTouches(q, again, a => SeenInvalid(a, now), false, t0);
    ChangeTouches(q, again, a => AttemptFailed(a, now), false, t0);
    if reply.Info? {
      LandingTouches(q, again, reply.info, now, dropLimited, t0);
    }
  }

  /** Whatever the remote side answers, a confirmation leaves its account touched and no other one newly untouched. */
  lemma ConfirmationTouches(p: Pool, token: Token, ans: Answer, now: int, dropLimited: bool, t0: int)
    requires Empty !in p.accounts && t0 <= now
    ensures UntouchedKeys(Fetched(p, token, ans, now, false, dropLimited).0, t0) <= UntouchedKeys(p, t0) - {token}
  {
    var t := p.Resolved(token);
    if t in p.accounts {
      RefreshMovesUntouched(p, token, ans.first, t0);
      var (q, active) := Refreshed(p, token, ans.first);
      ChangeTouches(q, active, a => AttemptFailed(a, now), false, t0);
      match ans.reply {
        case Info(i) => LandingTouches(q, active, i, now, dropLimited, t0);
        case Trouble =>
        case InvalidToken => RetryTouches(q, active, ans.forced, ans.retry, now, dropLimited, t0);
      }
      assert token in p.accounts ==> t == token;
    } else {
      assert Fetched(p, token, ans, now, false, dropLimited).0 == p;
    }
  }

  // ---- Metrics and stale tokens ----

  datatype Metrics = Metrics(currentQuota: nat, currentAvailable: nat)

  predicate ConfirmedNormal(a: Account, now: int, freshness: int) {
    a.status.Normal? && Within(a.checkedAt, now, freshness)
  }

  function QuotaOf(accounts: map<Token, Account>, tokens: seq<Token>): nat {
    if tokens == [] then 0
    else
      var t := tokens[0];
      (if t in accounts && !accounts[t].quotaUnknown then accounts[t].quota else 0) + QuotaOf(accounts, tokens[1..])
  }

  /** Only remotely confirmed accounts count towards a target. */
  function MetricsOf(p: Pool, now: int, freshness: int): Metrics {
    var confirmed := Select(p.order, t => t in p.accounts && ConfirmedNormal(p.accounts[t], now, freshness));
    Metrics(QuotaOf(p.accounts, confirmed), |confirmed|)
  }

  /** The account counts: normal, and checked no longer ago than the window. */
  predicate Counts(p: Pool, t: Token, now: int, freshness: int) {
    && t in p.accounts && p.accounts[t].status == Normal
    && p.accounts[t].checkedAt != None && now <= p.accounts[t].checkedAt.value + freshness
  }

  /** Known quotas of the accounts that count, added up over the keys. */
  function TotalQuota(p: Pool, keys: seq<Token>, now: int, freshness: int): nat {
    if keys == [] then 0
    else
      var rest, t := TotalQuota(p, keys[1..], now, freshness), keys[0];
      if Counts(p, t, now, freshness) && !p.accounts[t].quotaUnknown then p.accounts[t].quota + rest else rest
  }

  function HowMany(p: Pool, keys: seq<Token>, now: int, freshness: int): nat {
    if keys == [] then 0
    else HowMany(p, keys[1..], now, freshness) + if Counts(p, keys[0], now, freshness) then 1 else 0
  }

  lemma {:induction false} TotalsOfSelected(p: Pool, keys: seq<Token>, confirmed: Token -> bool, now: int, freshness: int)
    requires forall t :: confirmed(t) <==> Counts(p, t, now, freshness)
    ensures QuotaOf(p.accounts, Select(keys, confirmed)) == TotalQuota(p, keys, now, freshness)
    ensures |Select(keys, confirmed)| == HowMany(p, keys, now, freshness)
  {
    if keys == [] {
    } else {
      TotalsOfSelected(p, keys[1..], confirmed, now, freshness);
      var rest := Select(keys[1..], confirmed);
      assert ([keys[0]] + rest)[1..] == rest;
    }
  }

  /** The metrics are totals over the keys of the pool. */
  lemma MetricsAreTotals(p: Pool, now: int, freshness: int)
    ensures MetricsOf(p, now, freshness)
         == Metrics(TotalQuota(p, p.order, now, freshness), HowMany(p, p.order, now, freshness))
  {
    TotalsOfSelected(p, p.order, t => t in p.accounts && ConfirmedNormal(p.accounts[t], now, freshness), now, freshness);
  }

  function AtLeastOne(n: int): int {
    if n < 1 then 1 else n
  }

  predicate TargetReached(m: Metrics, targetQuota: Option<int>, targetAvailable: Option<int>) {
    || (targetQuota.Some? && m.currentQuota >= AtLeastOne(targetQuota.value))
    || (targetAvailable.Some? && m.currentAvailable >= AtLeastOne(targetAvailable.value))
  }

  /** A target below one is one: an empty count reaches none. */
  lemma ReachingIsExact(m: Metrics, targetQuota: Option<int>, targetAvailable: Option<int>)
    ensures TargetReached(m, targetQuota, targetAvailable)
       <==> || (targetQuota.Some? && m.currentQuota > 0 && m.currentQuota >= targetQuota.value)
            || (targetAvailable.Some? && m.currentAvailable > 0 && m.currentAvailable >= targetAvailable.value)
  {
  }

  function SortKey(accounts: map<Token, Account>, t: Token): int {
    if t in accounts && accounts[t].checkedAt.Some? then accounts[t].checkedAt.value else 0
  }

  /** Accounts are sorted by their last check; one that was never checked by the beginning of time. */
  lemma SortsByCheck(accounts: map<Token, Account>, t: Token)
    requires t in accounts
    ensures SortKey(accounts, t) == match accounts[t].checkedAt case None => 0 case Some(at) => at
  {
  }

  predicate SortedByCheck(accounts: map<Token, Account>, tokens: seq<Token>) {
    forall i, j :: 0 <= i < j < |tokens| ==> SortKey(accounts, tokens[i]) <= SortKey(accounts, tokens[j])
  }

  function Insert(accounts: map<Token, Account>, tokens: seq<Token>, t: Token): seq<Token> {
    if tokens == [] || SortKey(accounts, t) < SortKey(accounts, tokens[0]) then [t] + tokens
    else [tokens[0]] + Insert(accounts, tokens[1..], t)
  }

  lemma {:induction false} InsertAdds(accounts: map<Token, Account>, tokens: seq<Token>, t: Token)
    ensures forall x :: x in Insert(accounts, tokens, t) <==> x in tokens || x == t
    ensures Distinct(tokens) && t !in tokens ==> Distinct(Insert(accounts, tokens, t))
  {
    if tokens != [] && SortKey(accounts, tokens[0]) <= SortKey(accounts, t) {
      var rest := Insert(accounts, tokens[1..], t);
      InsertAdds(accounts, tokens[1..], t);
      assert tokens == [tokens[0]] + tokens[1..];
      if Distinct(tokens) && t !in tokens {
        forall i | 0 <= i < |rest| ensures rest[i] != tokens[0] {
          assert rest[i] in rest;
        }
      }
    }
  }

  lemma {:induction false} InsertSorts(accounts: map<Token, Account>, tokens: seq<Token>, t: Token)
    requires SortedByCheck(accounts, tokens)
    ensures SortedByCheck(accounts, Insert(accounts, tokens, t))
  {
    if tokens != [] && SortKey(accounts, tokens[0]) <= SortKey(accounts, t) {
      var rest := Insert(accounts, tokens[1..], t);
      InsertSorts(accounts, tokens[1..], t);
      InsertAdds(accounts, tokens[1..], t);
      forall i | 0 <= i < |rest| ensures SortKey(accounts, tokens[0]) <= SortKey(accounts, rest[i]) {
        assert rest[i] in rest;
      }
    }
  }

  /** The tokens of the stale accounts, the ones longest without a check first. */
  method StaleTokens(svc: AccountService, now: int, freshness: int) returns (stale: seq<Token>)
    requires svc.Valid()
    ensures forall t :: t in stale <==> t in svc.accounts && Stale(svc.accounts[t], now, freshness)
    ensures Distinct(stale) && SortedByCheck(svc.accounts, stale)
  {
    stale := [];
    for k := 0 to |svc.order|
      invariant forall t :: t in stale <==> t in svc.order[..k] && Stale(svc.accounts[t], now, freshness)
      invariant Distinct(stale) && SortedByCheck(svc.accounts, stale)
    {
      var t := svc.order[k];
      if Stale(svc.accounts[t], now, freshness) {
        InsertAdds(svc.accounts, stale, t);
        InsertSorts(svc.accounts, stale, t);
        stale := Insert(svc.accounts, stale, t);
      }
    }
    assert svc.order[..|svc.order|] == svc.order;
  }

  // ---- The loop ----

  /** The clock does not run backwards and the whole run fits in the freshness window. */
  ghost predicate WindowHolds(clock: nat -> int, freshness: int) {
    && (forall i, j :: i <= j ==> clock(i) <= clock(j))
    && (forall i :: clock(i) - clock(0) <= freshness)
  }

  lemma StaleIsUntouched(a: Account, clock: nat -> int, k: nat, freshness: int)
    requires WindowHolds(clock, freshness) && Stale(a, clock(k), freshness)
    ensures Untouched(a, clock(0))
  {
    assert clock(0) <= clock(k) && clock(k) - clock(0) <= freshness;
  }

  lemma DistinctTogether(a: seq<Token>, b: seq<Token>)
    requires Distinct(a) && Distinct(b) && forall t :: t in a ==> t !in b
    ensures Distinct(a + b)
  {
    forall i, j | 0 <= i < j < |a + b| ensures (a + b)[i] != (a + b)[j] {
      if i < |a| <= j {
        assert a[i] in a && b[j - |a|] in b;
      }
    }
  }

  /** One confirmation within a run that started at `t0`. */
  method Confirm(svc: AccountService, token: Token, answer: Answer, now: int, ghost t0: int) returns (outcome: Outcome)
    requires svc.Valid() && t0 <= now
    modifies svc
    ensures svc.Valid() && (token != Empty ==> Explains(answer, outcome))
    ensures UntouchedKeys(svc.world.pool, t0) <= UntouchedKeys(old(svc.world).pool, t0) - {token}
  {
    ConfirmationTouches(svc.world.pool, token, answer, now, svc.autoRemoveLimited, t0);
    outcome := svc.FetchRemoteInfo(token, answer, now, false, {}, {}, true, true, false);
  }

  function ConfirmedAmong(outcomes: seq<Outcome>): nat {
    if outcomes == [] then 0
    else ConfirmedAmong(outcomes[..|outcomes| - 1]) + if outcomes[|outcomes| - 1].Confirmed? then 1 else 0
  }

  /** The outcomes from `calls` on that are failures of their accounts. */
  function FailedAmong(outcomes: seq<Outcome>, tls: nat -> bool, calls: nat): nat {
    if outcomes == [] then 0
    else
      var k := |outcomes| - 1;
      FailedAmong(outcomes[..k], tls, calls) + if outcomes[k].Raised? && !tls(calls + k) then 1 else 0
  }

  ghost predicate AllExplained(outcomes: seq<Outcome>, answers: nat -> Answer, calls: nat) {
    forall k :: 0 <= k < |outcomes| ==> Explains(answers(calls + k), outcomes[k])
  }

  /** The tokens asked for: each once, in the order in which they are first named, and none that is empty. */
  function Asked(batch: seq<Token>): (tokens: seq<Token>)
    ensures Distinct(tokens) && forall t :: t in tokens <==> t in batch && t != Empty
  {
    if batch == [] then []
    else
      var front, last := Asked(batch[..|batch| - 1]), batch[|batch| - 1];
      if last == Empty || last in front then front else front + [last]
  }

  lemma {:induction false} AskedOnceEach(batch: seq<Token>)
    requires Distinct(batch) && Empty !in batch
    ensures Asked(batch) == batch
  {
    if batch == [] {
    } else {
      AskedOnceEach(batch[..|batch| - 1]);
    }
  }

  lemma OneMoreOutcome(outcomes: seq<Outcome>, last: Outcome, answers: nat -> Answer, tls: nat -> bool, calls: nat)
    requires AllExplained(outcomes, answers, calls) && Explains(answers(calls + |outcomes|), last)
    ensures var more := outcomes + [last];
            && AllExplained(more, answers, calls)
            && ConfirmedAmong(more) == ConfirmedAmong(outcomes) + (if last.Confirmed? then 1 else 0)
            && FailedAmong(more, tls, calls)
               == FailedAmong(outcomes, tls, calls) + if last.Raised? && !tls(calls + |outcomes|) then 1 else 0
  {
    assert (outcomes + [last])[..|outcomes|] == outcomes;
  }

  /**
   Confirms the accounts of one batch, in whatever order; `answers(calls..)` is what the remote side does, and
   `tls` says of which confirmations an error is one of the TLS connection, which is no failure of the account.
   */
  method RefreshAccounts(svc: AccountService, batch: seq<Token>, answers: nat -> Answer, tls: nat -> bool,
                         clock: nat -> int, calls: nat, ghost t0: int)
    returns (refreshed: nat, failed: nat, ghost outcomes: seq<Outcome>)
    requires svc.Valid() && forall i :: t0 <= clock(i)
    modifies svc
    ensures svc.Valid() && |outcomes| == |Asked(batch)| && AllExplained(outcomes, answers, calls)
    ensures refreshed == ConfirmedAmong(outcomes) && failed == FailedAmong(outcomes, tls, calls)
    ensures UntouchedKeys(svc.world.pool, t0) <= UntouchedKeys(old(svc.world).pool, t0)
    ensures forall t :: t in batch ==> t !in UntouchedKeys(svc.world.pool, t0)
  {
    refreshed, failed, outcomes := 0, 0, [];
    var tokens := Asked(batch);
    for k := 0 to |tokens|
      invariant svc.Valid() && |outcomes| == k && AllExplained(outcomes, answers, calls)
      invariant refreshed == ConfirmedAmong(outcomes) && failed == FailedAmong(outcomes, tls, calls)
      invariant UntouchedKeys(svc.world.pool, t0) <= UntouchedKeys(old(svc.world).pool, t0)
      invariant forall i :: 0 <= i < k ==> tokens[i] !in UntouchedKeys(svc.world.pool, t0)
    {
      assert tokens[k] in tokens;
      var outcome := Confirm(svc, tokens[k], answers(calls + k), clock(calls + k), t0);
      OneMoreOutcome(outcomes, outcome, answers, tls, calls);
      outcomes := outcomes + [outcome];
      if outcome.Confirmed? {
        refreshed := refreshed + 1;
      } else if !tls(calls + k) {
        failed := failed + 1;
      }
    }
  }

  /** Every confirmation is a success, a failure of its account, or an error of the connection. */
  lemma {:induction false} OutcomesAddUp(outcomes: seq<Outcome>, tls: nat -> bool, calls: nat)
    ensures ConfirmedAmong(outcomes) + FailedAmong(outcomes, tls, calls) <= |outcomes|
    ensures (forall i :: !tls(i)) ==> ConfirmedAmong(outcomes) + FailedAmong(outcomes, tls, calls) == |outcomes|
  {
    if outcomes == [] {
    } else {
      OutcomesAddUp(outcomes[..|outcomes| - 1], tls, calls);
    }
  }

  /** The stale accounts longest without a check, ten of them or all that there are. */
  ghost predicate RightBatch(p: Pool, now: int, freshness: int, batch: seq<Token>) {
    && Distinct(batch) && |batch| <= 10 && SortedByCheck(p.accounts, batch)
    && (forall t :: t in batch ==> t in p.accounts && Stale(p.accounts[t], now, freshness))
    && (forall t :: t in p.accounts && t !in batch && Stale(p.accounts[t], now, freshness) ==>
          |batch| == 10 && forall b :: b in batch ==> SortKey(p.accounts, b) <= SortKey(p.accounts, t))
  }

  /** The first stale tokens, as many as fit in a batch. */
  method NextBatch(svc: AccountService, now: int, freshness: int) returns (batch: seq<Token>)
    requires svc.Valid()
    ensures RightBatch(svc.world.pool, now, freshness, batch)
  {
    var stale := StaleTokens(svc, now, freshness);
    batch := if |stale| <= BATCH_SIZE then stale else stale[..BATCH_SIZE];
    forall t | t in svc.accounts && t !in batch && Stale(svc.accounts[t], now, freshness)
      ensures |batch| == 10 && forall b :: b in batch ==> SortKey(svc.accounts, b) <= SortKey(svc.accounts, t)
    {
      assert t in stale;
      var j :| 0 <= j < |stale| && stale[j] == t;
      assert |batch| <= j;
    }
  }

  lemma BatchIsUntouched(p: Pool, clock: nat -> int, k: nat, freshness: int, batch: seq<Token>)
    requires WindowHolds(clock, freshness) && RightBatch(p, clock(k), freshness, batch)
    ensures forall t :: t in batch ==> t in UntouchedKeys(p, clock(0))
  {
    forall t | t in batch ensures t in UntouchedKeys(p, clock(0)) {
      StaleIsUntouched(p.accounts[t], clock, k, freshness);
    }
  }

  /** One turn of the refresh loop: at `at` the pool `before` had missed the targets, and `batch` was confirmed, from answer `calls` on. */
  datatype Round = Round(before: Pool, at: int, batch: seq<Token>, calls: nat, outcomes: seq<Outcome>, after: Pool)

  ghost predicate RightRound(r: Round, answers: nat -> Answer, targetQuota: Option<int>, targetAvailable: Option<int>,
                             freshness: int)
  {
    && !TargetReached(MetricsOf(r.before, r.at, freshness), targetQuota, targetAvailable)
    && RefreshesBatch(r, answers, freshness)
  }

  ghost predicate RefreshesBatch(r: Round, answers: nat -> Answer, freshness: int) {
    && r.batch != [] && RightBatch(r.before, r.at, freshness, r.batch)
    && |r.outcomes| == |r.batch| && AllExplained(r.outcomes, answers, r.calls)
  }

  /** Confirms the next batch of stale accounts, if there are any. */
  method RefreshStale(svc: AccountService, answers: nat -> Answer, tls: nat -> bool, clock: nat -> int, tick: nat,
                      freshness: int)
    returns (size: nat, refreshed: nat, failed: nat, ghost r: Round)
    requires svc.Valid() && WindowHolds(clock, freshness)
    modifies svc
    ensures svc.Valid() && r.before == old(svc.world).pool && r.after == svc.world.pool && r.at == clock(tick)
    ensures r.calls == tick + 1
    ensures size == |r.batch| && refreshed == ConfirmedAmong(r.outcomes) && failed == FailedAmong(r.outcomes, tls, r.calls)
    ensures size == 0 ==>
              svc.world.pool == old(svc.world).pool && forall t :: t in svc.accounts ==> !Stale(svc.accounts[t], clock(tick), freshness)
    ensures size > 0 ==>
              && RefreshesBatch(r, answers, freshness)
              && UntouchedKeys(r.after, clock(0)) <= UntouchedKeys(r.before, clock(0))
              && forall t :: t in r.batch ==> t in UntouchedKeys(r.before, clock(0)) && t !in UntouchedKeys(r.after, clock(0))
  {
    ghost var before := svc.world.pool;
    var batch := NextBatch(svc, clock(tick), freshness);
    size, refreshed, failed, r := |batch|, 0, 0, Round(before, clock(tick), batch, tick + 1, [], before);
    if size > 0 {
      BatchIsUntouched(before, clock, tick, freshness, batch);
      AskedOnceEach(batch);
      var ok, bad, outcomes := RefreshAccounts(svc, batch, answers, tls, clock, tick + 1, clock(0));
      refreshed, failed, r := ok, bad, Round(before, clock(tick), batch, tick + 1, outcomes, svc.world.pool);
    }
  }

  /** The ticks of the clock that some rounds take: one for each round and one for each confirmation. */
  function Ticks(rounds: seq<Round>): nat {
    if rounds == [] then 0 else Ticks(rounds[..|rounds| - 1]) + 1 + |rounds[|rounds| - 1].batch|
  }

  /** The rounds lead from one pool to another, each at its time and with the answers that are next. */
  predicate RoundsLead(p: Pool, rounds: seq<Round>, q: Pool, clock: nat -> int) {
    if rounds == [] then p == q
    else
      var front, last := rounds[..|rounds| - 1], rounds[|rounds| - 1];
      && last.after == q && last.at == clock(Ticks(front)) && last.calls == Ticks(front) + 1
      && RoundsLead(p, front, last.before, clock)
  }

  function Fetches(rounds: seq<Round>): seq<Token> {
    if rounds == [] then [] else Fetches(rounds[..|rounds| - 1]) + rounds[|rounds| - 1].batch
  }

  function Successes(rounds: seq<Round>): nat {
    if rounds == [] then 0 else Successes(rounds[..|rounds| - 1]) + ConfirmedAmong(rounds[|rounds| - 1].outcomes)
  }

  function Failures(rounds: seq<Round>, tls: nat -> bool): nat {
    if rounds == [] then 0
    else
      var last := rounds[|rounds| - 1];
      Failures(rounds[..|rounds| - 1], tls) + FailedAmong(last.outcomes, tls, last.calls)
  }

  /** What the loop has done so far. */
  ghost predicate Recounts(rounds: seq<Round>, p: Pool, q: Pool, refreshed: nat, failed: nat, answers: nat -> Answer,
                           tls: nat -> bool, clock: nat -> int, targetQuota: Option<int>, targetAvailable: Option<int>, freshness: int)
  {
    && RoundsLead(p, rounds, q, clock)
    && (forall i :: 0 <= i < |rounds| ==> RightRound(rounds[i], answers, targetQuota, targetAvailable, freshness))
    && refreshed == Successes(rounds) && failed == Failures(rounds, tls)
  }

  lemma OneMoreRound(rounds: seq<Round>, p: Pool, refreshed: nat, failed: nat, r: Round, answers: nat -> Answer,
                     tls: nat -> bool, clock: nat -> int, targetQuota: Option<int>, targetAvailable: Option<int>, freshness: int)
    requires Recounts(rounds, p, r.before, refreshed, failed, answers, tls, clock, targetQuota, targetAvailable, freshness)
    requires RightRound(r, answers, targetQuota, targetAvailable, freshness)
    requires r.at == clock(Ticks(rounds)) && r.calls == Ticks(rounds) + 1
    ensures Recounts(rounds + [r], p, r.after, refreshed + ConfirmedAmong(r.outcomes),
                     failed + FailedAmong(r.outcomes, tls, r.calls), answers, tls, clock, targetQuota, targetAvailable,
                     freshness)
    ensures Fetches(rounds + [r]) == Fetches(rounds) + r.batch && Ticks(rounds + [r]) == Ticks(rounds) + 1 + |r.batch|
  {
    assert (rounds + [r])[..|rounds|] == rounds;
  }

  /** Every account was confirmed once, and was untouched before and is not now. */
  ghost predicate OnceEach(fetched: seq<Token>, start: set<Token>, left: set<Token>) {
    Distinct(fetched) && forall t :: t in fetched ==> t in start && t !in left
  }

  lemma OnceEachAndMore(fetched: seq<Token>, batch: seq<Token>, start: set<Token>, left: set<Token>, after: set<Token>)
    requires OnceEach(fetched, start, left) && left <= start && after <= left && Distinct(batch) && batch != []
    requires forall t :: t in batch ==> t in left && t !in after
    ensures OnceEach(fetched + batch, start, after) && after < left
  {
    DistinctTogether(fetched, batch);
    assert batch[0] in left && batch[0] !in after;
  }

  /**
   Refreshes until a target is reached or nothing is stale.  The loop ends on every sequence
   of remote answers, it never confirms an account twice, it goes on only while the targets are missed, and it
   gives up only when every normal account was checked or attempted within the window.
   */
  method EvaluateAccountPool(svc: AccountService, refreshStale: bool, targetQuota: Option<int>, targetAvailable: Option<int>,
                             freshness: int, clock: nat -> int, answers: nat -> Answer, tls: nat -> bool)
    returns (metrics: Metrics, refreshed: nat, failed: nat, at: int, ghost rounds: seq<Round>)
    requires svc.Valid() && WindowHolds(clock, freshness)
    modifies svc
    ensures svc.Valid()
    ensures metrics == MetricsOf(svc.world.pool, at, freshness)
    ensures !refreshStale ==> rounds == []
    ensures refreshStale ==>
              || TargetReached(metrics, targetQuota, targetAvailable)
              || forall t :: t in svc.accounts ==> !Stale(svc.accounts[t], at, freshness)
    ensures Recounts(rounds, old(svc.world).pool, svc.world.pool, refreshed, failed, answers, tls, clock, targetQuota,
                     targetAvailable, freshness)
    ensures at == clock(Ticks(rounds))
    ensures OnceEach(Fetches(rounds), UntouchedKeys(old(svc.world).pool, clock(0)), UntouchedKeys(svc.world.pool, clock(0)))
  {
    refreshed, failed, rounds := 0, 0, [];
    var ticks: nat := 0;
    ghost var start := UntouchedKeys(svc.world.pool, clock(0));
    ghost var left := start;
    while true
      invariant svc.Valid() && left == UntouchedKeys(svc.world.pool, clock(0)) && left <= start
      invariant Recounts(rounds, old(svc.world).pool, svc.world.pool, refreshed, failed, answers, tls, clock, targetQuota,
                         targetAvailable, freshness)
      invariant ticks == Ticks(rounds)
      invariant OnceEach(Fetches(rounds), start, left) && (refreshStale || rounds == [])
      decreases left
    {
      at := clock(ticks);
      metrics := MetricsOf(svc.Snapshot(), at, freshness);
      if !refreshStale || TargetReached(metrics, targetQuota, targetAvailable) {
        return;
      }
      var size, ok, bad, round := RefreshStale(svc, answers, tls, clock, ticks, freshness);
      if size == 0 {
        return;
      }
      OnceEachAndMore(Fetches(rounds), round.batch, start, left, UntouchedKeys(svc.world.pool, clock(0)));
      OneMoreRound(rounds, old(svc.world).pool, refreshed, failed, round, answers, tls, clock, targetQuota,
                   targetAvailable, freshness);
      refreshed, failed, rounds := refreshed + ok, failed + bad, rounds + [round];
      ticks := ticks + 1 + size;
      left := UntouchedKeys(svc.world.pool, clock(0));
    }
  }

  /** Without the window the loop's progress is lost: an account touched long enough ago is stale again. */
  lemma TouchedGetsStaleAgain(a: Account, t0: int, freshness: int)
    requires freshness >= 0 && a.status.Normal?
    ensures !Untouched(CheckedOk(a, t0), t0) && Stale(CheckedOk(a, t0), t0 + freshness + 1, freshness)
  {
  }
}
