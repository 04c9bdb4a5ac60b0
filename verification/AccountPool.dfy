/**
 The account pool service.  Every method that the source runs under its lock is one atomic
 step here; `Others` stands for whatever other callers do between two such steps.
 */
module AccountPool {
  import opened Options
  import opened Sequences
  import opened TokenAliases
  import opened SlotPool
  import opened SlotSafety
  import opened SlotChoice
  import opened SlotSharing
  import opened RemoteCheck
  import opened Confirmation

  const MAX_ATTEMPTS := 20

  /** One attempt of the preflight: the caller, the token it acquired a slot at, and how the confirmation ended. */
  datatype Attempt = Attempt(id: nat, token: Token, outcome: Outcome)

  datatype Verdict = Slot(token: Token) | Denied(why: Refusal) | StillWaiting

  datatype Turn = Stopped(pick: Pick) | Tried(token: Token, outcome: Outcome)

  /** The keys the answers from `k` on may bring in. */
  function OffersFrom(answers: seq<Answer>, k: nat): set<Token> {
    set i, t | k <= i < |answers| && t in Offers(answers[i]) :: t
  }

  /** No answer names a key that was pooled before, nor two the same; a refresh may be answered with the token it is for. */
  ghost predicate OffersAreNew(answers: seq<Answer>, used: set<Token>) {
    && (forall i :: 0 <= i < |answers| ==> Offers(answers[i]) !! used && Offer(answers[i].first) !! Offer(answers[i].forced))
    && (forall i, j :: 0 <= i < j < |answers| ==> Offers(answers[i]) !! Offers(answers[j]))
  }

  /** The stored accounts by token: a later entry wins, an entry without a token is dropped. */
  function Loaded(entries: seq<(Token, Account)>): map<Token, Account> {
    if entries == [] then map[]
    else
      var (t, a) := entries[|entries| - 1];
      var rest := Loaded(entries[..|entries| - 1]);
      if t == Empty then rest else rest[t := a]
  }

  /** The entry at `k` is the last with its token. */
  predicate LastOfToken(entries: seq<(Token, Account)>, k: nat) {
    k < |entries| && forall j :: k < j < |entries| ==> entries[j].0 != entries[k].0
  }

  /** An account is stored under a token exactly if that is not empty and some entry has it, and it is that of the last one. */
  lemma {:induction false} LoadedIsLast(entries: seq<(Token, Account)>, t: Token)
    ensures t in Loaded(entries) <==> t != Empty && exists k :: 0 <= k < |entries| && entries[k].0 == t
    ensures forall k: nat :: LastOfToken(entries, k) && entries[k].0 == t && t != Empty ==>
              t in Loaded(entries) && Loaded(entries)[t] == entries[k].1
  {
    if entries == [] {
    } else {
      var n := |entries| - 1;
      LoadedIsLast(entries[..n], t);
      forall k: nat | LastOfToken(entries, k) && entries[k].0 == t && t != Empty
        ensures t in Loaded(entries) && Loaded(entries)[t] == entries[k].1
      {
        if k < n {
          assert entries[n].0 != t && LastOfToken(entries[..n], k);
        }
      }
    }
  }

  lemma OffersSplit(answers: seq<Answer>, used: set<Token>, k: nat)
    requires OffersAreNew(answers, used) && k < |answers|
    ensures OffersFrom(answers, k) == OffersFrom(answers, k + 1) + Offer(answers[k].forced) + Offer(answers[k].first)
    ensures Offers(answers[k]) !! OffersFrom(answers, k + 1) && Offer(answers[k].first) !! Offer(answers[k].forced)
  {
    forall t ensures t in OffersFrom(answers, k) <==> t in OffersFrom(answers, k + 1) || t in Offers(answers[k]) {
      if t in OffersFrom(answers, k) {
        var i :| k <= i < |answers| && t in Offers(answers[i]);
        assert i == k || k + 1 <= i;
      }
    }
  }

  /** The account is confirmed, with the reported data. */
  predicate Reported(outcome: Outcome, info: RemoteInfo) {
    && outcome.Confirmed?
    && outcome.account.status == info.status && outcome.account.quota == info.quota
    && outcome.account.quotaUnknown == info.quotaUnknown && outcome.account.plan == info.plan
  }

  /** The answer accounts for the outcome of the confirmation it was given in. */
  predicate Explains(answer: Answer, outcome: Outcome) {
    match answer.reply
    case Info(info) => Reported(outcome, info)
    case Trouble => outcome.Raised?
    case InvalidToken => outcome.Raised? || (answer.retry.Info? && Reported(outcome, answer.retry.info))
  }

  /** The confirmed account can take the call. */
  predicate Fit(outcome: Outcome, matches: Filter) {
    outcome.Confirmed? && Servable(outcome.account) && matches(outcome.account)
  }

  predicate FoundLimited(outcome: Outcome) {
    outcome.Confirmed? && outcome.account.status == Limited
  }

  /** The tokens that an attempt was made with and confirmed under. */
  function TokensOf(a: Attempt): set<Token> {
    {a.token} + if a.outcome.Confirmed? then {a.outcome.token} - {Empty} else {}
  }

  /** All tokens of some attempts. */
  function TokensTried(attempts: seq<Attempt>): set<Token> {
    if attempts == [] then {} else TokensTried(attempts[..|attempts| - 1]) + TokensOf(attempts[|attempts| - 1])
  }

  function Callers(attempts: seq<Attempt>): set<nat> {
    if attempts == [] then {} else Callers(attempts[..|attempts| - 1]) + {attempts[|attempts| - 1].id}
  }

  /**
   The attempt `k` is made with a token not tried before by a caller of its own, has an outcome that its answer
   explains, and is the last if it is fit.
   */
  predicate ProperAttempt(attempts: seq<Attempt>, k: nat, answers: seq<Answer>, matches: Filter)
    requires k < |attempts| && k < |answers|
  {
    && attempts[k].token !in TokensTried(attempts[..k]) && attempts[k].id !in Callers(attempts[..k])
    && Explains(answers[k], attempts[k].outcome)
    && (k < |attempts| - 1 ==> !Fit(attempts[k].outcome, matches))
  }

  /** The attempts of one preflight are all proper. */
  ghost predicate Attempted(attempts: seq<Attempt>, answers: seq<Answer>, matches: Filter) {
    && |attempts| <= |answers|
    && (forall k :: 0 <= k < |attempts| ==> ProperAttempt(attempts, k, answers, matches))
  }

  ghost predicate EndsFit(attempts: seq<Attempt>, matches: Filter) {
    attempts != [] && Fit(attempts[|attempts| - 1].outcome, matches)
  }

  predicate SomeLimited(attempts: seq<Attempt>) {
    exists i :: 0 <= i < |attempts| && FoundLimited(attempts[i].outcome)
  }

  predicate AllFoundLimited(attempts: seq<Attempt>) {
    forall i :: 0 <= i < |attempts| ==> FoundLimited(attempts[i].outcome)
  }

  /**
   What the verdict says. A token is that of the last attempt, which is fit. A refusal without an attempt is the
   scheduler's; one after attempts comes only when they are used up or no other account serves, and says the quota is
   spent exactly if every attempt found it so. Waiting goes on only while every account that serves is full.
   */
  ghost predicate RightVerdict(verdict: Verdict, attempts: seq<Attempt>, p: Pool, matches: Filter, cap: nat) {
    && (verdict.Slot? <==> EndsFit(attempts, matches))
    && match verdict
       case Slot(t) =>
         var last := attempts[|attempts| - 1];
         t == if last.outcome.token != Empty then last.outcome.token else last.token
       case Denied(why) =>
         if attempts == [] then RightChoice(p, {}, matches, cap, Refused(why))
         else
           && (|attempts| == 20 || NoneServes(p, TokensTried(attempts), matches))
           && (why.QuotaExhausted? <==> AllFoundLimited(attempts))
       case StillWaiting => |attempts| < 20 && RightChoice(p, TokensTried(attempts), matches, cap, Busy)
  }

  lemma TriedOneMore(attempts: seq<Attempt>, a: Attempt)
    ensures TokensTried(attempts + [a]) == TokensTried(attempts) + TokensOf(a)
    ensures SomeLimited(attempts + [a]) <==> SomeLimited(attempts) || FoundLimited(a.outcome)
    ensures AllFoundLimited(attempts + [a]) <==> AllFoundLimited(attempts) && FoundLimited(a.outcome)
  {
    var more := attempts + [a];
    assert more[..|attempts|] == attempts && more[|attempts|] == a;
    assert forall i :: 0 <= i < |attempts| ==> more[i] == attempts[i];
  }

  /** What the preflight knows after some attempts, none of them fit. */
  ghost predicate Tallied(attempts: seq<Attempt>, answers: seq<Answer>, matches: Filter, tried: set<Token>,
                          sawLimited: bool, sawFailure: bool)
  {
    && Attempted(attempts, answers, matches) && !EndsFit(attempts, matches)
    && tried == TokensTried(attempts) && (attempts == [] <==> tried == {})
    && sawLimited == SomeLimited(attempts) && !sawFailure == AllFoundLimited(attempts)
  }

  lemma OneMoreAttempt(attempts: seq<Attempt>, answers: seq<Answer>, matches: Filter, tried: set<Token>,
                       sawLimited: bool, sawFailure: bool, a: Attempt)
    requires Tallied(attempts, answers, matches, tried, sawLimited, sawFailure) && |attempts| < |answers|
    requires a.id !in Callers(attempts) && a.token !in tried && Explains(answers[|attempts|], a.outcome)
    ensures var more := attempts + [a];
            && Attempted(more, answers, matches) && (EndsFit(more, matches) <==> Fit(a.outcome, matches))
            && more[|more| - 1] == a && Callers(more) == Callers(attempts) + {a.id}
            && Callers(more) - {a.id} == Callers(attempts)
            && (!Fit(a.outcome, matches) ==>
                  var limited := FoundLimited(a.outcome);
                  Tallied(more, answers, matches, tried + TokensOf(a), sawLimited || limited, sawFailure || !limited))
  {
    var more := attempts + [a];
    TriedOneMore(attempts, a);
    forall k | 0 <= k < |more| ensures ProperAttempt(more, k, answers, matches) {
      if k < |attempts| {
        assert more[..k] == attempts[..k] && more[k] == attempts[k];
        assert ProperAttempt(attempts, k, answers, matches);
      } else {
        assert more[..k] == attempts;
      }
    }
  }

  /**
   What an image result does to its account. A local count that reaches zero only makes the quota
   unknown; a success of an account thought to be limited makes it normal again.
   */
  function Imaged(a: Account, success: bool): Account {
    if !success then a
    else
      var counted := if a.quotaUnknown then a
                     else a.(quota := if a.quota == 0 then 0 else a.quota - 1, quotaUnknown := a.quota <= 1);
      if a.status.Limited? then counted.(status := Normal, quotaUnknown := true) else counted
  }

  /** A success takes one off a known quota, which is unknown from there on if that was the last; a failure changes nothing. */
  lemma ImageResultIsExact(a: Account, success: bool)
    ensures Imaged(a, false) == a
    ensures Imaged(a, true)
         == Account(if a.status == Limited then Normal else a.status,
                    if !a.quotaUnknown && a.quota > 0 then a.quota - 1 else a.quota,
                    a.quotaUnknown || a.quota < 2 || a.status == Limited, a.plan, a.source, a.checkedAt, a.attemptedAt)
  {
  }

  /** Where a token first stands among the stored accounts. */
  function FirstAt(entries: seq<(Token, Account)>, t: Token): (k: nat)
    ensures k <= |entries|
  {
    if entries == [] || entries[0].0 == t then 0 else 1 + FirstAt(entries[1..], t)
  }

  lemma {:induction false} FirstAtGrows(entries: seq<(Token, Account)>, k: nat, t: Token)
    requires k < |entries|
    ensures FirstAt(entries[..k + 1], t)
         == if FirstAt(entries[..k], t) < k then FirstAt(entries[..k], t) else if entries[k].0 == t then k else k + 1
  {
    if k == 0 {
      assert entries[..1][1..] == [] && entries[..0] == [];
    } else {
      FirstAtGrows(entries[1..], k - 1, t);
      assert entries[..k][1..] == entries[1..][..k - 1] && entries[..k + 1][1..] == entries[1..][..k];
    }
  }

  /** The tokens stand in the order in which the entries first name them. */
  predicate InOrder(entries: seq<(Token, Account)>, order: seq<Token>) {
    && (forall i :: 0 <= i < |order| ==> FirstAt(entries, order[i]) < |entries|)
    && (forall i, j :: 0 <= i < j < |order| ==> FirstAt(entries, order[i]) < FirstAt(entries, order[j]))
  }

  lemma OrderStays(entries: seq<(Token, Account)>, k: nat, order: seq<Token>)
    requires k < |entries| && InOrder(entries[..k], order)
    ensures InOrder(entries[..k + 1], order)
  {
    forall i | 0 <= i < |order| ensures FirstAt(entries[..k + 1], order[i]) == FirstAt(entries[..k], order[i]) {
      FirstAtGrows(entries, k, order[i]);
    }
  }

  lemma OrderGrows(entries: seq<(Token, Account)>, k: nat, order: seq<Token>)
    requires k < |entries| && InOrder(entries[..k], order) && FirstAt(entries[..k], entries[k].0) == k
    ensures InOrder(entries[..k + 1], order + [entries[k].0])
  {
    var more := order + [entries[k].0];
    forall i | 0 <= i < |order| ensures FirstAt(entries[..k + 1], more[i]) == FirstAt(entries[..k], order[i]) {
      FirstAtGrows(entries, k, order[i]);
    }
    FirstAtGrows(entries, k, entries[k].0);
  }

  /** From `w` to `v` no callers but these have come to hold slots. */
  predicate AddsAtMost(w: World, v: World, ids: set<nat>) {
    forall id :: id in v.holders ==> id in w.holders || id in ids
  }

  /** A rotation that changes the key, field by field. */
  lemma RotatedParts(p: Pool, token: Token, renewed: Token, counts: map<Token, nat>)
    requires p.Resolved(token) in p.accounts && renewed != Empty && renewed != p.Resolved(token)
    requires var t := p.Resolved(token); var rest := p.inflight - {t};
             counts == if p.Inflight(t) == 0 then rest
                       else rest[renewed := (if renewed in rest then rest[renewed] else 0) + p.Inflight(t)]
    ensures var t := p.Resolved(token); var left := p.accounts - {t};
            p.Rotated(token, renewed)
            == Pool(KeyOrder(Without(p.order, In({t})), left.Keys, renewed), left[renewed := p.accounts[t]],
                    p.aliases[t := renewed], counts, p.index)
  {
  }

  class AccountService {
    const cap: nat
    const autoRemoveInvalid: bool
    const autoRemoveLimited: bool

    var order: seq<Token>
    var accounts: map<Token, Account>
    var aliases: Aliases
    var inflight: map<Token, nat>
    var index: nat

    /** The pool together with its callers. */
    ghost var world: World

    function Snapshot(): Pool reads this {
      Pool(order, accounts, aliases, inflight, index)
    }

    /** The fields are what `world` says, and the key order lists the accounts. */
    ghost predicate Valid() reads this {
      world.pool == Snapshot() && world.pool.Indexed()
    }

    /** The dictionary over the stored accounts. */
    static method LoadAccounts(entries: seq<(Token, Account)>) returns (order: seq<Token>, accounts: map<Token, Account>)
      ensures accounts == Loaded(entries) && Empty !in accounts
      ensures Distinct(order) && (forall t :: t in order <==> t in accounts) && InOrder(entries, order)
    {
      order, accounts := [], map[];
      for k := 0 to |entries|
        invariant accounts == Loaded(entries[..k]) && Empty !in accounts
        invariant Distinct(order) && (forall t :: t in order <==> t in accounts) && InOrder(entries[..k], order)
        invariant forall t :: t in accounts <==> t != Empty && FirstAt(entries[..k], t) < k
      {
        assert entries[..k + 1][..k] == entries[..k];
        var (t, a) := entries[k];
        forall x ensures FirstAt(entries[..k + 1], x) < k + 1 <==> FirstAt(entries[..k], x) < k || x == t {
          FirstAtGrows(entries, k, x);
        }
        OrderStays(entries, k, order);
        if t != Empty {
          if t !in accounts {
            OrderGrows(entries, k, order);
          }
          order, accounts := KeyOrder(order, accounts.Keys, t), accounts[t := a];
        }
      }
      assert entries[..|entries|] == entries;
    }

    constructor (loaded: seq<(Token, Account)>, concurrency: int, removeInvalid: bool, removeLimited: bool)
      ensures Valid() && Initial(world) && world.Safe(cap)
      ensures cap == if concurrency >= 1 then concurrency else 1
      ensures autoRemoveInvalid == removeInvalid && autoRemoveLimited == removeLimited
      ensures accounts == Loaded(loaded) && InOrder(loaded, order)
    {
      cap := if concurrency >= 1 then concurrency else 1;
      autoRemoveInvalid, autoRemoveLimited := removeInvalid, removeLimited;
      var keys, items := LoadAccounts(loaded);
      order, accounts, aliases, inflight, index := keys, items, map[], map[], 0;
      world := World(Pool(keys, items, map[], map[], 0), map[], map[], items.Keys, 0);
      new;
      InitialIsSafe(world, cap);
    }

    /**
     Why no candidate is ready: the quota is spent exactly when some account matches and every
     one that does is rate limited.
     */
    method NoReadyCandidate(excluded: set<Token>, matches: Filter) returns (why: Refusal)
      requires Valid()
      ensures why.QuotaExhausted? <==> Snapshot().AllLimited(excluded, matches)
    {
      var matched, limited := 0, 0;
      for k := 0 to |order|
        invariant 0 <= limited <= matched
        invariant matched > 0 <==> exists i :: 0 <= i < k && Snapshot().Matched(order[i], excluded, matches)
        invariant limited == matched <==>
                  forall i :: 0 <= i < k && Snapshot().Matched(order[i], excluded, matches) ==> accounts[order[i]].status.Limited?
      {
        var t := order[k];
        if t != Empty && t !in excluded && matches(accounts[t]) {
          matched := matched + 1;
          if accounts[t].status == Limited {
            limited := limited + 1;
          }
        }
      }
      if matched > 0 && limited == matched {
        why := QuotaExhausted;
        forall t | t in accounts && Snapshot().Matched(t, excluded, matches) ensures accounts[t].status.Limited? {
          assert t in order;
        }
      } else {
        why := Unavailable;
        if matched == 0 {
          forall t | t in accounts ensures !Snapshot().Matched(t, excluded, matches) {
            assert t in order;
          }
        }
      }
    }

    /** The next caller takes a slot at `token`. */
    method TakeSlot(token: Token)
      requires Valid()
      modifies this
      ensures Valid() && world == old(world).Grant(token)
      ensures order == old(order) && accounts == old(accounts) && aliases == old(aliases) && index == old(index) + 1
      ensures inflight == old(inflight)[token := 1 + if token in old(inflight) then old(inflight)[token] else 0]
    {
      world := world.Grant(token);
      index := index + 1;
      inflight := inflight[token := (if token in inflight then inflight[token] else 0) + 1];
    }

    /** One turn of the acquiring loop. */
    method TryAcquire(excluded: set<Token>, matches: Filter) returns (pick: Pick)
      requires Valid()
      modifies this
      ensures Valid()
      ensures pick == old(world).pool.Choice(excluded, matches, cap)
      ensures RightChoice(old(world).pool, excluded, matches, cap, pick)
      ensures world == if pick.Granted? then old(world).Grant(pick.token) else old(world)
    {
      var ready := Snapshot().Ready(excluded, matches);
      var tokens := Snapshot().Candidates(excluded, matches, cap);
      if ready == [] {
        var why := NoReadyCandidate(excluded, matches);
        pick := Refused(why);
      } else if tokens == [] {
        pick := Busy;
      } else {
        pick := Granted(tokens[index % |tokens|]);
      }
      ChoiceIsExact(world.pool, excluded, matches, cap, pick);
      if pick.Granted? {
        TakeSlot(pick.token);
      }
    }

    /** A caller gives its slot back under the token it acquired. */
    method ReleaseImageSlot(accessToken: Token, ghost id: nat)
      requires Valid()
      requires id in world.holders || id in world.voided
      requires (id in world.holders ==> world.holders[id] == accessToken)
      requires (id !in world.holders ==> world.voided[id] == accessToken)
      modifies this
      ensures Valid()
      ensures world == old(world).Return(id)
    {
      world := world.Return(id);
      if accessToken != Empty {
        var token := ResolveAccessToken(accounts.Keys, aliases, accessToken);
        var current := if token in inflight then inflight[token] else 0;
        if current <= 1 {
          inflight := inflight - {token};
        } else {
          inflight := inflight[token := current - 1];
        }
      }
    }

    /** The answer of a refresh grant is applied to the account that `accessToken` stands for now. */
    method ApplyRefreshedTokens(accessToken: Token, answered: Token) returns (token: Token)
      requires Valid()
      modifies this
      ensures Valid()
      ensures world == old(world).Rotate(accessToken, answered)
      ensures var t := old(world).pool.Resolved(accessToken);
              token == if t !in old(accounts) || answered == Empty then t else answered
    {
      ghost var rotated := world.Rotate(accessToken, answered);
      RotatedKeepsIndexed(world.pool, accessToken, answered);
      var oldToken := ResolveAccessToken(accounts.Keys, aliases, accessToken);
      token := if oldToken !in accounts || answered == Empty then oldToken else answered;
      if oldToken in accounts && token != oldToken {
        var account := accounts[oldToken];
        var counts := inflight - {oldToken};
        var moved := if oldToken in inflight then inflight[oldToken] else 0;
        if moved != 0 {
          counts := counts[token := (if token in counts then counts[token] else 0) + moved];
        }
        var left := accounts - {oldToken};
        RotatedParts(world.pool, accessToken, token, counts);
        order, accounts := KeyOrder(Without(order, In({oldToken})), left.Keys, token), left[token := account];
        aliases, inflight := aliases[oldToken := token], counts;
      }
      world := rotated;
    }

    /** Deleting accounts voids the slots that are out on them. */
    method DeleteAccounts(tokens: set<Token>) returns (removed: nat)
      requires Valid()
      modifies this
      ensures Valid()
      ensures world == old(world).Delete(tokens)
      ensures removed == |old(world).pool.Targets(tokens) * old(accounts).Keys|
    {
      ghost var next := world.Delete(tokens);
      DeletedKeepsIndexed(world.pool, tokens);
      var gone := Snapshot().Targets(tokens);
      removed := |gone * accounts.Keys|;
      var left := accounts - gone;
      order, accounts := Without(order, In(gone)), left;
      inflight := inflight - gone;
      aliases := Pruned(aliases, gone);
      if removed > 0 {
        index := if left == map[] then 0 else index % |left|;
      }
      world := next;
    }

    /** Writes back a change of the account; a rate limited one may be removed instead. */
    method UpdateAccount(accessToken: Token, change: Account -> Account, dropLimited: bool) returns (updated: Option<(Token, Account)>)
      requires Valid()
      modifies this
      ensures Valid()
      ensures world == old(world).(pool := Changed(old(world).pool, accessToken, change, dropLimited))
      ensures var t := old(world).pool.Resolved(accessToken);
              updated == if accessToken != Empty && t in accounts then Some((t, accounts[t])) else None
    {
      ghost var changed := world.(pool := Changed(world.pool, accessToken, change, dropLimited));
      var token := ResolveAccessToken(accounts.Keys, aliases, accessToken);
      if accessToken == Empty || token !in accounts {
        return None;
      }
      var account := change(accounts[token]);
      RevisedKeepsIndexed(world.pool, accessToken, account, dropLimited);
      world := changed;
      if account.status == Limited && dropLimited {
        order, accounts := Without(order, In({token})), accounts - {token};
        return None;
      }
      order, accounts := KeyOrder(order, accounts.Keys, token), accounts[token := account];
      return Some((token, account));
    }

    // ---- Several atomic steps, with other callers in between ----

    /**
     Other callers take any number of steps.  They release none of the slots `mine`, bring in
     none of the keys `reserved`, delete nothing when `quiet` and do nothing when `alone`.
     Callers of this method learn no more than that.
     */
    method Others(ghost mine: set<nat>, ghost reserved: set<Token>, ghost quiet: bool, ghost alone: bool)
      requires Valid()
      modifies this
      ensures Valid()
      ensures OthersLead(old(world), world, mine, reserved, quiet, cap)
      ensures alone ==> world == old(world)
    {
      ghost var ws: seq<World>, ops: seq<Op> := [world], [];
      assert OthersRun(ws, ops, mine, reserved, quiet, cap) && ws[0] == world && ws[|ops|] == world;
    }

    /** The same while this caller has the refresh lock. */
    method OthersWaiting(ghost mine: set<nat>, ghost reserved: set<Token>, ghost quiet: bool, ghost alone: bool)
      requires Valid()
      modifies this
      ensures Valid()
      ensures OthersWait(old(world), world, mine, reserved, quiet, cap)
      ensures alone ==> world == old(world)
    {
      ghost var ws: seq<World>, ops: seq<Op> := [world], [];
      assert OthersRun(ws, ops, mine, reserved, quiet, cap) && ws[0] == world && ws[|ops|] == world;
    }

    /** The refresh before a query, all of it under the refresh lock: `offer` is what the refresh grant would answer. */
    method RefreshAccessToken(accessToken: Token, offer: Grant, ghost mine: set<nat>, ghost reserved: set<Token>,
                              ghost quiet: bool, ghost alone: bool, ghost tracked: bool) returns (token: Token)
      requires Valid()
      requires tracked ==> Trackable(mine, reserved + Offer(offer)) && reserved !! Offer(offer)
      modifies this
      ensures Valid()
      ensures alone ==> world.holders == old(world).holders
      ensures alone ==> (world.pool, token) == Refreshed(old(world).pool, accessToken, offer)
      ensures tracked ==> Relies(old(world), world, mine, reserved, quiet, cap)
      ensures tracked ==> Carries(old(world), accessToken, world, token, mine, quiet)
    {
      ghost var w0 := world;
      var resolved := ResolveAccessToken(accounts.Keys, aliases, accessToken);
      if resolved !in accounts {
        if tracked { StayingReliesOnAll(w0, mine, reserved, quiet, cap); }
        return accessToken;
      }
      OthersWaiting(mine, reserved + Offer(offer), quiet, alone);
      ghost var w1 := world;
      match offer {
        case NoGrant => token := resolved;
        case Unchanged => token := ApplyRefreshedTokens(resolved, resolved);
        case Named(answered) => token := ApplyRefreshedTokens(resolved, answered);
      }
      if tracked {
        AnswerIsFollowed(w0, w1, accessToken, offer, mine, reserved, quiet, cap);
      }
    }

    /** What the callers `mine` need for their slots to be followed. */
    ghost predicate Trackable(mine: set<nat>, reserved: set<Token>) reads this {
      && world.Safe(cap) && Valid()
      && (forall id :: id in mine ==> id < world.nextId)
      && reserved !! world.used
    }

    /** Others take their steps, then the account is changed; `known` is the key it was found under. */
    method Record(token: Token, change: Account -> Account, dropLimited: bool, ghost mine: set<nat>, ghost reserved: set<Token>,
                  ghost quiet: bool, ghost alone: bool, ghost tracked: bool)
      returns (updated: Option<(Token, Account)>, ghost known: Token)
      requires Valid()
      requires tracked ==> Trackable(mine, reserved)
      modifies this
      ensures Valid()
      ensures alone ==> world.holders == old(world).holders && known == old(world).pool.Resolved(token)
      ensures alone ==> world.pool == Changed(old(world).pool, token, change, dropLimited)
      ensures tracked ==> Relies(old(world), world, mine, reserved, quiet, cap)
      ensures tracked ==> Carries(old(world), token, world, known, mine, quiet)
      ensures updated == if token != Empty && known in accounts then Some((known, accounts[known])) else None
      ensures updated.Some? ==> exists a :: updated.value.1 == change(a)
    {
      ghost var w0 := world;
      Others(mine, reserved, quiet, alone);
      known := world.pool.Resolved(token);
      if tracked {
        ChangeIsFollowed(w0, world, token, change, dropLimited, mine, reserved, quiet, cap);
      }
      updated := UpdateAccount(token, change, dropLimited);
    }

    /** A successful query: the check is recorded, then the reported data is written back. */
    method Land(active: Token, info: RemoteInfo, now: int, ghost mine: set<nat>, ghost reserved: set<Token>,
                ghost quiet: bool, ghost alone: bool, ghost tracked: bool) returns (outcome: Outcome)
      requires Valid()
      requires tracked ==> Trackable(mine, reserved)
      modifies this
      ensures Valid() && Reported(outcome, info)
      ensures alone ==> world.holders == old(world).holders
      ensures alone ==> (world.pool, outcome) == Landed(old(world).pool, active, info, now, autoRemoveLimited)
      ensures tracked ==> Relies(old(world), world, mine, reserved, false, cap)
      ensures tracked ==> Carries(old(world), active, world, outcome.token, mine, quiet)
    {
      ghost var w0 := world;
      var checked, _ := Record(active, a => CheckedOk(a, now), false, mine, reserved, quiet, alone, tracked);
      ghost var w1 := world;
      var updated, known := Record(active, a => Merged(a, info), autoRemoveLimited, mine, reserved, quiet, alone, tracked);
      outcome := match updated case Some((t, a)) => Confirmed(t, a) case None => Confirmed(active, Detached(info));
      if tracked {
        RelyCarries(w0, w1, active, mine, reserved, quiet, cap);
        RelyCarries(w1, world, active, mine, reserved, quiet, cap);
        CarriesCompose(w0, active, w1, active, world, outcome.token, mine, reserved, quiet, cap);
      }
    }

    /** A query that failed for another reason than an invalid token. */
    method Note(active: Token, now: int, ghost mine: set<nat>, ghost reserved: set<Token>,
                ghost quiet: bool, ghost alone: bool, ghost tracked: bool)
      requires Valid()
      requires tracked ==> Trackable(mine, reserved)
      modifies this
      ensures Valid()
      ensures alone ==> world.holders == old(world).holders
      ensures alone ==> world.pool == Noted(old(world).pool, active, now)
      ensures tracked ==> Relies(old(world), world, mine, reserved, false, cap)
    {
      ghost var w0 := world;
      var noted, _ := Record(active, a => AttemptFailed(a, now), false, mine, reserved, quiet, alone, tracked);
      if tracked {
        ReliesOnLess(w0, world, mine, reserved, reserved, quiet, cap);
      }
    }

    /** An invalid token: the account is recorded as abnormal and, when so configured, deleted. */
    method Condemn(active: Token, now: int, remove: bool, ghost mine: set<nat>, ghost reserved: set<Token>,
                   ghost quiet: bool, ghost alone: bool, ghost tracked: bool)
      requires Valid()
      requires tracked ==> Trackable(mine, reserved)
      modifies this
      ensures Valid()
      ensures alone ==> world.holders.Keys <= old(world).holders.Keys
      ensures alone ==> world.pool == Condemned(old(world).pool, active, now, remove)
      ensures tracked ==> Relies(old(world), world, mine, reserved, false, cap)
    {
      ghost var w0 := world;
      var seen, _ := Record(active, a => SeenInvalid(a, now), false, mine, reserved, quiet, alone, tracked);
      ghost var w1 := world;
      if tracked {
        ReliesOnLess(w0, w1, mine, reserved, reserved, quiet, cap);
      }
      if remove {
        Remove(active, mine, reserved, quiet, alone, tracked);
        if tracked {
          RelyComposes(w0, w1, world, mine, reserved, false, cap);
        }
      }
    }

    /** Deletes the account of an invalid token, or marks it when there is none to delete. */
    method Remove(active: Token, ghost mine: set<nat>, ghost reserved: set<Token>,
                  ghost quiet: bool, ghost alone: bool, ghost tracked: bool)
      requires Valid()
      requires tracked ==> Trackable(mine, reserved)
      modifies this
      ensures Valid()
      ensures alone ==> world.holders.Keys <= old(world).holders.Keys
      ensures alone ==> world.pool == Removed(old(world).pool, active)
      ensures tracked ==> Relies(old(world), world, mine, reserved, false, cap)
    {
      ghost var w0 := world;
      Others(mine, reserved, quiet, alone);
      ghost var w1 := world;
      var removed := DeleteAccounts({active});
      ghost var w2 := world;
      if tracked {
        OthersGiveRely(w0, w1, mine, reserved, quiet, cap);
        ReliesOnLess(w0, w1, mine, reserved, reserved, quiet, cap);
        OwnDeletionIsFollowed(w1, {active}, mine, reserved, cap);
        RelyComposes(w0, w1, w2, mine, reserved, false, cap);
      }
      if removed == 0 {
        var marked := UpdateAccount(active, a => MarkedAbnormal(a), false);
        if tracked {
          OwnChangeIsFollowed(w2, active, a => MarkedAbnormal(a), false, mine, reserved, false, cap);
          RelyComposes(w0, w2, world, mine, reserved, false, cap);
        }
      }
    }

    /** Remote confirmation of the account that `accessToken` stands for. */
    method FetchRemoteInfo(accessToken: Token, answer: Answer, now: int, remove: bool, ghost mine: set<nat>,
                           ghost reserved: set<Token>, ghost quiet: bool, ghost alone: bool, ghost tracked: bool)
      returns (outcome: Outcome)
      requires Valid()
      requires tracked ==> Trackable(mine, reserved + Offer(answer.forced) + Offer(answer.first))
      requires tracked ==> Offers(answer) !! reserved && Offer(answer.first) !! Offer(answer.forced)
      modifies this
      ensures Valid()
      ensures alone ==> world.holders.Keys <= old(world).holders.Keys
      ensures alone ==> (world.pool, outcome) == Fetched(old(world).pool, accessToken, answer, now, remove, autoRemoveLimited)
      ensures alone ==>
                RightConfirmation(old(world).pool, accessToken, answer, now, remove, autoRemoveLimited, world.pool, outcome)
      ensures tracked ==> Relies(old(world), world, mine, reserved, false, cap)
      ensures tracked && outcome.Confirmed? ==> Carries(old(world), accessToken, world, outcome.token, mine, quiet)
      ensures accessToken != Empty ==> Explains(answer, outcome)
      ensures accessToken == Empty ==> outcome.Raised?
    {
      ghost var w0 := world;
      if accessToken == Empty {
        if tracked { StayingReliesOnAll(w0, mine, reserved, false, cap); }
        return Raised;
      }
      ghost var later := reserved + Offer(answer.forced);
      var active := RefreshAccessToken(accessToken, answer.first, mine, later, quiet, alone, tracked);
      ghost var w1 := world;
      if tracked {
        ReliesOnLess(w0, w1, mine, later, reserved, quiet, cap);
      }
      match answer.reply {
        case Info(info) =>
          outcome := Land(active, info, now, mine, reserved, quiet, alone, tracked);
          if tracked { CarriesCompose(w0, accessToken, w1, active, world, outcome.token, mine, reserved, quiet, cap); }
        case Trouble =>
          outcome := Raised;
          Note(active, now, mine, reserved, quiet, alone, tracked);
          if tracked { RelyComposes(w0, w1, world, mine, reserved, false, cap); }
        case InvalidToken =>
          outcome := Retry(active, answer.forced, answer.retry, now, remove, mine, reserved, quiet, alone, tracked);
          if tracked {
            RelyComposes(w0, w1, world, mine, reserved, false, cap);
            if outcome.Confirmed? {
              CarriesCompose(w0, accessToken, w1, active, world, outcome.token, mine, reserved, quiet, cap);
            }
          }
      }
      if alone {
        ConfirmationIsExact(w0.pool, accessToken, answer, now, remove, autoRemoveLimited);
      }
    }

    /** After an invalid-token reply: a forced refresh and, if it brings a new token, a second query. */
    method Retry(active: Token, forced: Grant, reply: Reply, now: int, remove: bool, ghost mine: set<nat>,
                 ghost reserved: set<Token>, ghost quiet: bool, ghost alone: bool, ghost tracked: bool)
      returns (outcome: Outcome)
      requires Valid()
      requires tracked ==> Trackable(mine, reserved + Offer(forced)) && reserved !! Offer(forced)
      modifies this
      ensures Valid()
      ensures alone ==> world.holders.Keys <= old(world).holders.Keys
      ensures alone ==> (world.pool, outcome) == Retried(old(world).pool, active, forced, reply, now, remove, autoRemoveLimited)
      ensures tracked ==> Relies(old(world), world, mine, reserved, false, cap)
      ensures tracked && outcome.Confirmed? ==> Carries(old(world), active, world, outcome.token, mine, quiet)
      ensures outcome.Confirmed? ==> reply.Info? && Reported(outcome, reply.info)
    {
      ghost var w0 := world;
      var again := RefreshAccessToken(active, forced, mine, reserved, quiet, alone, tracked);
      ghost var w1 := world;
      if tracked {
        ReliesOnLess(w0, w1, mine, reserved, reserved, quiet, cap);
      }
      outcome := Raised;
      if again == Empty || again == active {
        Condemn(active, now, remove, mine, reserved, quiet, alone, tracked);
      } else {
        match reply {
          case Info(info) =>
            outcome := Land(again, info, now, mine, reserved, quiet, alone, tracked);
            if tracked { CarriesCompose(w0, active, w1, again, world, outcome.token, mine, reserved, quiet, cap); }
          case Trouble => Note(again, now, mine, reserved, quiet, alone, tracked);
          case InvalidToken => Condemn(again, now, remove, mine, reserved, quiet, alone, tracked);
        }
      }
      if tracked {
        RelyComposes(w0, w1, world, mine, reserved, false, cap);
      }
    }

    /** An image call has ended: the slot is given back, then the account is updated. */
    method MarkImageResult(accessToken: Token, success: bool, ghost id: nat, ghost quiet: bool, ghost alone: bool)
      requires Valid() && world.Safe(cap) && Owes(world, id, accessToken)
      modifies this
      ensures Valid() && world.Safe(cap) && Clear(world, {id})
      ensures alone ==>
                var back := old(world).Return(id);
                world == back.(pool := Changed(back.pool, accessToken, a => Imaged(a, success), false))
    {
      ReturnKeepsSafe(world, id, cap);
      ReleaseImageSlot(accessToken, id);
      ghost var back := world;
      Others({id}, {}, quiet, alone);
      ghost var w := world;
      OthersGiveRely(back, w, {id}, {}, quiet, cap);
      RelyKeepsClear(back, w, {id}, {}, quiet, cap, {id});
      OwnChangeIsFollowed(w, accessToken, a => Imaged(a, success), false, {}, {}, quiet, cap);
      var updated := UpdateAccount(accessToken, a => Imaged(a, success), false);
    }

    /** The acquiring loop; `patience` bounds how often it waits for a slot to come free. */
    method AcquireNext(excluded: set<Token>, matches: Filter, patience: nat, ghost mine: set<nat>, ghost reserved: set<Token>,
                       ghost quiet: bool, ghost alone: bool) returns (pick: Pick, ghost before: World)
      requires Trackable(mine, reserved)
      modifies this
      ensures Valid()
      ensures Relies(old(world), before, mine, reserved, quiet, cap) && (alone ==> before == old(world))
      ensures pick == before.pool.Choice(excluded, matches, cap)
      ensures world == if pick.Granted? then before.Grant(pick.token) else before
    {
      ghost var w0 := world;
      Others(mine, reserved, quiet, alone);
      OthersGiveRely(w0, world, mine, reserved, quiet, cap);
      var left := patience;
      while true
        invariant Valid() && Relies(w0, world, mine, reserved, quiet, cap) && (alone ==> world == w0)
        decreases left
      {
        before := world;
        pick := TryAcquire(excluded, matches);
        if !pick.Busy? || left == 0 {
          return;
        }
        left := left - 1;
        Others(mine, reserved, quiet, alone);
        OthersGiveRely(before, world, mine, reserved, quiet, cap);
        RelyComposes(w0, before, world, mine, reserved, quiet, cap);
      }
    }

    /** An attempt that did not work out gives its slot back. */
    method GiveBack(token: Token, ghost id: nat, ghost done: set<nat>, ghost reserved: set<Token>, ghost quiet: bool, ghost alone: bool)
      requires Trackable(done + {id}, reserved) && Clear(world, done)
      requires Owes(world, id, token) && token in world.used
      modifies this
      ensures Trackable(done + {id}, reserved) && Clear(world, done + {id})
      ensures old(world).nextId <= world.nextId
      ensures alone ==> world.holders.Keys <= old(world).holders.Keys - {id}
      ensures alone ==> world.pool == old(world).pool.Released(token)
    {
      ghost var w0 := world;
      Others(done + {id}, reserved, quiet, alone);
      OthersGiveRely(w0, world, done + {id}, reserved, quiet, cap);
      RelyKeepsClear(w0, world, done + {id}, reserved, quiet, cap, done);
      RelyKeepsOwing(w0, world, done + {id}, reserved, quiet, cap, id, token);
      ReturnKeepsSafe(world, id, cap);
      ReleaseImageSlot(token, id);
    }

    /** The slot `id`, acquired under another token of the account perhaps, is known by `token` from now on. */
    ghost method Relabel(id: nat, token: Token)
      requires Valid() && world.Safe(cap) && Holding(world, id, token)
      modifies this`world
      ensures Valid() && world.Safe(cap)
      ensures world == old(world).(holders := old(world).holders[id := token])
    {
      RelabellingKeepsSafe(world, id, token, cap);
      world := Relabelled(world, id, token);
    }

    /** One attempt with the slot `id` in hand: confirm the account, keep the slot or give it back. */
    method TryAccount(token: Token, matches: Filter, answer: Answer, now: int, ghost id: nat, ghost done: set<nat>,
                      ghost reserved: set<Token>, ghost quiet: bool, ghost alone: bool) returns (outcome: Outcome)
      requires Trackable(done + {id}, reserved + Offer(answer.forced) + Offer(answer.first)) && Clear(world, done)
      requires Offers(answer) !! reserved && Offer(answer.first) !! Offer(answer.forced)
      requires Holding(world, id, token) && Owes(world, id, token) && id !in done
      modifies this
      ensures Trackable(done + {id}, reserved) && Clear(world, done)
      ensures Explains(answer, outcome)
      ensures !Fit(outcome, matches) ==> Clear(world, done + {id})
      ensures Fit(outcome, matches) && !(!quiet && id in world.voided) ==>
                id in world.holders && world.holders[id] == outcome.token && outcome.token != Empty
      ensures old(world).nextId <= world.nextId
      ensures alone ==> world.holders.Keys <= old(world).holders.Keys - if Fit(outcome, matches) then {} else {id}
      // Undisturbed, the pool is as the confirmation leaves it, with the slot given back unless the account is fit.
      ensures alone ==>
                exists q :: RightConfirmation(old(world).pool, token, answer, now, autoRemoveInvalid, autoRemoveLimited, q, outcome)
                         && world.pool == if Fit(outcome, matches) then q else q.Released(token)
    {
      ghost var w0 := world;
      ghost var mine := done + {id};
      outcome := FetchRemoteInfo(token, answer, now, autoRemoveInvalid, mine, reserved, quiet, alone, true);
      ghost var q := world.pool;
      RelyKeepsClear(w0, world, mine, reserved, false, cap, done);
      if outcome.Confirmed? && ImageAvailable(outcome.account) && matches(outcome.account) {
        AvailableIsServable(outcome.account);
        assert Holding(world, id, outcome.token) || (!quiet && id in world.voided);
        if Holding(world, id, outcome.token) {
          Relabel(id, outcome.token);
        }
      } else {
        if outcome.Confirmed? { AvailableIsServable(outcome.account); }
        RelyKeepsOwing(w0, world, mine, reserved, false, cap, id, token);
        GiveBack(token, id, done, reserved, quiet, alone);
      }
    }

    /** One turn of the preflight loop: acquire a slot on a token not yet attempted and try its account. */
    method AttemptNext(attempted: set<Token>, matches: Filter, answers: seq<Answer>, k: nat, now: int, patience: nat,
                       ghost mine: set<nat>, ghost used0: set<Token>, ghost quiet: bool, ghost alone: bool)
      returns (turn: Turn, ghost id: nat)
      requires k < |answers| && OffersAreNew(answers, used0)
      requires Trackable(mine, OffersFrom(answers, k)) && Clear(world, mine)
      modifies this
      ensures turn.Stopped? ==>
                && Trackable(mine, OffersFrom(answers, k)) && Clear(world, mine)
                && RightChoice(world.pool, attempted, matches, cap, turn.pick) && !turn.pick.Granted?
      ensures turn.Tried? ==>
                && id !in mine && turn.token !in attempted && Explains(answers[k], turn.outcome)
                && Trackable(mine + {id}, OffersFrom(answers, k + 1)) && Clear(world, mine)
      ensures turn.Tried? && !Fit(turn.outcome, matches) ==> Clear(world, mine + {id})
      ensures turn.Tried? && Fit(turn.outcome, matches) && !(!quiet && id in world.voided) ==>
                id in world.holders && world.holders[id] == turn.outcome.token && turn.outcome.token != Empty
      ensures alone ==>
                AddsAtMost(old(world), world, if turn.Tried? && Fit(turn.outcome, matches) then {id} else {})
    {
      ghost var w0 := world;
      var pick, before := AcquireNext(attempted, matches, patience, mine, OffersFrom(answers, k), quiet, alone);
      RelyKeepsClear(w0, before, mine, OffersFrom(answers, k), quiet, cap, mine);
      id := before.nextId;
      if !pick.Granted? {
        ChoiceIsExact(before.pool, attempted, matches, cap, pick);
        return Stopped(pick), id;
      }
      GrantStarts(before, attempted, matches, cap, pick.token, mine);
      OffersSplit(answers, used0, k);
      var outcome := TryAccount(pick.token, matches, answers[k], now, id, mine, OffersFrom(answers, k + 1), quiet, alone);
      turn := Tried(pick.token, outcome);
    }

    /**
     The preflight: acquire a slot, confirm its account remotely, and either keep the slot or
     give it back and try another account.  `answers` is what the remote side does attempt by
     attempt; other callers act in between unless `alone`, and delete nothing when `quiet`.
     */
    method GetAvailableAccessToken(matches: Filter, answers: seq<Answer>, now: int, patience: nat, ghost quiet: bool, ghost alone: bool)
      returns (verdict: Verdict, ghost attempts: seq<Attempt>, ghost mine: set<nat>)
      requires Valid() && world.Safe(cap)
      requires |answers| == MAX_ATTEMPTS && OffersAreNew(answers, world.used)
      modifies this
      ensures Valid() && world.Safe(cap)
      // At most 20 attempts, on distinct tokens, each with the outcome that its answer explains.
      ensures |attempts| <= 20 && Attempted(attempts, answers, matches)
      ensures mine == Callers(attempts)
      ensures RightVerdict(verdict, attempts, world.pool, matches, cap)
      // On success the last attempt keeps its slot, at the returned token; no other attempt keeps one.
      ensures verdict.Slot? ==>
                var slot := attempts[|attempts| - 1].id;
                && Clear(world, mine - {slot})
                && ((slot in world.holders && world.holders[slot] == verdict.token) || (!quiet && slot in world.voided))
      ensures !verdict.Slot? ==> Clear(world, mine)
      ensures alone ==> AddsAtMost(old(world), world, mine)
    {
      var attempted: set<Token> := {};
      var sawLimited, sawFailure := false, false;
      ghost var used0 := world.used;
      attempts, mine := [], {};
      var k := 0;
      while k < MAX_ATTEMPTS
        invariant 0 <= k <= MAX_ATTEMPTS && k == |attempts|
        invariant Trackable(mine, OffersFrom(answers, k)) && Clear(world, mine)
        invariant alone ==> AddsAtMost(old(world), world, {})
        invariant Tallied(attempts, answers, matches, attempted, sawLimited, sawFailure) && mine == Callers(attempts)
      {
        var turn, id := AttemptNext(attempted, matches, answers, k, now, patience, mine, used0, quiet, alone);
        match turn {
          case Stopped(Refused(why)) =>
            if attempted == {} {
              verdict := Denied(why);
              return;
            }
            break;
          case Stopped(_) =>
            verdict := StillWaiting;
            return;
          case Tried(token, outcome) =>
            ghost var attempt := Attempt(id, token, outcome);
            OneMoreAttempt(attempts, answers, matches, attempted, sawLimited, sawFailure, attempt);
            attempts, mine := attempts + [attempt], mine + {id};
            attempted := attempted + {token};
            if outcome.Confirmed? {
              attempted := attempted + if outcome.token == Empty then {} else {outcome.token};
              AvailableIsServable(outcome.account);
            }
            if outcome.Confirmed? && ImageAvailable(outcome.account) && matches(outcome.account) {
              verdict := Slot(if outcome.token == Empty then token else outcome.token);
              return;
            }
            if outcome.Confirmed? && outcome.account.status == Limited {
              sawLimited := true;
            } else {
              sawFailure := true;
            }
            k := k + 1;
        }
      }
      verdict := Denied(if sawLimited && !sawFailure then QuotaExhausted else Unavailable);
    }
  }
}
