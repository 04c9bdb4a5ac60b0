/**
 What one caller may rely on while other callers take their steps.
 */
module SlotSharing {
  import opened TokenAliases
  import opened SlotPool
  import opened SlotSafety
  import opened RemoteCheck

  /** The keys an operation may bring in. */
  function Brings(op: Op): set<Token> {
    match op
    case Rotate(_, renewed) => {renewed} - {Empty}
    case Import(t, _) => {t} - {Empty}
    case _ => {}
  }

  /**
   A step of another caller: it neither releases nor hands on any of the slots `mine`, brings in none of
   the keys `reserved`, and deletes nothing when `quiet`.
   */
  ghost predicate OthersStep(w: World, op: Op, mine: set<nat>, reserved: set<Token>, quiet: bool, cap: nat) {
    && Permitted(w, op, cap)
    && (op.Release? || op.Relabel? ==> op.id !in mine)
    && Brings(op) !! reserved
    && (quiet ==> !op.Delete?)
  }

  ghost predicate OthersRun(ws: seq<World>, ops: seq<Op>, mine: set<nat>, reserved: set<Token>, quiet: bool, cap: nat) {
    && |ws| == |ops| + 1
    && forall i :: 0 <= i < |ops| ==>
         OthersStep(ws[i], ops[i], mine, reserved, quiet, cap) && ws[i + 1] == Next(ws[i], ops[i], cap)
  }

  /** Any number of steps of other callers lead from `w` to `v`. */
  ghost predicate OthersLead(w: World, v: World, mine: set<nat>, reserved: set<Token>, quiet: bool, cap: nat) {
    exists ws, ops :: OthersRun(ws, ops, mine, reserved, quiet, cap) && ws[0] == w && ws[|ops|] == v
  }

  predicate NoRotation(ops: seq<Op>) {
    forall i :: 0 <= i < |ops| ==> !ops[i].Rotate?
  }

  /**
   The same while a refresh is going on: rotations happen under one lock that the refreshing caller has, so
   the others take none.
   */
  ghost predicate OthersWait(w: World, v: World, mine: set<nat>, reserved: set<Token>, quiet: bool, cap: nat) {
    exists ws, ops :: OthersRun(ws, ops, mine, reserved, quiet, cap) && ws[0] == w && ws[|ops|] == v
                      && NoRotation(ops)
  }

  /** From `w` to `v` nothing is taken away from the callers `mine` except by deletions. */
  ghost predicate Relies(w: World, v: World, mine: set<nat>, reserved: set<Token>, quiet: bool, cap: nat) {
    && v.Safe(cap) && v.pool.Indexed()
    && w.used <= v.used && (v.used - w.used) !! reserved
    && w.nextId <= v.nextId
    && (forall id, token :: id in mine && Holding(w, id, token) ==>
          Holding(v, id, token) || (!quiet && id in v.voided))
    && (forall id :: id in mine && id in v.holders ==> id in w.holders && v.holders[id] == w.holders[id])
    && (forall id :: id in mine && id in w.voided ==> id in v.voided)
    && (forall id :: id in mine && id in v.voided ==>
          (id in w.holders && v.voided[id] == w.holders[id]) || (id in w.voided && v.voided[id] == w.voided[id]))
  }

  /** Slots of `mine` known under `s` in `w` are known under `t` in `v`. */
  ghost predicate Carries(w: World, s: Token, v: World, t: Token, mine: set<nat>, quiet: bool) {
    forall id :: id in mine && Holding(w, id, s) ==> Holding(v, id, t) || (!quiet && id in v.voided)
  }

  /** Two tokens that stand for the same key keep doing so, unless that key is deleted. */
  lemma StepKeepsTogether(w: World, op: Op, cap: nat, s: Token, t: Token)
    requires w.Safe(cap) && Permitted(w, op, cap) && s in w.used && t in w.used
    requires w.pool.Resolved(s) == w.pool.Resolved(t)
    requires op.Delete? ==> w.pool.Resolved(s) !in w.pool.Targets(op.tokens)
    ensures Next(w, op, cap).pool.Resolved(s) == Next(w, op, cap).pool.Resolved(t)
  {
    match op
    case Acquire(_, _) =>
    case Release(_) =>
    case Rotate(token, renewed) =>
      if Rotates(w, token, renewed) {
        RotatedResolves(w.pool, token, renewed, s);
        RotatedResolves(w.pool, token, renewed, t);
      }
    case Delete(tokens) =>
      DeletedResolves(w, tokens, s);
      DeletedResolves(w, tokens, t);
    case Revise(token, a, drop) =>
      RevisedResolves(w.pool, token, a, drop, s);
      RevisedResolves(w.pool, token, a, drop, t);
    case Import(key, a) =>
      ImportResolves(w, key, a, s);
      ImportResolves(w, key, a, t);
    case Relabel(_, _) =>
  }

  lemma StepKeepsHolding(w: World, op: Op, cap: nat, id: nat, token: Token)
    requires w.Safe(cap) && Permitted(w, op, cap) && Holding(w, id, token) && op != Release(id)
    ensures Holding(Next(w, op, cap), id, token) || (op.Delete? && id in Next(w, op, cap).voided)
  {
    HolderTokensUsed(w, id);
    if op.Delete? && w.pool.Resolved(token) in w.pool.Targets(op.tokens) {
    } else {
      StepKeepsTogether(w, op, cap, token, w.holders[id]);
    }
  }

  /** A step that neither releases nor hands on the slot of `id` leaves its entry, or moves it to the lost ones. */
  lemma StepKeepsEntry(w: World, op: Op, cap: nat, id: nat)
    requires w.Numbered() && ((op.Release? || op.Relabel?) ==> op.id != id) && id < w.nextId
    ensures var v := Next(w, op, cap);
            && w.nextId <= v.nextId
            && (id in v.holders ==> id in w.holders && v.holders[id] == w.holders[id])
            && (id in w.voided ==> id in v.voided)
            && (id in v.voided ==> (id in w.holders && v.voided[id] == w.holders[id]) || (id in w.voided && v.voided[id] == w.voided[id]))
  {
  }

  lemma StepUses(w: World, op: Op, cap: nat)
    requires w.pool.accounts.Keys <= w.used
    ensures w.used <= Next(w, op, cap).used && Next(w, op, cap).used - w.used <= Brings(op)
    ensures w.nextId <= Next(w, op, cap).nextId
  {
  }

  lemma OthersStepGivesRely(w: World, op: Op, mine: set<nat>, reserved: set<Token>, quiet: bool, cap: nat)
    requires w.Safe(cap) && w.pool.Indexed() && OthersStep(w, op, mine, reserved, quiet, cap)
    requires forall id :: id in mine ==> id < w.nextId
    ensures Relies(w, Next(w, op, cap), mine, reserved, quiet, cap)
  {
    var v := Next(w, op, cap);
    StepKeepsSafe(w, op, cap);
    StepKeepsIndexed(w, op, cap);
    StepUses(w, op, cap);
    forall id, token | id in mine && Holding(w, id, token)
      ensures Holding(v, id, token) || (!quiet && id in v.voided)
    {
      StepKeepsHolding(w, op, cap, id, token);
    }
    forall id | id in mine
      ensures id in v.holders ==> id in w.holders && v.holders[id] == w.holders[id]
      ensures id in w.voided ==> id in v.voided
      ensures id in v.voided ==> (id in w.holders && v.voided[id] == w.holders[id]) || (id in w.voided && v.voided[id] == w.voided[id])
    {
      StepKeepsEntry(w, op, cap, id);
    }
  }

  lemma RelyComposes(u: World, w: World, v: World, mine: set<nat>, reserved: set<Token>, quiet: bool, cap: nat)
    requires Relies(u, w, mine, reserved, quiet, cap) && Relies(w, v, mine, reserved, quiet, cap)
    ensures Relies(u, v, mine, reserved, quiet, cap)
  {
    forall id, token | id in mine && Holding(u, id, token)
      ensures Holding(v, id, token) || (!quiet && id in v.voided)
    {
      assert Holding(w, id, token) || (!quiet && id in w.voided);
    }
  }

  /** Whatever other callers do, in any number of steps, one caller's slots are safe from them. */
  lemma {:induction false} OthersRunGivesRely(ws: seq<World>, ops: seq<Op>, mine: set<nat>, reserved: set<Token>,
                                              quiet: bool, cap: nat)
    requires OthersRun(ws, ops, mine, reserved, quiet, cap)
    requires ws[0].Safe(cap) && ws[0].pool.Indexed()
    requires forall id :: id in mine ==> id < ws[0].nextId
    ensures Relies(ws[0], ws[|ops|], mine, reserved, quiet, cap)
    decreases |ops|
  {
    if ops == [] {
    } else {
      var k := |ops| - 1;
      assert OthersRun(ws[..|ops|], ops[..k], mine, reserved, quiet, cap);
      OthersRunGivesRely(ws[..|ops|], ops[..k], mine, reserved, quiet, cap);
      OthersStepGivesRely(ws[k], ops[k], mine, reserved, quiet, cap);
      RelyComposes(ws[0], ws[k], ws[k + 1], mine, reserved, quiet, cap);
    }
  }

  lemma OthersGiveRely(w: World, v: World, mine: set<nat>, reserved: set<Token>, quiet: bool, cap: nat)
    requires OthersLead(w, v, mine, reserved, quiet, cap)
    requires w.Safe(cap) && w.pool.Indexed() && (forall id :: id in mine ==> id < w.nextId)
    ensures Relies(w, v, mine, reserved, quiet, cap)
  {
    var ws, ops :| OthersRun(ws, ops, mine, reserved, quiet, cap) && ws[0] == w && ws[|ops|] == v;
    OthersRunGivesRely(ws, ops, mine, reserved, quiet, cap);
  }

  // ---- The caller's own steps ----

  lemma ResolvedStandsForItself(w: World, t: Token)
    requires w.Sound()
    ensures w.pool.Resolved(w.pool.Resolved(t)) == w.pool.Resolved(t)
  {
    assert w.pool.Resolved(t) !in w.pool.aliases;
  }

  /** The token that `ApplyRefreshedTokens` reports. */
  function ReportedToken(w: World, t: Token, answered: Token): Token {
    var r := w.pool.Resolved(t);
    if r !in w.pool.accounts || answered == Empty then r else answered
  }

  lemma OwnRotationIsFollowed(w: World, t: Token, answered: Token, mine: set<nat>, reserved: set<Token>, quiet: bool, cap: nat)
    requires w.Safe(cap) && w.pool.Indexed() && (forall id :: id in mine ==> id < w.nextId)
    requires {answered} - {Empty} !! w.used + reserved
    ensures Relies(w, w.Rotate(t, answered), mine, reserved, quiet, cap)
    ensures Carries(w, t, w.Rotate(t, answered), ReportedToken(w, t, answered), mine, true)
  {
    var v, r := w.Rotate(t, answered), ReportedToken(w, t, answered);
    if answered != Empty {
      NewIsUnclaimed(w, answered);
      assert w.pool.Inflight(w.pool.Resolved(t)) <= cap;
    }
    OthersStepGivesRely(w, Op.Rotate(t, answered), mine, reserved, quiet, cap);
    forall id | id in mine && Holding(w, id, t) ensures Holding(v, id, r) {
      HolderTokensUsed(w, id);
      if Rotates(w, t, answered) {
        RotatedResolves(w.pool, t, answered, w.holders[id]);
        assert v.pool.Resolved(answered) == answered;
      } else {
        assert v == w;
        ResolvedStandsForItself(w, t);
      }
    }
  }

  lemma ReliesOnLess(w: World, v: World, mine: set<nat>, more: set<Token>, reserved: set<Token>, quiet: bool, cap: nat)
    requires Relies(w, v, mine, more, quiet, cap) && reserved <= more
    ensures Relies(w, v, mine, reserved, quiet, cap) && Relies(w, v, mine, reserved, false, cap)
  {
    forall id, token | id in mine && Holding(w, id, token)
      ensures Holding(v, id, token) || (!quiet && id in v.voided) {}
  }

  lemma StayingReliesOnAll(w: World, mine: set<nat>, reserved: set<Token>, quiet: bool, cap: nat)
    requires w.Safe(cap) && w.pool.Indexed()
    ensures Relies(w, w, mine, reserved, quiet, cap)
  {
  }

  /** A refresh with other callers' steps between looking the account up and applying the answer. */
  lemma RefreshIsFollowed(w0: World, w1: World, token: Token, answered: Token, mine: set<nat>, reserved: set<Token>,
                          quiet: bool, cap: nat)
    requires w0.Safe(cap) && w0.pool.Indexed() && (forall id :: id in mine ==> id < w0.nextId)
    requires Relies(w0, w1, mine, reserved + ({answered} - {Empty}), quiet, cap)
    requires reserved + ({answered} - {Empty}) !! w0.used && {answered} - {Empty} !! reserved
    ensures var t := w0.pool.Resolved(token);
            && Relies(w0, w1.Rotate(t, answered), mine, reserved, quiet, cap)
            && Carries(w0, token, w1.Rotate(t, answered), ReportedToken(w1, t, answered), mine, quiet)
  {
    var t := w0.pool.Resolved(token);
    var v := w1.Rotate(t, answered);
    ReliesOnLess(w0, w1, mine, reserved + ({answered} - {Empty}), reserved, quiet, cap);
    OwnRotationIsFollowed(w1, t, answered, mine, reserved, quiet, cap);
    RelyComposes(w0, w1, v, mine, reserved, quiet, cap);
    forall id | id in mine && Holding(w0, id, token)
      ensures Holding(v, id, ReportedToken(w1, t, answered)) || (!quiet && id in v.voided)
    {
      HoldingTheResolved(w0, id, token);
      assert Holding(w0, id, t);
    }
  }

  /** A step without a rotation adds no alias. */
  lemma StepAddsNoAlias(w: World, op: Op, cap: nat)
    requires !op.Rotate?
    ensures Next(w, op, cap).pool.aliases.Keys <= w.pool.aliases.Keys
  {
  }

  lemma {:induction false} RunAddsNoAlias(ws: seq<World>, ops: seq<Op>, mine: set<nat>, reserved: set<Token>, quiet: bool,
                                          cap: nat)
    requires OthersRun(ws, ops, mine, reserved, quiet, cap) && NoRotation(ops)
    ensures ws[|ops|].pool.aliases.Keys <= ws[0].pool.aliases.Keys
    decreases |ops|
  {
    if ops == [] {
    } else {
      var k := |ops| - 1;
      assert OthersRun(ws[..|ops|], ops[..k], mine, reserved, quiet, cap);
      RunAddsNoAlias(ws[..|ops|], ops[..k], mine, reserved, quiet, cap);
      StepAddsNoAlias(ws[k], ops[k], cap);
    }
  }

  /** Others that wait for the refresh lock lead as others do, and a key without an alias goes on standing for itself. */
  lemma WaitersLead(w: World, v: World, mine: set<nat>, reserved: set<Token>, quiet: bool, cap: nat)
    requires OthersWait(w, v, mine, reserved, quiet, cap)
    ensures OthersLead(w, v, mine, reserved, quiet, cap)
    ensures v.pool.aliases.Keys <= w.pool.aliases.Keys
  {
    var ws, ops :| OthersRun(ws, ops, mine, reserved, quiet, cap) && ws[0] == w && ws[|ops|] == v
                   && NoRotation(ops);
    RunAddsNoAlias(ws, ops, mine, reserved, quiet, cap);
  }

  /** A refresh that is answered with the token it was asked for: under the lock that token still is the key. */
  lemma UnchangedIsFollowed(w0: World, w1: World, token: Token, mine: set<nat>, reserved: set<Token>, quiet: bool, cap: nat)
    requires w0.Safe(cap) && w0.pool.Resolved(token) in w0.pool.accounts
    requires OthersWait(w0, w1, mine, reserved, quiet, cap) && Relies(w0, w1, mine, reserved, quiet, cap)
    ensures var t := w0.pool.Resolved(token);
            && w1.Rotate(t, t) == w1 && ReportedToken(w1, t, t) == t
            && Carries(w0, token, w1, t, mine, quiet)
  {
    var t := w0.pool.Resolved(token);
    WaitersLead(w0, w1, mine, reserved, quiet, cap);
    assert t !in w1.pool.aliases;
    assert w1.pool.Resolved(t) == t;
    assert w1.used + w1.pool.accounts.Keys == w1.used;
    LookupIsFollowed(w0, w1, token, mine, reserved, quiet, cap);
  }

  /** World and reported token after the answer to a refresh of the key `t`. */
  function Answered(w: World, t: Token, offer: Grant): (World, Token) {
    match offer
    case NoGrant => (w, t)
    case Unchanged => (w.Rotate(t, t), ReportedToken(w, t, t))
    case Named(n) => (w.Rotate(t, n), ReportedToken(w, t, n))
  }

  /** Whatever a refresh is answered with, its caller's slots are found under the token that it reports. */
  lemma AnswerIsFollowed(w0: World, w1: World, token: Token, offer: Grant, mine: set<nat>, reserved: set<Token>,
                         quiet: bool, cap: nat)
    requires w0.Safe(cap) && w0.pool.Indexed() && (forall id :: id in mine ==> id < w0.nextId)
    requires w0.pool.Resolved(token) in w0.pool.accounts
    requires OthersWait(w0, w1, mine, reserved + Offer(offer), quiet, cap)
    requires reserved + Offer(offer) !! w0.used && Offer(offer) !! reserved
    ensures var (v, active) := Answered(w1, w0.pool.Resolved(token), offer);
            Relies(w0, v, mine, reserved, quiet, cap) && Carries(w0, token, v, active, mine, quiet)
  {
    var more := reserved + Offer(offer);
    WaitersLead(w0, w1, mine, more, quiet, cap);
    OthersGiveRely(w0, w1, mine, more, quiet, cap);
    ReliesOnLess(w0, w1, mine, more, reserved, quiet, cap);
    match offer
    case NoGrant => LookupIsFollowed(w0, w1, token, mine, reserved, quiet, cap);
    case Unchanged => UnchangedIsFollowed(w0, w1, token, mine, more, quiet, cap);
    case Named(n) => RefreshIsFollowed(w0, w1, token, n, mine, reserved, quiet, cap);
  }

  /** A refresh that brings no new token reports what the given one resolved to. */
  lemma LookupIsFollowed(w0: World, w1: World, token: Token, mine: set<nat>, reserved: set<Token>, quiet: bool, cap: nat)
    requires w0.Safe(cap) && Relies(w0, w1, mine, reserved, quiet, cap)
    ensures Carries(w0, token, w1, w0.pool.Resolved(token), mine, quiet)
  {
    forall id | id in mine && Holding(w0, id, token)
      ensures Holding(w1, id, w0.pool.Resolved(token)) || (!quiet && id in w1.voided)
    {
      HoldingTheResolved(w0, id, token);
    }
  }

  lemma HoldingTheResolved(w: World, id: nat, token: Token)
    requires w.Sound() && Holding(w, id, token)
    ensures Holding(w, id, w.pool.Resolved(token))
  {
    ResolvedStandsForItself(w, token);
    ResolvesWithinUsed(w, token, {});
  }

  lemma OwnChangeIsFollowed(w: World, token: Token, change: Account -> Account, dropLimited: bool, mine: set<nat>,
                            reserved: set<Token>, quiet: bool, cap: nat)
    requires w.Safe(cap) && w.pool.Indexed() && (forall id :: id in mine ==> id < w.nextId)
    ensures Relies(w, w.(pool := Changed(w.pool, token, change, dropLimited)), mine, reserved, quiet, cap)
  {
    var t := w.pool.Resolved(token);
    if t in w.pool.accounts {
      OthersStepGivesRely(w, Op.Revise(token, change(w.pool.accounts[t]), dropLimited), mine, reserved, quiet, cap);
    } else {
      StayingReliesOnAll(w, mine, reserved, quiet, cap);
    }
  }

  lemma OwnDeletionIsFollowed(w: World, tokens: set<Token>, mine: set<nat>, reserved: set<Token>, cap: nat)
    requires w.Safe(cap) && w.pool.Indexed() && (forall id :: id in mine ==> id < w.nextId)
    ensures Relies(w, w.Delete(tokens), mine, reserved, false, cap)
  {
    OthersStepGivesRely(w, Op.Delete(tokens), mine, reserved, false, cap);
  }

  /** Following a slot through one stretch and then another. */
  lemma CarriesCompose(u: World, s: Token, w: World, t: Token, v: World, r: Token, mine: set<nat>, reserved: set<Token>,
                       quiet: bool, cap: nat)
    requires Relies(u, w, mine, reserved, false, cap) && Carries(u, s, w, t, mine, quiet)
    requires Relies(w, v, mine, reserved, false, cap) && Carries(w, t, v, r, mine, quiet)
    ensures Relies(u, v, mine, reserved, false, cap) && Carries(u, s, v, r, mine, quiet)
  {
    RelyComposes(u, w, v, mine, reserved, false, cap);
    forall id | id in mine && Holding(u, id, s) ensures Holding(v, id, r) || (!quiet && id in v.voided) {
      assert Holding(w, id, t) || (!quiet && id in w.voided);
    }
  }

  lemma RelyCarries(w: World, v: World, t: Token, mine: set<nat>, reserved: set<Token>, quiet: bool, cap: nat)
    requires Relies(w, v, mine, reserved, quiet, cap)
    ensures Carries(w, t, v, t, mine, quiet) && Relies(w, v, mine, reserved, false, cap)
  {
    ReliesOnLess(w, v, mine, reserved, reserved, quiet, cap);
  }

  /** A change of the account after other callers' steps. */
  lemma ChangeIsFollowed(w0: World, w1: World, token: Token, change: Account -> Account, dropLimited: bool,
                         mine: set<nat>, reserved: set<Token>, quiet: bool, cap: nat)
    requires w0.Safe(cap) && w0.pool.Indexed() && (forall id :: id in mine ==> id < w0.nextId)
    requires OthersLead(w0, w1, mine, reserved, quiet, cap)
    ensures var w2 := w1.(pool := Changed(w1.pool, token, change, dropLimited));
            Relies(w0, w2, mine, reserved, quiet, cap) && Carries(w0, token, w2, w1.pool.Resolved(token), mine, quiet)
  {
    var w2 := w1.(pool := Changed(w1.pool, token, change, dropLimited));
    OthersGiveRely(w0, w1, mine, reserved, quiet, cap);
    OwnChangeIsFollowed(w1, token, change, dropLimited, mine, reserved, quiet, cap);
    RelyComposes(w0, w1, w2, mine, reserved, quiet, cap);
    LookupIsFollowed(w1, w2, token, mine, reserved, quiet, cap);
    RelyCarries(w0, w1, token, mine, reserved, quiet, cap);
    RelyCarries(w1, w2, token, mine, reserved, quiet, cap);
    CarriesCompose(w0, token, w1, token, w2, w1.pool.Resolved(token), mine, reserved, quiet, cap);
  }

  /** The callers `mine` have no slot, nor one that was lost. */
  predicate Clear(w: World, mine: set<nat>) {
    mine !! w.holders.Keys && mine !! w.voided.Keys
  }

  /** A caller that acquired its slot under `t` and has not given it back. */
  predicate Owes(w: World, id: nat, t: Token) {
    (id in w.holders && w.holders[id] == t) || (id in w.voided && w.voided[id] == t)
  }

  lemma RelyKeepsClear(w: World, v: World, mine: set<nat>, reserved: set<Token>, quiet: bool, cap: nat, done: set<nat>)
    requires Relies(w, v, mine, reserved, quiet, cap) && done <= mine && Clear(w, done)
    ensures Clear(v, done)
  {
    forall id | id in done ensures id !in v.holders && id !in v.voided {}
  }

  lemma RelyKeepsOwing(w: World, v: World, mine: set<nat>, reserved: set<Token>, quiet: bool, cap: nat, id: nat, t: Token)
    requires w.Sound() && Relies(w, v, mine, reserved, quiet, cap) && id in mine && Owes(w, id, t) && t in w.used
    ensures Owes(v, id, t)
  {
    if id in w.holders {
      assert Holding(w, id, t);
    }
  }

  /** A granted slot starts the caller's part. */
  lemma GrantStarts(w: World, excluded: set<Token>, matches: Filter, cap: nat, t: Token, done: set<nat>)
    requires w.Safe(cap) && w.pool.Indexed() && w.pool.Choice(excluded, matches, cap) == Granted(t)
    requires Clear(w, done) && forall id :: id in done ==> id < w.nextId
    ensures w.Grant(t).Safe(cap) && w.Grant(t).pool.Indexed()
    ensures Holding(w.Grant(t), w.nextId, t) && Owes(w.Grant(t), w.nextId, t) && t !in excluded && t != Empty
    ensures Clear(w.Grant(t), done)
  {
    GrantIsFree(w.pool, excluded, matches, cap, t);
    GrantKeepsSafe(w, t, cap);
  }
}
