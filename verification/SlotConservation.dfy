/**
 When slot conservation holds at all: for every step, and over every run, whatever keys come in again.
 Nothing is assumed of aliases, keys and released calls here; aliases may lead round in circles.
 */
module SlotConservation {
  import Sets
  import opened Sequences
  import opened TokenAliases
  import opened AliasCircles
  import opened SlotPool
  import opened SlotSafety

  /** What every step keeps on its own. */
  ghost predicate Regular(w: World) {
    w.Numbered() && w.Positive() && Empty !in w.pool.accounts
  }

  /** A caller whose token leads through `t` and on to a key that is not allowed. */
  predicate Strays(w: World, id: nat, t: Token, allowed: set<Token>) {
    id in w.holders && Passes(w.pool.accounts.Keys, w.pool.aliases, w.holders[id], t)
    && w.pool.Resolved(w.holders[id]) !in allowed
  }

  /** A caller at the key `t` that no longer stands there when the key is dropped. */
  ghost predicate Slips(w: World, id: nat, t: Token) {
    id in w.HoldersAt(t) && t in w.pool.aliases && !LeadsBack(w.pool.accounts.Keys, w.pool.aliases, w.holders[id], t)
  }

  /** A caller that keeps its slot in a deletion, in a circle of aliases that the deletion breaks behind it. */
  ghost predicate Unsettled(w: World, id: nat, gone: set<Token>) {
    id in w.holders && w.pool.Resolved(w.holders[id]) !in gone
    && !Settled(w.pool.accounts.Keys, w.pool.aliases, gone, w.pool.Resolved(w.holders[id]))
  }

  /** A change of the account under `t` that takes it out of the pool. */
  predicate Drops(w: World, token: Token, a: Account, dropLimited: bool) {
    token != Empty && w.pool.Resolved(token) in w.pool.accounts && a.status.Limited? && dropLimited
  }

  /** The guard of a step under which every count stays the number of holders. */
  ghost predicate Steady(w: World, op: Op) {
    match op
    case Acquire(_, _) => true
    case Release(id) =>
      if id in w.holders then w.holders[id] != Empty
      else id in w.voided && w.voided[id] != Empty ==> w.pool.Inflight(w.pool.Resolved(w.voided[id])) == 0
    case Rotate(token, renewed) =>
      Rotates(w, token, renewed) ==> forall id :: !Strays(w, id, renewed, {renewed, w.pool.Resolved(token)})
    case Delete(tokens) => forall id :: !Unsettled(w, id, w.pool.Targets(tokens))
    case Revise(token, a, drop) => Drops(w, token, a, drop) ==> forall id :: !Slips(w, id, w.pool.Resolved(token))
    case Import(t, _) => t != Empty && t !in w.pool.accounts ==> forall id :: !Strays(w, id, t, {t})
    case Relabel(id, token) => id in w.holders ==> w.pool.Resolved(token) == w.pool.Resolved(w.holders[id])
  }

  lemma RegularStep(w: World, op: Op, cap: nat)
    requires Regular(w)
    ensures Regular(Next(w, op, cap))
  {
    match op
    case Acquire(excluded, matches) =>
      var pick := w.pool.Choice(excluded, matches, cap);
      if pick.Granted? {
        GrantIsFree(w.pool, excluded, matches, cap, pick.token);
      }
    case Release(id) => RegularReturn(w, id);
    case Rotate(token, renewed) => RegularRotation(w, token, renewed);
    case Delete(tokens) => RegularDeletion(w, tokens);
    case Revise(token, a, drop) =>
    case Import(t, a) =>
    case Relabel(id, token) =>
  }

  lemma RegularReturn(w: World, id: nat)
    requires Regular(w)
    ensures Regular(w.Return(id))
  {
  }

  lemma RegularRotation(w: World, token: Token, renewed: Token)
    requires Regular(w)
    ensures Regular(w.Rotate(token, renewed))
  {
  }

  lemma RegularDeletion(w: World, tokens: set<Token>)
    requires Regular(w)
    ensures Regular(w.Delete(tokens))
  {
  }

  // ---- Acquiring, releasing, handing over ----

  lemma AcquireConserves(w: World, excluded: set<Token>, matches: Filter, cap: nat)
    requires Regular(w) && w.Conserved()
    ensures Next(w, Acquire(excluded, matches), cap).Conserved()
  {
    var pick := w.pool.Choice(excluded, matches, cap);
    if pick.Granted? {
      GrantIsFree(w.pool, excluded, matches, cap, pick.token);
      forall x ensures w.Grant(pick.token).Counted(x) {
        assert w.Counted(x);
        GrantCounts(w, pick.token, x);
      }
    }
  }

  /** The release of a slot that is held. */
  lemma HeldReturnConservesIff(w: World, id: nat)
    requires w.Conserved() && id in w.holders
    ensures w.Return(id).Conserved() <==> w.holders[id] != Empty
  {
    var v, r := w.Return(id), w.pool.Resolved(w.holders[id]);
    if w.holders[id] != Empty {
      forall x ensures v.Counted(x) {
        assert w.Counted(x);
        ReturnCounts(w, id, x);
      }
    } else {
      assert w.Counted(r);
      ReturnPlaces(w, id, r);
      LostHolderBreaksCount(w, v, id, r);
    }
  }

  /** The release of a slot that was lost to a deletion is harmless exactly if its key has no slots out again. */
  lemma VoidedReturnConservesIff(w: World, id: nat)
    requires w.Conserved() && id in w.voided && id !in w.holders
    ensures w.Return(id).Conserved() <==> w.voided[id] == Empty || w.pool.Inflight(w.pool.Resolved(w.voided[id])) == 0
  {
    var v, r := w.Return(id), w.pool.Resolved(w.voided[id]);
    assert w.Counted(r) && v.HoldersAt(r) == w.HoldersAt(r);
    if w.voided[id] == Empty || w.pool.Inflight(r) == 0 {
      forall x ensures v.Counted(x) {
        assert w.Counted(x);
        SamePlaces(w, v, x);
      }
    } else {
      assert v.pool.Inflight(r) == w.pool.Inflight(r) - 1;
      assert !v.Counted(r);
    }
  }

  lemma RelabelPlaces(w: World, id: nat, token: Token, x: Token)
    requires id in w.holders
    ensures Relabelled(w, id, token).HoldersAt(x)
         == w.HoldersAt(x) - {id} + if w.pool.Resolved(token) == x then {id} else {}
  {
    var v := Relabelled(w, id, token);
    forall k ensures k in v.HoldersAt(x) <==>
                     if k == id then w.pool.Resolved(token) == x else k in w.HoldersAt(x) {}
  }

  lemma RelabelConservesIff(w: World, id: nat, token: Token)
    requires w.Conserved() && id in w.holders
    ensures Relabelled(w, id, token).Conserved() <==> w.pool.Resolved(token) == w.pool.Resolved(w.holders[id])
  {
    var v, r := Relabelled(w, id, token), w.pool.Resolved(w.holders[id]);
    if w.pool.Resolved(token) == r {
      forall x ensures v.Counted(x) {
        RelabelPlaces(w, id, token, x);
        assert w.Counted(x) && v.HoldersAt(x) == w.HoldersAt(x);
      }
    } else {
      RelabelPlaces(w, id, token, r);
      assert w.Counted(r);
      LostHolderBreaksCount(w, v, id, r);
    }
  }

  lemma LostHolderBreaksCount(w: World, v: World, id: nat, r: Token)
    requires w.Counted(r) && v.pool.Inflight(r) == w.pool.Inflight(r)
    requires id in w.HoldersAt(r) && v.HoldersAt(r) <= w.HoldersAt(r) - {id}
    ensures !v.Counted(r)
  {
    Sets.SubsetIsSmaller(v.HoldersAt(r), w.HoldersAt(r) - {id});
  }

  // ---- Importing ----

  /**
   Importing a key keeps slot conservation exactly when no outstanding token leads through it to another
   key. A key that was rotated away while its slots are out is what fails.
   */
  lemma ImportConservesIff(w: World, t: Token, a: Account)
    requires w.Conserved() && t !in w.pool.accounts && t != Empty
    ensures w.Import(t, a).Conserved() <==> forall id :: !Strays(w, id, t, {t})
  {
    var v := w.Import(t, a);
    assert v.pool.accounts.Keys == w.pool.accounts.Keys + {t};
    forall id | id in w.holders
      ensures v.pool.Resolved(w.holders[id])
           == if Passes(w.pool.accounts.Keys, w.pool.aliases, w.holders[id], t) then t else w.pool.Resolved(w.holders[id])
    {
      AddingCatchesPassing(w.pool.accounts.Keys, w.pool.aliases, t, w.holders[id], {});
    }
    if id :| Strays(w, id, t, {t}) {
      var r := w.pool.Resolved(w.holders[id]);
      assert w.Counted(r);
      assert v.HoldersAt(r) <= w.HoldersAt(r) - {id};
      LostHolderBreaksCount(w, v, id, r);
    } else {
      forall id | id in w.holders ensures v.pool.Resolved(w.holders[id]) == w.pool.Resolved(w.holders[id]) {
        assert !Strays(w, id, t, {t});
      }
      forall x ensures v.Counted(x) {
        assert w.Counted(x);
        SamePlaces(w, v, x);
      }
    }
  }

  // ---- Rotating ----

  lemma RotatedResolvesAny(w: World, token: Token, renewed: Token, x: Token)
    requires Empty !in w.pool.accounts && Rotates(w, token, renewed)
    ensures w.Rotate(token, renewed).pool.Resolved(x)
         == if Passes(w.pool.accounts.Keys, w.pool.aliases, x, renewed) || w.pool.Resolved(x) == w.pool.Resolved(token)
            then renewed else w.pool.Resolved(x)
  {
    var t := w.pool.Resolved(token);
    var keys := w.pool.accounts.Keys;
    AddingCatchesPassing(keys, w.pool.aliases, renewed, x, {});
    RotationMovesOldOnly(keys + {renewed}, w.pool.aliases, t, renewed, x, {});
    assert keys + {renewed} - {t} + {renewed} == w.Rotate(token, renewed).pool.accounts.Keys;
  }

  lemma RotatePlacesAny(w: World, token: Token, renewed: Token, x: Token)
    requires Empty !in w.pool.accounts && Rotates(w, token, renewed)
    requires forall id :: !Strays(w, id, renewed, {renewed, w.pool.Resolved(token)})
    ensures w.Rotate(token, renewed).HoldersAt(x)
         == if x == renewed then w.HoldersAt(w.pool.Resolved(token)) + w.HoldersAt(x)
            else if x == w.pool.Resolved(token) then {}
            else w.HoldersAt(x)
  {
    var t := w.pool.Resolved(token);
    var v := w.Rotate(token, renewed);
    forall id ensures id in v.HoldersAt(x) <==>
                      if x == renewed then id in w.HoldersAt(t) || id in w.HoldersAt(x) else x != t && id in w.HoldersAt(x)
    {
      assert !Strays(w, id, renewed, {renewed, t});
      if id in w.holders {
        RotatedResolvesAny(w, token, renewed, w.holders[id]);
        if w.pool.Resolved(w.holders[id]) == renewed {
          ResolvesImpliesPasses(w.pool.accounts.Keys, w.pool.aliases, w.holders[id], {});
        }
      }
    }
  }

  lemma {:induction false} ResolvesImpliesPasses(pool: set<Token>, aliases: Aliases, t: Token, seen: set<Token>)
    ensures PassesFrom(pool, aliases, t, seen, ResolveFrom(pool, aliases, t, seen))
    decreases aliases.Keys - seen
  {
    if Follows(pool, aliases, t) && t !in seen {
      ResolvesImpliesPasses(pool, aliases, aliases[t], seen + {t});
    }
  }

  /**
   A rotation into any key keeps slot conservation exactly when no outstanding token leads
   through the new key to a third one.
   */
  lemma RotateConservesIff(w: World, token: Token, renewed: Token)
    requires Empty !in w.pool.accounts && w.Conserved() && Rotates(w, token, renewed)
    ensures w.Rotate(token, renewed).Conserved()
       <==> forall id :: !Strays(w, id, renewed, {renewed, w.pool.Resolved(token)})
  {
    var t := w.pool.Resolved(token);
    var v := w.Rotate(token, renewed);
    if id :| Strays(w, id, renewed, {renewed, t}) {
      var r := w.pool.Resolved(w.holders[id]);
      assert w.Counted(r);
      forall k | k in v.HoldersAt(r) ensures k in w.HoldersAt(r) - {id} {
        RotatedResolvesAny(w, token, renewed, w.holders[k]);
      }
      RotatedInflight(w.pool, token, renewed, r);
      LostHolderBreaksCount(w, v, id, r);
    } else {
      forall x ensures v.Counted(x) {
        assert w.Counted(x) && w.Counted(t);
        RotatePlacesAny(w, token, renewed, x);
        RotatedInflight(w.pool, token, renewed, x);
        PlacesAreApart(w, t, renewed);
      }
    }
  }

  // ---- Dropping ----

  /** Dropping a limited account keeps slot conservation exactly when no call stands at a key with an alias that leads away. */
  lemma DropConservesIff(w: World, token: Token, a: Account)
    requires Empty !in w.pool.accounts && w.Conserved() && Drops(w, token, a, true)
    ensures w.Revise(token, a, true).Conserved() <==> forall id :: !Slips(w, id, w.pool.Resolved(token))
  {
    var v, t, keys := w.Revise(token, a, true), w.pool.Resolved(token), w.pool.accounts.Keys;
    assert v.pool.accounts.Keys == keys - {t};
    forall id | id in w.holders
      ensures v.pool.Resolved(w.holders[id]) == w.pool.Resolved(w.holders[id]) <==> !Slips(w, id, t)
    {
      DropResolves(keys, w.pool.aliases, w.holders[id], t);
    }
    if id :| Slips(w, id, t) {
      forall k | k in v.HoldersAt(t) ensures k in w.HoldersAt(t) - {id} {
        DropResolves(keys, w.pool.aliases, w.holders[k], t);
      }
      assert w.Counted(t);
      LostHolderBreaksCount(w, v, id, t);
    } else {
      forall x ensures v.Counted(x) {
        assert w.Counted(x);
        SamePlaces(w, v, x);
      }
    }
  }

  lemma ChangeConserves(w: World, token: Token, a: Account, dropLimited: bool)
    requires w.Conserved() && !Drops(w, token, a, dropLimited)
    ensures w.Revise(token, a, dropLimited).Conserved()
  {
    var v := w.Revise(token, a, dropLimited);
    assert v.pool.accounts.Keys == w.pool.accounts.Keys;
    forall x ensures v.Counted(x) {
      assert w.Counted(x);
      SamePlaces(w, v, x);
    }
  }

  // ---- Deleting ----

  lemma TargetsAreEnds(w: World, tokens: set<Token>)
    ensures Ends(w.pool.accounts.Keys, w.pool.aliases, w.pool.Targets(tokens))
  {
    forall t | t in tokens ensures w.pool.Resolved(w.pool.Resolved(t)) == w.pool.Resolved(t) {
      ResolvesOnce(w.pool.accounts.Keys, w.pool.aliases, t);
    }
  }

  lemma SettledStays(w: World, tokens: set<Token>, id: nat)
    requires id in w.holders && w.pool.Resolved(w.holders[id]) !in w.pool.Targets(tokens)
    requires !Unsettled(w, id, w.pool.Targets(tokens))
    ensures w.Delete(tokens).pool.Resolved(w.holders[id]) == w.pool.Resolved(w.holders[id])
  {
    var gone, keys := w.pool.Targets(tokens), w.pool.accounts.Keys;
    TargetsAreEnds(w, tokens);
    assert w.Delete(tokens).pool.accounts.Keys == keys - gone;
    DeletionKeepsSettled(keys, w.pool.aliases, gone, w.holders[id], {}, w.pool.Resolved(w.holders[id]));
  }

  lemma SettledPlaces(w: World, tokens: set<Token>, x: Token)
    requires forall id :: !Unsettled(w, id, w.pool.Targets(tokens))
    ensures w.Delete(tokens).HoldersAt(x) == if x in w.pool.Targets(tokens) then {} else w.HoldersAt(x)
  {
    var v, gone := w.Delete(tokens), w.pool.Targets(tokens);
    forall id ensures id in v.HoldersAt(x) <==> x !in gone && id in w.HoldersAt(x) {
      assert !Unsettled(w, id, gone);
      if id in w.holders && w.pool.Resolved(w.holders[id]) !in gone {
        SettledStays(w, tokens, id);
      }
    }
  }

  /** A deletion keeps slot conservation exactly when it breaks no circle of aliases behind a call that it spares. */
  lemma DeleteConservesIff(w: World, tokens: set<Token>)
    requires w.Conserved()
    ensures w.Delete(tokens).Conserved() <==> forall id :: !Unsettled(w, id, w.pool.Targets(tokens))
  {
    var v, gone, keys := w.Delete(tokens), w.pool.Targets(tokens), w.pool.accounts.Keys;
    if id :| Unsettled(w, id, gone) {
      var r := w.pool.Resolved(w.holders[id]);
      assert v.pool.accounts.Keys == keys - gone;
      forall k | k in v.holders ensures v.pool.Resolved(v.holders[k]) != r {
        UnsettledIsLeft(keys, w.pool.aliases, gone, r, w.holders[k]);
      }
      assert v.HoldersAt(r) == {};
      assert w.Counted(r);
      LostHolderBreaksCount(w, v, id, r);
    } else {
      forall x ensures v.Counted(x) {
        assert w.Counted(x);
        SettledPlaces(w, tokens, x);
      }
    }
  }

  // ---- Every step, every run ----

  /** From any world with exact counts, a step keeps them exact if and only if it is steady. */
  lemma StepConservesIff(w: World, op: Op, cap: nat)
    requires Regular(w) && w.Conserved()
    ensures Next(w, op, cap).Conserved() <==> Steady(w, op)
  {
    match op
    case Acquire(excluded, matches) => AcquireConserves(w, excluded, matches, cap);
    case Release(id) =>
      if id in w.holders {
        HeldReturnConservesIff(w, id);
      } else if id in w.voided {
        VoidedReturnConservesIff(w, id);
      }
    case Rotate(token, renewed) =>
      if Rotates(w, token, renewed) {
        RotateConservesIff(w, token, renewed);
      } else {
        assert w.Rotate(token, renewed).pool == w.pool;
        SameKeepsConserved(w, w.Rotate(token, renewed));
      }
    case Delete(tokens) => DeleteConservesIff(w, tokens);
    case Revise(token, a, drop) =>
      if Drops(w, token, a, drop) {
        DropConservesIff(w, token, a);
      } else {
        ChangeConserves(w, token, a, drop);
      }
    case Import(t, a) =>
      if t != Empty && t !in w.pool.accounts {
        ImportConservesIff(w, t, a);
      } else {
        assert w.Import(t, a).pool.accounts.Keys == w.pool.accounts.Keys;
        SameKeepsConserved(w, w.Import(t, a));
      }
    case Relabel(id, token) =>
      if id in w.holders {
        RelabelConservesIff(w, id, token);
      }
  }

  lemma SameKeepsConserved(w: World, v: World)
    requires w.Conserved() && v.holders == w.holders && v.pool.inflight == w.pool.inflight
    requires v.pool.accounts.Keys == w.pool.accounts.Keys && v.pool.aliases == w.pool.aliases
    ensures v.Conserved()
  {
    forall x ensures v.Counted(x) {
      assert w.Counted(x);
      SamePlaces(w, v, x);
    }
  }

  /** The slots that a rotation brings together fit under the cap. */
  predicate Fits(w: World, op: Op, cap: nat) {
    op.Rotate? && Rotates(w, op.token, op.renewed) ==>
      w.pool.Inflight(w.pool.Resolved(op.token)) + w.pool.Inflight(op.renewed) <= cap
  }

  /** A rotation into any key keeps the cap exactly when the two keys' slots fit under it together. */
  lemma RotateKeepsCapIff(w: World, token: Token, renewed: Token, cap: nat)
    requires w.WithinCap(cap) && Rotates(w, token, renewed)
    ensures w.Rotate(token, renewed).WithinCap(cap)
       <==> w.pool.Inflight(w.pool.Resolved(token)) + w.pool.Inflight(renewed) <= cap
  {
    var v := w.Rotate(token, renewed);
    RotatedInflight(w.pool, token, renewed, renewed);
    assert v.WithinCap(cap) ==> v.pool.Inflight(renewed) <= cap;
    forall x ensures x != renewed ==> v.pool.Inflight(x) <= cap {
      RotatedInflight(w.pool, token, renewed, x);
    }
  }

  lemma StepKeepsCapIff(w: World, op: Op, cap: nat)
    requires w.WithinCap(cap)
    ensures Next(w, op, cap).WithinCap(cap) <==> Fits(w, op, cap)
  {
    if op.Rotate? && Rotates(w, op.token, op.renewed) {
      RotateKeepsCapIff(w, op.token, op.renewed, cap);
    } else {
      if op.Acquire? && w.pool.Choice(op.excluded, op.matches, cap).Granted? {
        GrantIsFree(w.pool, op.excluded, op.matches, cap, w.pool.Choice(op.excluded, op.matches, cap).token);
      }
      forall x ensures Next(w, op, cap).pool.Inflight(x) <= cap {
        assert w.pool.Inflight(x) <= cap;
      }
    }
  }

  ghost function Reached(w: World, ops: seq<Op>, cap: nat): World {
    if ops == [] then w else Next(Reached(w, ops[..|ops| - 1], cap), ops[|ops| - 1], cap)
  }

  /** Exact counts within the cap, after every step of a run. */
  ghost predicate AlwaysConserved(w: World, ops: seq<Op>, cap: nat) {
    var end := Reached(w, ops, cap);
    end.Conserved() && end.WithinCap(cap) && (ops == [] || AlwaysConserved(w, ops[..|ops| - 1], cap))
  }

  ghost predicate AllSteady(w: World, ops: seq<Op>, cap: nat) {
    ops == [] ||
    var front, op := ops[..|ops| - 1], ops[|ops| - 1];
    var mid := Reached(w, front, cap);
    AllSteady(w, front, cap) && Steady(mid, op) && Fits(mid, op, cap)
  }

  lemma {:induction false} ReachedIsRegular(w: World, ops: seq<Op>, cap: nat)
    requires Regular(w)
    ensures Regular(Reached(w, ops, cap))
  {
    if ops == [] {
    } else {
      ReachedIsRegular(w, ops[..|ops| - 1], cap);
      RegularStep(Reached(w, ops[..|ops| - 1], cap), ops[|ops| - 1], cap);
    }
  }

  /**
   Over any run whatever, every count stays the number of holders and within the cap if and only if every
   step is steady and fits.
   */
  lemma {:induction false} RunsConserveIff(w: World, ops: seq<Op>, cap: nat)
    requires Regular(w) && w.Conserved() && w.WithinCap(cap)
    ensures AlwaysConserved(w, ops, cap) <==> AllSteady(w, ops, cap)
  {
    if ops == [] {
    } else {
      var front, op := ops[..|ops| - 1], ops[|ops| - 1];
      RunsConserveIff(w, front, cap);
      if AlwaysConserved(w, front, cap) {
        var mid := Reached(w, front, cap);
        ReachedIsRegular(w, front, cap);
        StepConservesIff(mid, op, cap);
        StepKeepsCapIff(mid, op, cap);
      }
    }
  }

  /** After such a run, once nobody holds a slot, no counter is left. */
  lemma SteadyRunLeavesNothing(w: World, ops: seq<Op>, cap: nat)
    requires Regular(w) && w.Conserved() && w.WithinCap(cap) && AllSteady(w, ops, cap)
    requires Reached(w, ops, cap).holders == map[]
    ensures Reached(w, ops, cap).pool.inflight == map[]
  {
    var end := Reached(w, ops, cap);
    RunsConserveIff(w, ops, cap);
    ReachedIsRegular(w, ops, cap);
    forall t ensures t !in end.pool.inflight {
      assert end.Counted(t) && end.HoldersAt(t) == {};
    }
  }

  /** From a safe world, steps with keys that are pooled or unclaimed are steady. */
  lemma PermittedIsSteady(w: World, op: Op, cap: nat)
    requires w.Safe(cap) && Permitted(w, op, cap)
    ensures Regular(w) && Steady(w, op) && Fits(w, op, cap)
  {
    StepKeepsSafe(w, op, cap);
    StepConservesIff(w, op, cap);
    StepKeepsCapIff(w, op, cap);
  }

  // ---- Failing runs ----

  /** One account, with these slots counted and held, and these lost. */
  function OneKey(a: Account, inflight: map<Token, nat>, index: nat, holders: map<nat, Token>, voided: map<nat, Token>,
                  nextId: nat): World
  {
    World(Pool([Key(0)], map[Key(0) := a], map[], inflight, index), holders, voided, {Key(0)}, nextId)
  }

  /** One account with its only slot handed out. */
  function OneSlotOut(a: Account): World {
    OneKey(a, map[Key(0) := 1], 1, map[0 := Key(0)], map[], 1)
  }

  lemma OneSlotIsSafe(a: Account)
    ensures OneSlotOut(a).Safe(1) && Regular(OneSlotOut(a))
  {
    var w := OneSlotOut(a);
    forall x ensures w.Counted(x) {
      assert w.pool.Resolved(Key(0)) == Key(0);
      assert w.HoldersAt(x) == if x == Key(0) then {0} else {};
    }
  }

  /**
   The failing run: with a slot out under Key(0) the key is rotated to Key(1), Key(0) is imported
   again and the slot is released.  Nobody holds a slot any more, but the counter at Key(1) stays.
   */
  lemma ReimportLeaksSlot(a: Account)
    ensures OneSlotOut(a).Safe(1)
    ensures var v := OneSlotOut(a).Rotate(Key(0), Key(1)).Import(Key(0), a).Return(0);
            v.holders == map[] && v.pool.Inflight(Key(1)) == 1
  {
    OneSlotIsSafe(a);
    var w2 := OneSlotOut(a).Rotate(Key(0), Key(1));
    assert w2.pool.inflight == map[Key(1) := 1];
    var w3 := w2.Import(Key(0), a);
    assert w3.pool.inflight == map[Key(1) := 1] && w3.holders[0] == Key(0);
    assert w3.pool.Resolved(Key(0)) == Key(0);
  }

  const ANY: Filter := _ => true

  /** The only token that is ready, with room under the cap, is chosen. */
  lemma ChoosesOnly(p: Pool, excluded: set<Token>, t: Token, cap: nat)
    requires t in p.order && p.Matched(t, excluded, ANY) && ImageAvailable(p.accounts[t]) && p.Inflight(t) < cap
    requires forall s :: s in p.order && p.Matched(s, excluded, ANY) ==> s == t
    ensures p.Choice(excluded, ANY, cap) == Granted(t)
  {
    var tokens := p.Candidates(excluded, ANY, cap);
    assert t in p.Ready(excluded, ANY) && t in tokens;
    assert tokens[p.index % |tokens|] in tokens;
  }

  function Deleted(): World {
    World(Pool([], map[], map[], map[], 0), map[], map[0 := Key(0)], {Key(0)}, 1)
  }

  lemma OnlyTarget(p: Pool, t: Token)
    requires t in p.accounts && t != Empty
    ensures p.Targets({t}) == {t}
  {
    assert p.Resolved(t) == t;
  }

  lemma NothingLeft<K, V>(m: map<K, V>, t: K)
    requires m.Keys <= {t}
    ensures m - {t} == map[]
  {
  }

  /** Deleting the only account leaves nothing. */
  lemma DeletingAll(a: Account)
    ensures OneSlotOut(a).pool.Deleted({Key(0)}) == Pool([], map[], map[], map[], 0)
  {
    var p, t := OneSlotOut(a).pool, Key(0);
    OnlyTarget(p, t);
    WithoutOne(t, In({t}));
    NothingLeft(p.accounts, t);
    NothingLeft(p.inflight, t);
    assert Pruned(map[], {t}) == map[];
    assert t in {t} * p.accounts.Keys;
  }

  lemma DeletingVoids(a: Account)
    ensures OneSlotOut(a).Delete({Key(0)}) == Deleted()
  {
    var w := OneSlotOut(a);
    OnlyTarget(w.pool, Key(0));
    DeletingAll(a);
    NothingLeft(map[0 := Key(0)], 0);
    assert w.pool.Resolved(Key(0)) == Key(0);
  }

  lemma DeletingIsSteady(a: Account)
    ensures Steady(OneSlotOut(a), Op.Delete({Key(0)}))
  {
    OneSlotIsSafe(a);
    DeleteKeepsSafe(OneSlotOut(a), {Key(0)}, 1);
    DeleteConservesIff(OneSlotOut(a), {Key(0)});
  }

  lemma ImportingAgain(a: Account)
    ensures Deleted().Import(Key(0), a) == OneKey(a, map[], 0, map[], map[0 := Key(0)], 1)
    ensures Steady(Deleted(), Op.Import(Key(0), a))
  {
    assert {Key(0)} + {Key(0)} == {Key(0)};
  }

  lemma AcquiringAgain(a: Account)
    requires ImageAvailable(a)
    ensures var w := OneKey(a, map[], 0, map[], map[0 := Key(0)], 1);
            Next(w, Acquire({}, ANY), 1)
            == OneKey(a, map[Key(0) := 1], 1, map[1 := Key(0)], map[0 := Key(0)], 2)
  {
    ChoosesOnly(OneKey(a, map[], 0, map[], map[0 := Key(0)], 1).pool, {}, Key(0), 1);
  }

  lemma ReleasingLate(a: Account)
    ensures var w := OneKey(a, map[Key(0) := 1], 1, map[1 := Key(0)], map[0 := Key(0)], 2);
            w.Return(0) == OneKey(a, map[], 1, map[1 := Key(0)], map[], 2) && !Steady(w, Release(0))
  {
    var w := OneKey(a, map[Key(0) := 1], 1, map[1 := Key(0)], map[0 := Key(0)], 2);
    assert w.pool.Resolved(Key(0)) == Key(0);
  }

  /**
   A failing run without any rotation: the account is deleted with its slot out and imported again; a new
   call takes the slot, and then the old one releases. The counter is back at zero while the new call holds its
   slot, and one more call gets it, over the cap. Every step but the release is steady.
   */
  lemma VoidedReturnOverbooks(a: Account)
    requires ImageAvailable(a)
    ensures var w0 := OneSlotOut(a);
            var w1 := w0.Delete({Key(0)});
            var w2 := w1.Import(Key(0), a);
            var w3 := Next(w2, Acquire({}, ANY), 1);
            var w4 := w3.Return(0);
            && Steady(w0, Op.Delete({Key(0)})) && Steady(w1, Op.Import(Key(0), a)) && !Steady(w3, Release(0))
            && w4.holders == map[1 := Key(0)] && w4.pool.Inflight(Key(0)) == 0
            && w4.pool.Choice({}, ANY, 1) == Granted(Key(0))
  {
    DeletingVoids(a);
    DeletingIsSteady(a);
    ImportingAgain(a);
    AcquiringAgain(a);
    ReleasingLate(a);
    ChoosesOnly(OneKey(a, map[], 1, map[1 := Key(0)], map[], 2).pool, {}, Key(0), 1);
  }

  /** The old key is back in the pool beside the new one, and its alias is still there. */
  function Doubled(a: Account, inflight: map<Token, nat>, index: nat, holders: map<nat, Token>, nextId: nat): World {
    World(Pool([Key(1), Key(0)], map[Key(1) := a, Key(0) := a], map[Key(0) := Key(1)], inflight, index),
          holders, map[], {Key(0), Key(1)}, nextId)
  }

  lemma SecondChoice(a: Account)
    requires ImageAvailable(a)
    ensures Next(Doubled(a, map[], 0, map[], 0), Acquire({Key(1)}, ANY), 1)
            == Doubled(a, map[Key(0) := 1], 1, map[0 := Key(0)], 1)
  {
    ChoosesOnly(Doubled(a, map[], 0, map[], 0).pool, {Key(1)}, Key(0), 1);
  }

  lemma RotatingAndImporting(a: Account)
    ensures var w0 := OneKey(a, map[], 0, map[], map[], 0); var w1 := w0.Rotate(Key(0), Key(1));
            && Initial(w0) && Steady(w0, Op.Rotate(Key(0), Key(1)))
            && Steady(w1, Op.Import(Key(0), a)) && w1.Import(Key(0), a) == Doubled(a, map[], 0, map[], 0)
  {
    var w0 := OneKey(a, map[], 0, map[], map[], 0);
    assert w0.pool.Resolved(Key(0)) == Key(0);
    assert [Key(0)][1..] == [];
    var w1 := w0.Rotate(Key(0), Key(1));
    assert w1.pool == Pool([Key(1)], map[Key(1) := a], map[Key(0) := Key(1)], map[], 0);
  }

  lemma DroppingLeaks(a: Account, limited: Account)
    requires limited.status.Limited?
    ensures var w := Doubled(a, map[Key(0) := 1], 1, map[0 := Key(0)], 1);
            var v := w.Revise(Key(0), limited, true).Return(0);
            !Steady(w, Op.Revise(Key(0), limited, true)) && v.holders == map[] && v.pool.Inflight(Key(0)) == 1
  {
    var w := Doubled(a, map[Key(0) := 1], 1, map[0 := Key(0)], 1);
    var keys, aliases := w.pool.accounts.Keys, w.pool.aliases;
    assert w.pool.Resolved(Key(0)) == Key(0);
    assert keys - {Key(0)} == {Key(1)};
    assert ResolveFrom({Key(1)}, aliases, Key(1), {Key(0)}) == Key(1);
    assert Resolve({Key(1)}, aliases, Key(0)) == Key(1);
    assert Slips(w, 0, Key(0));
    assert w.Revise(Key(0), limited, true).pool.accounts.Keys == {Key(1)};
  }

  /**
   A failing run without a late release: the key is rotated with nothing out and imported again; its slot is
   taken, and the account is found limited and dropped. The token leads to the new key now, and the counter at
   the old one stays when the slot is released. Every step but the drop is steady.
   */
  lemma DropLeaksSlot(a: Account, limited: Account)
    requires ImageAvailable(a) && limited.status.Limited?
    ensures var w0 := OneKey(a, map[], 0, map[], map[], 0);
            var w1 := w0.Rotate(Key(0), Key(1));
            var w2 := w1.Import(Key(0), a);
            var w3 := Next(w2, Acquire({Key(1)}, ANY), 1);
            var w5 := w3.Revise(Key(0), limited, true).Return(0);
            && Initial(w0) && Steady(w0, Op.Rotate(Key(0), Key(1))) && Steady(w1, Op.Import(Key(0), a))
            && !Steady(w3, Op.Revise(Key(0), limited, true))
            && w5.holders == map[] && w5.pool.Inflight(Key(0)) == 1
  {
    RotatingAndImporting(a);
    SecondChoice(a);
    DroppingLeaks(a, limited);
  }
}
