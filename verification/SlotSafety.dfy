/**
 Slot conservation over whole runs of the account pool.
 */
module SlotSafety {
  import opened Sequences
  import opened TokenAliases
  import opened SlotPool

  // ---- Facts about one state ----

  lemma {:induction false} ResolvesWithinUsed(w: World, t: Token, seen: set<Token>)
    requires w.Sound() && t in w.used
    ensures ResolveFrom(w.pool.accounts.Keys, w.pool.aliases, t, seen) in w.used
    decreases w.pool.aliases.Keys - seen
  {
    if Follows(w.pool.accounts.Keys, w.pool.aliases, t) && t !in seen {
      assert w.pool.aliases[t] in w.pool.aliases.Values;
      ResolvesWithinUsed(w, w.pool.aliases[t], seen + {t});
    }
  }

  /** What a granted slot guarantees: a pooled, matching, non-excluded token with room under the cap. */
  lemma GrantIsFree(p: Pool, excluded: set<Token>, matches: Filter, cap: nat, t: Token)
    requires p.Choice(excluded, matches, cap) == Granted(t)
    ensures p.Matched(t, excluded, matches) && ImageAvailable(p.accounts[t])
    ensures p.Inflight(t) < cap
  {
    var tokens := p.Candidates(excluded, matches, cap);
    assert tokens[p.index % |tokens|] in tokens;
  }

  lemma HolderTokensUsed(w: World, id: nat)
    requires w.Sound()
    ensures id in w.holders ==> w.holders[id] in w.used && w.pool.Resolved(w.holders[id]) in w.used
    ensures id in w.voided ==> w.voided[id] in w.used && w.pool.Resolved(w.voided[id]) in w.used
  {
    if id in w.holders {
      assert w.holders[id] in w.holders.Values;
      ResolvesWithinUsed(w, w.holders[id], {});
    }
    if id in w.voided {
      assert w.voided[id] in w.voided.Values;
      ResolvesWithinUsed(w, w.voided[id], {});
    }
  }

  /** Nobody holds a slot at a token that was never pooled, nor at an alias. */
  lemma NoHoldersOutside(w: World, t: Token)
    requires w.Sound() && w.Counted(t)
    requires t !in w.used || t in w.pool.aliases
    ensures w.HoldersAt(t) == {} && t !in w.pool.inflight
  {
    forall id | id in w.holders ensures w.pool.Resolved(w.holders[id]) != t {
      HolderTokensUsed(w, id);
    }
    assert w.HoldersAt(t) == {};
    assert w.pool.Inflight(t) == 0;
  }

  // ---- Acquiring ----

  lemma GrantPlaces(w: World, t: Token, x: Token)
    requires w.Numbered() && t in w.pool.accounts
    ensures w.Grant(t).HoldersAt(x) == w.HoldersAt(x) + if x == t then {w.nextId} else {}
  {
    var v := w.Grant(t);
    forall id ensures id in v.HoldersAt(x) <==> id in w.HoldersAt(x) || (x == t && id == w.nextId) {}
  }

  lemma GrantCounts(w: World, t: Token, x: Token)
    requires w.Counted(x) && w.Numbered() && t in w.pool.accounts
    ensures w.Grant(t).Counted(x)
  {
    GrantPlaces(w, t, x);
    assert w.nextId !in w.HoldersAt(x);
  }

  lemma GrantKeepsSound(w: World, t: Token)
    requires w.Sound() && t in w.pool.accounts
    ensures w.Grant(t).Sound()
  {
    var v := w.Grant(t);
    assert v.holders.Values <= w.holders.Values + {t};
    forall x ensures v.pool.Resolved(x) !in v.pool.aliases {
      assert w.pool.Resolved(x) !in w.pool.aliases;
    }
    assert w.pool.Resolved(t) == t;
    forall id | id in v.voided ensures v.Dead(v.pool.Resolved(v.voided[id])) {
      assert w.Dead(w.pool.Resolved(w.voided[id]));
    }
  }

  lemma GrantKeepsSafe(w: World, t: Token, cap: nat)
    requires w.Safe(cap) && t in w.pool.accounts && w.pool.Inflight(t) < cap
    ensures w.Grant(t).Safe(cap)
  {
    GrantKeepsSound(w, t);
    forall x ensures w.Grant(t).Counted(x) {
      assert w.Counted(x);
      GrantCounts(w, t, x);
    }
    forall x ensures w.Grant(t).pool.Inflight(x) <= cap {
      assert w.pool.Inflight(x) <= cap;
    }
  }

  // ---- Releasing ----

  lemma ReturnPlaces(w: World, id: nat, x: Token)
    requires id in w.holders
    ensures w.Return(id).HoldersAt(x)
         == w.HoldersAt(x) - if x == w.pool.Resolved(w.holders[id]) then {id} else {}
  {
    var v := w.Return(id);
    forall k ensures k in v.HoldersAt(x) <==> k in w.HoldersAt(x) && (k != id || x != w.pool.Resolved(w.holders[id])) {}
  }

  lemma ReturnCounts(w: World, id: nat, x: Token)
    requires w.Counted(x) && id in w.holders && w.holders[id] != Empty
    ensures w.Return(id).Counted(x)
  {
    ReturnPlaces(w, id, x);
    if x == w.pool.Resolved(w.holders[id]) {
      assert id in w.HoldersAt(x);
    }
  }

  /** A caller that lost its slot to a deletion changes nothing when it releases it. */
  lemma VoidedReturnIsHarmless(w: World, id: nat)
    requires w.Sound() && id in w.voided
    ensures w.Return(id) == w.(voided := w.voided - {id})
  {
    HolderTokensUsed(w, id);
    assert w.Dead(w.pool.Resolved(w.voided[id]));
    assert w.pool.Released(w.voided[id]).inflight == w.pool.inflight;
  }

  lemma ReturnKeepsSound(w: World, id: nat)
    requires w.Sound()
    ensures w.Return(id).Sound()
  {
    var v := w.Return(id);
    if id in w.voided {
      VoidedReturnIsHarmless(w, id);
    }
    forall x ensures v.pool.Resolved(x) == w.pool.Resolved(x) {}
    forall x ensures v.pool.Resolved(x) !in v.pool.aliases {
      assert w.pool.Resolved(x) !in w.pool.aliases;
    }
    forall k | k in v.voided ensures v.Dead(v.pool.Resolved(v.voided[k])) {
      assert w.Dead(w.pool.Resolved(w.voided[k]));
    }
  }

  lemma ReturnKeepsSafe(w: World, id: nat, cap: nat)
    requires w.Safe(cap)
    ensures w.Return(id).Safe(cap)
  {
    ReturnKeepsSound(w, id);
    var v := w.Return(id);
    HolderTokensUsed(w, id);
    if id in w.voided {
      VoidedReturnIsHarmless(w, id);
    }
    forall x ensures v.Counted(x) {
      assert w.Counted(x);
      if id in w.holders {
        ReturnCounts(w, id, x);
      } else {
        SamePlaces(w, v, x);
      }
    }
    forall x ensures v.pool.Inflight(x) <= cap {
      assert w.pool.Inflight(x) <= cap;
    }
  }

  /** Same holders, same resolutions, same counters: the same counts. */
  lemma SamePlaces(w: World, v: World, x: Token)
    requires w.Counted(x) && v.holders == w.holders && v.pool.Inflight(x) == w.pool.Inflight(x)
    requires forall id | id in w.holders :: v.pool.Resolved(w.holders[id]) == w.pool.Resolved(w.holders[id])
    ensures v.Counted(x)
  {
    assert v.HoldersAt(x) == w.HoldersAt(x);
  }

  // ---- Rotating ----

  lemma RotatedResolves(p: Pool, token: Token, renewed: Token, x: Token)
    requires Empty !in p.accounts && p.accounts.Keys !! p.aliases.Keys
    requires p.Resolved(token) in p.accounts && renewed != Empty && renewed != p.Resolved(token)
    requires renewed in p.accounts || renewed !in p.aliases
    ensures var t := p.Resolved(token);
            p.Rotated(token, renewed).Resolved(x) == if p.Resolved(x) == t then renewed else p.Resolved(x)
  {
    var t := p.Resolved(token);
    var q := p.Rotated(token, renewed);
    assert q.accounts.Keys == p.accounts.Keys - {t} + {renewed};
    RotationMovesOldOnly(p.accounts.Keys, p.aliases, t, renewed, x, {});
  }

  /** A rotation that changes the key. */
  predicate Rotates(w: World, token: Token, renewed: Token) {
    w.pool.Resolved(token) in w.pool.accounts && renewed != Empty && renewed != w.pool.Resolved(token)
  }

  lemma RotatePlaces(w: World, token: Token, renewed: Token, x: Token)
    requires w.Sound() && Rotates(w, token, renewed)
    requires renewed in w.pool.accounts || renewed !in w.pool.aliases
    ensures w.Rotate(token, renewed).HoldersAt(x)
         == if x == renewed then w.HoldersAt(w.pool.Resolved(token)) + w.HoldersAt(x)
            else if x == w.pool.Resolved(token) then {}
            else w.HoldersAt(x)
  {
    var t := w.pool.Resolved(token);
    var v := w.Rotate(token, renewed);
    forall id ensures id in v.HoldersAt(x) <==>
                      if x == renewed then id in w.HoldersAt(t) || id in w.HoldersAt(x) else x != t && id in w.HoldersAt(x)
    {
      if id in w.holders {
        RotatedResolves(w.pool, token, renewed, w.holders[id]);
      }
    }
  }

  lemma RotatedInflight(p: Pool, token: Token, renewed: Token, x: Token)
    requires p.Resolved(token) in p.accounts && renewed != Empty && renewed != p.Resolved(token)
    ensures p.Rotated(token, renewed).Inflight(x)
         == if x == renewed then p.Inflight(p.Resolved(token)) + p.Inflight(x)
            else if x == p.Resolved(token) then 0
            else p.Inflight(x)
  {
  }

  /** The slots of the old key move to the new one, together with those already there. */
  lemma RotateCounts(w: World, token: Token, renewed: Token, x: Token)
    requires w.Sound() && Rotates(w, token, renewed)
    requires renewed in w.pool.accounts || renewed !in w.pool.aliases
    requires w.Counted(x) && w.Counted(renewed) && w.Counted(w.pool.Resolved(token))
    ensures w.Rotate(token, renewed).Counted(x)
  {
    RotatePlaces(w, token, renewed, x);
    RotatedInflight(w.pool, token, renewed, x);
    PlacesAreApart(w, w.pool.Resolved(token), renewed);
  }

  lemma PlacesAreApart(w: World, t: Token, u: Token)
    requires t != u
    ensures |w.HoldersAt(t) + w.HoldersAt(u)| == |w.HoldersAt(t)| + |w.HoldersAt(u)|
  {
    assert w.HoldersAt(t) !! w.HoldersAt(u);
  }

  lemma RotateKeepsSound(w: World, token: Token, renewed: Token)
    requires w.Sound() && Rotates(w, token, renewed) && Unclaimed(w, renewed)
    ensures w.Rotate(token, renewed).Sound()
  {
    var t := w.pool.Resolved(token);
    var v := w.Rotate(token, renewed);
    forall x ensures v.pool.Resolved(x) !in v.pool.aliases {
      RotatedResolves(w.pool, token, renewed, x);
      assert w.pool.Resolved(x) !in w.pool.aliases;
    }
    forall id | id in v.voided ensures v.Dead(v.pool.Resolved(v.voided[id])) {
      RotatedResolves(w.pool, token, renewed, w.voided[id]);
      assert w.Dead(w.pool.Resolved(w.voided[id]));
    }
    assert v.pool.aliases.Values <= w.pool.aliases.Values + {renewed};
  }

  lemma RotateKeepsSafe(w: World, token: Token, renewed: Token, cap: nat)
    requires w.Safe(cap) && Permitted(w, Op.Rotate(token, renewed), cap)
    ensures w.Rotate(token, renewed).Safe(cap)
  {
    var t := w.pool.Resolved(token);
    var v := w.Rotate(token, renewed);
    if !Rotates(w, token, renewed) {
      assert v == w;
    } else {
      RotateKeepsSound(w, token, renewed);
      assert w.Counted(renewed) && w.Counted(t);
      forall x ensures v.Counted(x) {
        assert w.Counted(x);
        RotateCounts(w, token, renewed, x);
      }
      forall x ensures v.pool.Inflight(x) <= cap {
        RotatedInflight(w.pool, token, renewed, x);
        assert w.pool.Inflight(x) <= cap;
      }
    }
  }

  /** A key that was never pooled is unclaimed and has no slots. */
  lemma NewIsUnclaimed(w: World, t: Token)
    requires w.Sound() && w.Conserved() && t !in w.used
    ensures Unclaimed(w, t) && t !in w.pool.accounts && w.pool.Inflight(t) == 0
  {
    assert w.Counted(t);
    NoHoldersOutside(w, t);
    forall id | id in w.voided ensures w.pool.Resolved(w.voided[id]) != t {
      HolderTokensUsed(w, id);
    }
  }

  // ---- Deleting ----

  lemma DeletedResolves(w: World, tokens: set<Token>, x: Token)
    requires w.Sound() && w.Conserved()
    ensures var r, after := w.pool.Resolved(x), w.pool.Deleted(tokens).Resolved(x);
            && after !in w.pool.Deleted(tokens).aliases
            && (r !in w.pool.Targets(tokens) ==> after == r)
            && (r in w.pool.Targets(tokens) ==> w.Delete(tokens).Dead(after))
  {
    var gone := w.pool.Targets(tokens);
    var q := w.pool.Deleted(tokens);
    assert q.accounts.Keys == w.pool.accounts.Keys - gone;
    assert gone !! w.pool.aliases.Keys by {
      forall t | t in tokens ensures w.pool.Resolved(t) !in w.pool.aliases {}
    }
    assert w.pool.Resolved(x) !in w.pool.aliases;
    DeletionKeepsOthers(w.pool.accounts.Keys, w.pool.aliases, gone, x, {});
    var after := q.Resolved(x);
    if after in w.pool.aliases {
      assert w.Counted(after);
      NoHoldersOutside(w, after);
    }
  }

  lemma DeletePlace(w: World, tokens: set<Token>, x: Token, id: nat)
    requires w.Sound() && w.Conserved()
    ensures id in w.Delete(tokens).HoldersAt(x) <==> id in w.HoldersAt(x) && x !in w.pool.Targets(tokens)
  {
    if id in w.holders {
      DeletedResolves(w, tokens, w.holders[id]);
    }
  }

  lemma DeletePlaces(w: World, tokens: set<Token>, x: Token)
    requires w.Sound() && w.Conserved()
    ensures w.Delete(tokens).HoldersAt(x) == if x in w.pool.Targets(tokens) then {} else w.HoldersAt(x)
  {
    forall id ensures id in w.Delete(tokens).HoldersAt(x) <==> id in w.HoldersAt(x) && x !in w.pool.Targets(tokens) {
      DeletePlace(w, tokens, x, id);
    }
  }

  lemma DeleteCounts(w: World, tokens: set<Token>, x: Token)
    requires w.Sound() && w.Conserved()
    ensures w.Delete(tokens).Counted(x)
  {
    DeletePlaces(w, tokens, x);
    assert w.Counted(x);
    assert w.pool.Deleted(tokens).Inflight(x) == if x in w.pool.Targets(tokens) then 0 else w.pool.Inflight(x);
  }

  lemma DeleteBuries(w: World, tokens: set<Token>, id: nat)
    requires w.Sound() && w.Conserved() && id in w.Delete(tokens).voided
    ensures w.Delete(tokens).Dead(w.Delete(tokens).pool.Resolved(w.Delete(tokens).voided[id]))
  {
    var x := w.Delete(tokens).voided[id];
    DeletedResolves(w, tokens, x);
    if id in w.voided {
      assert w.Dead(w.pool.Resolved(w.voided[id]));
    }
  }

  lemma DeleteKeepsTidy(w: World, tokens: set<Token>)
    requires w.Tidy()
    ensures w.Delete(tokens).Tidy()
  {
    var v := w.Delete(tokens);
    assert v.pool.aliases.Values <= w.pool.aliases.Values;
    assert v.voided.Values <= w.voided.Values + w.holders.Values;
  }

  lemma DeleteKeepsSound(w: World, tokens: set<Token>)
    requires w.Sound() && w.Conserved()
    ensures w.Delete(tokens).Sound()
  {
    var v := w.Delete(tokens);
    DeleteKeepsTidy(w, tokens);
    assert v.Acyclic() by {
      forall x ensures v.pool.Resolved(x) !in v.pool.aliases {
        DeletedResolves(w, tokens, x);
      }
    }
    assert v.Buried() by {
      forall id | id in v.voided ensures v.Dead(v.pool.Resolved(v.voided[id])) {
        DeleteBuries(w, tokens, id);
      }
    }
  }

  lemma DeleteKeepsSafe(w: World, tokens: set<Token>, cap: nat)
    requires w.Safe(cap)
    ensures w.Delete(tokens).Safe(cap)
  {
    DeleteKeepsSound(w, tokens);
    forall x ensures w.Delete(tokens).Counted(x) {
      DeleteCounts(w, tokens, x);
    }
    forall x ensures w.Delete(tokens).pool.Inflight(x) <= cap {
      assert w.pool.Inflight(x) <= cap;
    }
  }

  // ---- Changing and importing accounts ----

  lemma RevisedResolves(p: Pool, token: Token, a: Account, dropLimited: bool, x: Token)
    requires p.accounts.Keys !! p.aliases.Keys
    ensures p.Revised(token, a, dropLimited).Resolved(x) == p.Resolved(x)
  {
    var t := p.Resolved(token);
    var q := p.Revised(token, a, dropLimited);
    if q.accounts.Keys != p.accounts.Keys {
      assert q.accounts.Keys == p.accounts.Keys - {t};
      RemovalKeepsAll(p.accounts.Keys, p.aliases, t, x, {});
    }
  }

  lemma ReviseKeepsSafe(w: World, token: Token, a: Account, dropLimited: bool, cap: nat)
    requires w.Safe(cap)
    ensures w.Revise(token, a, dropLimited).Safe(cap)
  {
    var v := w.Revise(token, a, dropLimited);
    forall x ensures v.pool.Resolved(x) == w.pool.Resolved(x) {
      RevisedResolves(w.pool, token, a, dropLimited, x);
    }
    forall x ensures v.pool.Resolved(x) !in v.pool.aliases {
      assert w.pool.Resolved(x) !in w.pool.aliases;
    }
    forall id | id in v.voided ensures v.Dead(v.pool.Resolved(v.voided[id])) {
      assert w.Dead(w.pool.Resolved(w.voided[id]));
    }
    forall x ensures v.Counted(x) {
      assert w.Counted(x);
      SamePlaces(w, v, x);
    }
    forall x ensures v.pool.Inflight(x) <= cap {
      assert w.pool.Inflight(x) <= cap;
    }
  }

  /** A key without an alias that comes in changes no resolution. */
  lemma ImportResolves(w: World, t: Token, a: Account, x: Token)
    requires t == Empty || t in w.pool.accounts || t !in w.pool.aliases
    ensures w.Import(t, a).pool.Resolved(x) == w.pool.Resolved(x)
  {
    var v, keys := w.Import(t, a), w.pool.accounts.Keys;
    if t in keys || t == Empty {
      assert v.pool.accounts.Keys == keys;
    } else {
      assert v.pool.accounts.Keys == keys + {t} && keys + {t} - {t} == keys;
      RemovalKeepsAll(keys + {t}, w.pool.aliases, t, x, {});
    }
  }

  lemma ImportKeepsSafe(w: World, t: Token, a: Account, cap: nat)
    requires w.Safe(cap) && Permitted(w, Op.Import(t, a), cap)
    ensures w.Import(t, a).Safe(cap)
  {
    var v := w.Import(t, a);
    forall x ensures v.pool.Resolved(x) == w.pool.Resolved(x) && w.pool.Resolved(x) !in v.pool.aliases {
      ImportResolves(w, t, a, x);
      assert w.pool.Resolved(x) !in w.pool.aliases;
    }
    forall id | id in w.voided ensures v.Dead(v.pool.Resolved(v.voided[id])) {
      assert w.Dead(w.pool.Resolved(w.voided[id]));
    }
    forall x ensures v.Counted(x) {
      assert w.Counted(x);
      SamePlaces(w, v, x);
    }
    forall x ensures v.pool.Inflight(x) <= cap {
      assert w.pool.Inflight(x) <= cap;
    }
  }

  lemma RelabellingKeepsSafe(w: World, id: nat, t: Token, cap: nat)
    requires w.Safe(cap) && (id in w.holders ==> Holding(w, id, t))
    ensures Relabelled(w, id, t).Safe(cap)
  {
    var v := Relabelled(w, id, t);
    if id in w.holders {
      assert v.holders.Values <= w.holders.Values + {t};
      forall x ensures v.pool.Resolved(x) !in v.pool.aliases {
        assert w.pool.Resolved(x) !in w.pool.aliases;
      }
      forall k | k in v.voided ensures v.Dead(v.pool.Resolved(v.voided[k])) {
        assert w.Dead(w.pool.Resolved(w.voided[k]));
      }
      forall x ensures v.Counted(x) {
        assert w.Counted(x);
        assert v.HoldersAt(x) == w.HoldersAt(x);
      }
      forall x ensures v.pool.Inflight(x) <= cap {
        assert w.pool.Inflight(x) <= cap;
      }
    }
  }

  /** Every atomic step keeps slot conservation and the cap. */
  lemma StepKeepsSafe(w: World, op: Op, cap: nat)
    requires w.Safe(cap) && Permitted(w, op, cap)
    ensures Next(w, op, cap).Safe(cap)
  {
    match op
    case Acquire(excluded, matches) =>
      var pick := w.pool.Choice(excluded, matches, cap);
      if pick.Granted? {
        GrantIsFree(w.pool, excluded, matches, cap, pick.token);
        GrantKeepsSafe(w, pick.token, cap);
      }
    case Release(id) => ReturnKeepsSafe(w, id, cap);
    case Rotate(token, renewed) => RotateKeepsSafe(w, token, renewed, cap);
    case Delete(tokens) => DeleteKeepsSafe(w, tokens, cap);
    case Revise(token, a, drop) => ReviseKeepsSafe(w, token, a, drop, cap);
    case Import(t, a) => ImportKeepsSafe(w, t, a, cap);
    case Relabel(id, t) => RelabellingKeepsSafe(w, id, t, cap);
  }

  // ---- Whole runs ----

  /** `ws` is a run of the service: it starts with an empty in-flight table and takes the steps `ops`. */
  ghost predicate Run(ws: seq<World>, ops: seq<Op>, cap: nat) {
    && |ws| == |ops| + 1
    && Initial(ws[0])
    && forall i :: 0 <= i < |ops| ==> Permitted(ws[i], ops[i], cap) && ws[i + 1] == Next(ws[i], ops[i], cap)
  }

  /** The service as constructed over the accounts it loaded. */
  ghost predicate Initial(w: World) {
    && Empty !in w.pool.accounts
    && w.pool.aliases == map[] && w.pool.inflight == map[]
    && w.holders == map[] && w.voided == map[] && w.used == w.pool.accounts.Keys
  }

  lemma InitialIsSafe(w: World, cap: nat)
    requires Initial(w)
    ensures w.Safe(cap)
  {
    forall t ensures w.HoldersAt(t) == {} {}
  }

  /**
   In every state of every run each token's in-flight count is the number of callers whose
   token, as acquired, stands for it now, and no count exceeds the cap.
   */
  lemma {:induction false} RunsConserveSlots(ws: seq<World>, ops: seq<Op>, cap: nat, i: nat)
    requires Run(ws, ops, cap) && i < |ws|
    ensures ws[i].Safe(cap)
  {
    if i == 0 {
      InitialIsSafe(ws[0], cap);
    } else {
      RunsConserveSlots(ws, ops, cap, i - 1);
      StepKeepsSafe(ws[i - 1], ops[i - 1], cap);
    }
  }

  /** In every run, once every slot has been given back or voided, no counter is left. */
  lemma AllReturnedLeavesNothing(ws: seq<World>, ops: seq<Op>, cap: nat, i: nat)
    requires Run(ws, ops, cap) && i < |ws| && ws[i].holders == map[]
    ensures ws[i].pool.inflight == map[]
  {
    RunsConserveSlots(ws, ops, cap, i);
    forall t ensures ws[i].pool.Inflight(t) == 0 {
      assert ws[i].Counted(t);
      assert ws[i].HoldersAt(t) == {};
    }
    assert forall t :: t in ws[i].pool.inflight ==> ws[i].pool.Inflight(t) > 0;
  }

  /** Dictionary order: removing keys keeps the others, each once. */
  lemma {:induction false} WithoutKeepsOthers(order: seq<Token>, gone: set<Token>)
    ensures forall t :: t in Without(order, In(gone)) <==> t in order && t !in gone
    ensures Distinct(order) ==> Distinct(Without(order, In(gone)))
  {
    if order == [] {
    } else {
      WithoutKeepsOthers(order[1..], gone);
      assert order == [order[0]] + order[1..];
    }
  }

  lemma WithAccountKeepsIndexed(p: Pool, t: Token, a: Account)
    requires p.Indexed() && t != Empty
    ensures p.WithAccount(t, a).Indexed()
  {
  }

  lemma WithoutAccountsKeepsIndexed(p: Pool, gone: set<Token>)
    requires p.Indexed()
    ensures p.WithoutAccounts(gone).Indexed()
  {
    WithoutKeepsOthers(p.order, gone);
  }

  lemma RotatedKeepsIndexed(p: Pool, token: Token, renewed: Token)
    requires p.Indexed()
    ensures p.Rotated(token, renewed).Indexed()
  {
    var t := p.Resolved(token);
    WithoutAccountsKeepsIndexed(p, {t});
    if t in p.accounts {
      WithAccountKeepsIndexed(p.WithoutAccounts({t}), if renewed == Empty then t else renewed, p.accounts[t]);
    }
  }

  lemma DeletedKeepsIndexed(p: Pool, tokens: set<Token>)
    requires p.Indexed()
    ensures p.Deleted(tokens).Indexed()
  {
    WithoutAccountsKeepsIndexed(p, p.Targets(tokens));
  }

  lemma RevisedKeepsIndexed(p: Pool, token: Token, a: Account, dropLimited: bool)
    requires p.Indexed()
    ensures p.Revised(token, a, dropLimited).Indexed()
  {
    WithoutAccountsKeepsIndexed(p, {p.Resolved(token)});
    if p.Resolved(token) in p.accounts {
      WithAccountKeepsIndexed(p, p.Resolved(token), a);
    }
  }

  /** The key order stays a listing of the keys, each once. */
  lemma StepKeepsIndexed(w: World, op: Op, cap: nat)
    requires w.pool.Indexed()
    ensures Next(w, op, cap).pool.Indexed()
  {
    match op
    case Rotate(token, renewed) => RotatedKeepsIndexed(w.pool, token, renewed);
    case Delete(tokens) => DeletedKeepsIndexed(w.pool, tokens);
    case Revise(token, a, drop) => RevisedKeepsIndexed(w.pool, token, a, drop);
    case Import(t, a) =>
      if t != Empty {
        WithAccountKeepsIndexed(w.pool, t, a);
      }
    case _ =>
  }
}
