/**
 What the slot scheduler's choice means, in terms of the accounts alone.
 */
module SlotChoice {
  import opened Sequences
  import opened TokenAliases
  import opened SlotPool

  /** Fit for an image call: normal, or of an unusual status with some quota left or an unknown quota. */
  predicate Servable(a: Account) {
    match a.status
    case Normal => true
    case OtherStatus(_) => a.quotaUnknown || a.quota > 0
    case Disabled => false
    case Limited => false
    case Abnormal => false
  }

  /** `t` is the key of an account that the caller asks for and has not excluded. */
  predicate Asked(p: Pool, t: Token, excluded: set<Token>, matches: Filter) {
    t in p.accounts && t !in excluded && matches(p.accounts[t])
  }

  predicate Serves(p: Pool, t: Token, excluded: set<Token>, matches: Filter) {
    Asked(p, t, excluded, matches) && Servable(p.accounts[t])
  }

  predicate Free(p: Pool, t: Token, excluded: set<Token>, matches: Filter, cap: nat) {
    Serves(p, t, excluded, matches) && (t in p.inflight ==> p.inflight[t] < cap) && cap > 0
  }

  predicate NoneServes(p: Pool, excluded: set<Token>, matches: Filter) {
    forall t :: t in p.accounts ==> !Serves(p, t, excluded, matches)
  }

  predicate NoneFree(p: Pool, excluded: set<Token>, matches: Filter, cap: nat) {
    forall t :: t in p.accounts ==> !Free(p, t, excluded, matches, cap)
  }

  /** Some account is asked for, and all that are have spent their quota. */
  predicate AllSpent(p: Pool, excluded: set<Token>, matches: Filter) {
    && (exists t :: t in p.accounts && Asked(p, t, excluded, matches))
    && (forall t :: t in p.accounts && Asked(p, t, excluded, matches) ==> p.accounts[t].status == Limited)
  }

  /** How many of the keys are free. */
  function FreeAmong(p: Pool, keys: seq<Token>, excluded: set<Token>, matches: Filter, cap: nat): nat {
    if keys == [] then 0
    else (if Free(p, keys[0], excluded, matches, cap) then 1 else 0) + FreeAmong(p, keys[1..], excluded, matches, cap)
  }

  /** `t` is the free key whose turn it is: as many free keys come before it as the index says, modulo their number. */
  ghost predicate HasTurn(p: Pool, t: Token, excluded: set<Token>, matches: Filter, cap: nat) {
    && Free(p, t, excluded, matches, cap)
    && FreeAmong(p, p.order, excluded, matches, cap) > 0
    && exists i: nat :: i < |p.order| && p.order[i] == t
         && FreeAmong(p, p.order[..i], excluded, matches, cap) == p.index % FreeAmong(p, p.order, excluded, matches, cap)
  }

  /** The choice by its meaning. */
  ghost predicate RightChoice(p: Pool, excluded: set<Token>, matches: Filter, cap: nat, pick: Pick) {
    && (pick.Refused? <==> NoneServes(p, excluded, matches))
    && (pick.Busy? <==> !NoneServes(p, excluded, matches) && NoneFree(p, excluded, matches, cap))
    && (pick.Granted? ==> HasTurn(p, pick.token, excluded, matches, cap))
    && (pick.Refused? ==> (pick.why.QuotaExhausted? <==> AllSpent(p, excluded, matches)))
  }

  lemma AvailableIsServable(a: Account)
    ensures ImageAvailable(a) <==> Servable(a)
  {
  }

  lemma ReadyServes(p: Pool, excluded: set<Token>, matches: Filter, t: Token)
    requires p.Indexed()
    ensures t in p.Ready(excluded, matches) <==> Serves(p, t, excluded, matches)
  {
  }

  lemma CandidatesAreFree(p: Pool, excluded: set<Token>, matches: Filter, cap: nat, t: Token)
    requires p.Indexed()
    ensures t in p.Candidates(excluded, matches, cap) <==> Free(p, t, excluded, matches, cap)
  {
    ReadyServes(p, excluded, matches, t);
  }

  lemma SpentIsLimited(p: Pool, excluded: set<Token>, matches: Filter)
    requires p.Indexed()
    ensures p.AllLimited(excluded, matches) <==> AllSpent(p, excluded, matches)
  {
    forall t ensures p.Matched(t, excluded, matches) <==> Asked(p, t, excluded, matches) {}
  }

  lemma {:induction false} SelectTwice(keys: seq<Token>, first: Token -> bool, second: Token -> bool, both: Token -> bool)
    requires forall t :: both(t) <==> first(t) && second(t)
    ensures Select(Select(keys, first), second) == Select(keys, both)
  {
    if keys == [] {
    } else {
      SelectTwice(keys[1..], first, second, both);
      assert ([keys[0]] + Select(keys[1..], first))[1..] == Select(keys[1..], first);
    }
  }

  lemma {:induction false} SelectedAreCounted(p: Pool, keys: seq<Token>, free: Token -> bool,
                                              excluded: set<Token>, matches: Filter, cap: nat)
    requires forall t :: Free(p, t, excluded, matches, cap) <==> free(t)
    ensures |Select(keys, free)| == FreeAmong(p, keys, excluded, matches, cap)
  {
    if keys == [] {
    } else {
      SelectedAreCounted(p, keys[1..], free, excluded, matches, cap);
    }
  }

  lemma CountOneMore(p: Pool, first: Token, rest: seq<Token>, excluded: set<Token>, matches: Filter, cap: nat)
    ensures FreeAmong(p, [first] + rest, excluded, matches, cap)
         == FreeAmong(p, rest, excluded, matches, cap) + if Free(p, first, excluded, matches, cap) then 1 else 0
  {
    assert ([first] + rest)[1..] == rest;
  }

  /** Selecting the free keys keeps them in their order: `j` free keys come before the one at `j`. */
  lemma {:induction false} SelectedHasTurn(p: Pool, keys: seq<Token>, free: Token -> bool,
                                           excluded: set<Token>, matches: Filter, cap: nat, j: nat) returns (i: nat)
    requires forall t :: Free(p, t, excluded, matches, cap) <==> free(t)
    requires j < |Select(keys, free)|
    ensures i < |keys| && keys[i] == Select(keys, free)[j] && FreeAmong(p, keys[..i], excluded, matches, cap) == j
  {
    var first, rest := keys[0], keys[1..];
    if free(first) && j == 0 {
      i := 0;
    } else {
      var k := SelectedHasTurn(p, rest, free, excluded, matches, cap, if free(first) then j - 1 else j);
      i := k + 1;
      assert keys[..i] == [first] + rest[..k];
      CountOneMore(p, first, rest[..k], excluded, matches, cap);
    }
  }

  lemma CandidatesInOrder(p: Pool, excluded: set<Token>, matches: Filter, cap: nat, free: Token -> bool)
    requires forall t :: free(t) <==> Free(p, t, excluded, matches, cap)
    requires p.Indexed()
    ensures p.Candidates(excluded, matches, cap) == Select(p.order, free)
  {
    SelectTwice(p.order, t => p.Matched(t, excluded, matches) && ImageAvailable(p.accounts[t]), t => p.Inflight(t) < cap, free);
  }

  lemma GrantHasTurn(p: Pool, excluded: set<Token>, matches: Filter, cap: nat, t: Token)
    requires p.Indexed() && p.Choice(excluded, matches, cap) == Granted(t)
    ensures HasTurn(p, t, excluded, matches, cap)
  {
    var tokens := p.Candidates(excluded, matches, cap);
    assert t == tokens[p.index % |tokens|] && t in tokens;
    CandidatesAreFree(p, excluded, matches, cap, t);
    var free: Token -> bool := x => Free(p, x, excluded, matches, cap);
    CandidatesInOrder(p, excluded, matches, cap, free);
    SelectedAreCounted(p, p.order, free, excluded, matches, cap);
    var i := SelectedHasTurn(p, p.order, free, excluded, matches, cap, p.index % |tokens|);
  }

  /**
   The scheduler refuses exactly when no account asked for can serve, waits exactly when all that can are full, and
   otherwise grants the one whose turn it is; a refusal says the quota is spent exactly when it is for all asked for.
   */
  lemma ChoiceIsExact(p: Pool, excluded: set<Token>, matches: Filter, cap: nat, pick: Pick)
    requires p.Indexed() && pick == p.Choice(excluded, matches, cap)
    ensures RightChoice(p, excluded, matches, cap, pick)
  {
    forall t ensures t in p.Ready(excluded, matches) <==> Serves(p, t, excluded, matches) {
      ReadyServes(p, excluded, matches, t);
    }
    forall t ensures t in p.Candidates(excluded, matches, cap) <==> Free(p, t, excluded, matches, cap) {
      CandidatesAreFree(p, excluded, matches, cap, t);
    }
    SpentIsLimited(p, excluded, matches);
    if p.Ready(excluded, matches) != [] {
      assert p.Ready(excluded, matches)[0] in p.Ready(excluded, matches);
    }
    if pick.Granted? {
      GrantHasTurn(p, excluded, matches, cap, pick.token);
    } else if pick.Busy? {
      assert p.Candidates(excluded, matches, cap) == [];
    }
  }
}
