/**
 What the atomic steps do to the pool, account by account and counter by counter.
 */
module SlotEffects {
  import opened Sequences
  import opened TokenAliases
  import opened SlotPool

  /** Nothing changes but the counter of the key that the token stands for: it falls by one, and goes at zero. */
  ghost predicate RightRelease(p: Pool, token: Token, q: Pool) {
    && q.order == p.order && q.accounts == p.accounts && q.aliases == p.aliases && q.index == p.index
    && (forall x :: x != p.Resolved(token) || token == Empty ==> q.Inflight(x) == p.Inflight(x) && (x in q.inflight <==> x in p.inflight))
    && (token != Empty ==>
          var t := p.Resolved(token);
          q.Inflight(t) == (if p.Inflight(t) == 0 then 0 else p.Inflight(t) - 1) && (t in q.inflight <==> q.Inflight(t) > 0))
  }

  lemma ReleaseIsExact(p: Pool, token: Token)
    ensures RightRelease(p, token, p.Released(token))
  {
  }

  /**
   The account moves to the key `n`, with its counter and an alias that leads there; all else stays. The new key
   comes last unless it is there already.
   */
  ghost predicate RightRotation(p: Pool, t: Token, n: Token, q: Pool)
    requires t in p.accounts
  {
    && q.accounts.Keys == p.accounts.Keys - {t} + {n} && q.accounts[n] == p.accounts[t]
    && (forall x :: x in q.accounts && x != n ==> q.accounts[x] == p.accounts[x])
    && q.aliases == p.aliases[t := n]
    && q.Inflight(t) == 0 && q.Inflight(n) == p.Inflight(n) + p.Inflight(t)
    && (forall x :: x != t && x != n ==> q.Inflight(x) == p.Inflight(x))
    && q.order == Without(p.order, x => x == t) + (if n in p.accounts then [] else [n])
    && q.index == p.index
  }

  lemma {:induction false} WithoutAlike(order: seq<Token>, a: Token -> bool, b: Token -> bool)
    requires forall x :: a(x) <==> b(x)
    ensures Without(order, a) == Without(order, b)
  {
    if order == [] {
    } else {
      WithoutAlike(order[1..], a, b);
    }
  }

  lemma RotationIsExact(p: Pool, token: Token, renewed: Token)
    ensures var t := p.Resolved(token); var q := p.Rotated(token, renewed);
            if t in p.accounts && renewed != Empty && renewed != t then RightRotation(p, t, renewed, q) else q == p
  {
    var t := p.Resolved(token);
    WithoutAlike(p.order, In({t}), x => x == t);
  }

  /** The token stands for one of those asked to be deleted. */
  predicate Asks(p: Pool, tokens: set<Token>, x: Token) {
    exists t :: t in tokens && t != Empty && p.Resolved(t) == x
  }

  /** Accounts, counters and aliases of the keys asked for are gone, all others stay; the index is brought back into the list. */
  ghost predicate RightDeletion(p: Pool, tokens: set<Token>, q: Pool) {
    && (forall x :: x in q.accounts <==> x in p.accounts && !Asks(p, tokens, x))
    && (forall x :: x in q.accounts ==> q.accounts[x] == p.accounts[x])
    && (forall x :: x in q.inflight <==> x in p.inflight && !Asks(p, tokens, x))
    && (forall x :: x in q.inflight ==> q.inflight[x] == p.inflight[x])
    && (forall x :: x in q.aliases <==> x in p.aliases && !Asks(p, tokens, x) && !Asks(p, tokens, p.aliases[x]))
    && (forall x :: x in q.aliases ==> q.aliases[x] == p.aliases[x])
    && q.order == Without(p.order, x => Asks(p, tokens, x))
    && q.index == if |q.accounts| == |p.accounts| then p.index else if |q.accounts| == 0 then 0 else p.index % |q.accounts|
  }

  lemma LeftAreFewer(accounts: map<Token, Account>, gone: set<Token>)
    ensures var left := accounts - gone;
            |left| <= |accounts| && (|left| == |accounts| <==> gone * accounts.Keys == {})
  {
    var left := accounts - gone;
    assert left.Keys + gone * accounts.Keys == accounts.Keys && left.Keys !! gone * accounts.Keys;
    assert |accounts.Keys| == |left.Keys| + |gone * accounts.Keys|;
  }

  lemma DeletionIsExact(p: Pool, tokens: set<Token>)
    ensures RightDeletion(p, tokens, p.Deleted(tokens))
  {
    var q, gone := p.Deleted(tokens), p.Targets(tokens);
    forall x ensures x in gone <==> Asks(p, tokens, x) {}
    WithoutAlike(p.order, In(gone), x => Asks(p, tokens, x));
    LeftAreFewer(p.accounts, gone);
  }

  /** Only the account that the token stands for changes: it is `a`, or gone if it is limited and such accounts are to go. */
  ghost predicate RightRevision(p: Pool, token: Token, a: Account, dropLimited: bool, q: Pool) {
    var t := p.Resolved(token);
    && q.aliases == p.aliases && q.inflight == p.inflight && q.index == p.index
    && if token == Empty || t !in p.accounts then q.accounts == p.accounts && q.order == p.order
       else if a.status == Limited && dropLimited then q.accounts == p.accounts - {t} && q.order == Without(p.order, x => x == t)
       else q.accounts == p.accounts[t := a] && q.order == p.order
  }

  lemma RevisionIsExact(p: Pool, token: Token, a: Account, dropLimited: bool)
    ensures RightRevision(p, token, a, dropLimited, p.Revised(token, a, dropLimited))
  {
    var t := p.Resolved(token);
    WithoutAlike(p.order, In({t}), x => x == t);
  }

  /** An imported account replaces the one of its key in its place, or comes last. */
  lemma ImportIsExact(p: Pool, t: Token, a: Account)
    requires t != Empty
    ensures var q := p.Imported(t, a);
            && q.accounts == p.accounts[t := a] && q.aliases == p.aliases && q.inflight == p.inflight && q.index == p.index
            && q.order == if t in p.accounts then p.order else p.order + [t]
    ensures p.Imported(Empty, a) == p
  {
  }
}
