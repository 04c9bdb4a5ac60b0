/**
 Alias chains of rotated access tokens.

 When an access token is rotated the old key leaves the pool and an alias old -> new is
 recorded.  A caller that still holds the old token is led along the aliases to the key
 that stands for the account now.
 */
module TokenAliases {

  /** Access tokens are only compared; `Empty` is the empty string. */
  datatype Token = Empty | Key(name: nat)

  type Aliases = map<Token, Token>

  /** True when resolution does not stop at `t`: a non-empty token outside the pool with an alias. */
  predicate Follows(pool: set<Token>, aliases: Aliases, t: Token) {
    t != Empty && t !in pool && t in aliases
  }

  /** Resolution from `t`, having already gone through the tokens in `seen`. */
  function ResolveFrom(pool: set<Token>, aliases: Aliases, t: Token, seen: set<Token>): Token
    decreases aliases.Keys - seen
  {
    if Follows(pool, aliases, t) && t !in seen
    then ResolveFrom(pool, aliases, aliases[t], seen + {t})
    else t
  }

  function Resolve(pool: set<Token>, aliases: Aliases, t: Token): Token {
    ResolveFrom(pool, aliases, t, {})
  }

  /** The loop that callers run under the lock; it ends on every alias graph, cyclic ones included. */
  method ResolveAccessToken(pool: set<Token>, aliases: Aliases, accessToken: Token) returns (token: Token)
    ensures token == Resolve(pool, aliases, accessToken)
    ensures accessToken in pool ==> token == accessToken
  {
    token := accessToken;
    var seen: set<Token> := {};
    while token != Empty && token !in pool && token in aliases && token !in seen
      invariant ResolveFrom(pool, aliases, token, seen) == Resolve(pool, aliases, accessToken)
      invariant accessToken in pool ==> token == accessToken
      decreases aliases.Keys - seen
    {
      seen := seen + {token};
      token := aliases[token];
    }
  }

  // ---- What resolution finds: the chain of aliases, hop by hop ----

  /** `n` hops lead from `t` along the aliases, none of them leaving a stopping token. */
  predicate Chain(pool: set<Token>, aliases: Aliases, t: Token, n: nat)
    decreases n
  {
    n == 0 || (Follows(pool, aliases, t) && Chain(pool, aliases, aliases[t], n - 1))
  }

  /** The token reached after `n` hops. */
  function Hop(pool: set<Token>, aliases: Aliases, t: Token, n: nat): Token
    requires Chain(pool, aliases, t, n)
    decreases n
  {
    if n == 0 then t else Hop(pool, aliases, aliases[t], n - 1)
  }

  lemma {:induction false} ChainSplits(pool: set<Token>, aliases: Aliases, t: Token, n: nat, m: nat)
    requires Chain(pool, aliases, t, n) && m <= n
    ensures Chain(pool, aliases, t, m)
    ensures Chain(pool, aliases, Hop(pool, aliases, t, m), n - m)
    ensures Hop(pool, aliases, t, n) == Hop(pool, aliases, Hop(pool, aliases, t, m), n - m)
    decreases n
  {
    if m == 0 {
    } else {
      ChainSplits(pool, aliases, aliases[t], n - 1, m - 1);
    }
  }

  /** A chain that reaches a stopping token never came back to its start. */
  lemma {:induction false} ChainNeverReturns(pool: set<Token>, aliases: Aliases, t: Token, n: nat, m: nat)
    requires Chain(pool, aliases, t, n) && 0 < m <= n
    requires !Follows(pool, aliases, Hop(pool, aliases, t, n))
    ensures Chain(pool, aliases, t, m) && Hop(pool, aliases, t, m) != t
  {
    ChainSplits(pool, aliases, t, n, m);
    if Hop(pool, aliases, t, m) == t {
      ChainSplits(pool, aliases, t, n, n - m);
      assert false;
    }
  }

  /** Resolution stops where the chain does. */
  lemma {:induction false} ChainResolves(pool: set<Token>, aliases: Aliases, t: Token, seen: set<Token>, n: nat)
    requires Chain(pool, aliases, t, n) && !Follows(pool, aliases, Hop(pool, aliases, t, n))
    requires forall m: nat | m <= n && Chain(pool, aliases, t, m) :: Hop(pool, aliases, t, m) !in seen
    ensures ResolveFrom(pool, aliases, t, seen) == Hop(pool, aliases, t, n)
    decreases n
  {
    if n == 0 {
    } else {
      assert Hop(pool, aliases, t, 0) !in seen;
      var next := aliases[t];
      forall m: nat | m <= n - 1 && Chain(pool, aliases, next, m)
        ensures Hop(pool, aliases, next, m) !in seen + {t}
      {
        assert Chain(pool, aliases, t, m + 1) && Hop(pool, aliases, t, m + 1) == Hop(pool, aliases, next, m);
        ChainNeverReturns(pool, aliases, t, n, m + 1);
      }
      ChainResolves(pool, aliases, next, seen + {t}, n - 1);
    }
  }

  lemma {:induction false} ResolvesAlongChain(pool: set<Token>, aliases: Aliases, t: Token, seen: set<Token>) returns (n: nat)
    ensures Chain(pool, aliases, t, n) && Hop(pool, aliases, t, n) == ResolveFrom(pool, aliases, t, seen)
    decreases aliases.Keys - seen
  {
    if Follows(pool, aliases, t) && t !in seen {
      var k := ResolvesAlongChain(pool, aliases, aliases[t], seen + {t});
      n := k + 1;
    } else {
      n := 0;
    }
  }

  /**
   Resolution lands in the pool exactly when some chain of aliases leads there, and then on
   that chain's first pooled token (a chain stops at the first pooled token it meets).
   */
  lemma ResolveFindsFirstPooled(pool: set<Token>, aliases: Aliases, t: Token)
    ensures Resolve(pool, aliases, t) in pool
       <==> exists n: nat :: Chain(pool, aliases, t, n) && Hop(pool, aliases, t, n) in pool
    ensures forall n: nat | Chain(pool, aliases, t, n) && Hop(pool, aliases, t, n) in pool ::
              Resolve(pool, aliases, t) == Hop(pool, aliases, t, n)
  {
    forall n: nat | Chain(pool, aliases, t, n) && Hop(pool, aliases, t, n) in pool
      ensures Resolve(pool, aliases, t) == Hop(pool, aliases, t, n)
    {
      ChainResolves(pool, aliases, t, {}, n);
    }
    var k := ResolvesAlongChain(pool, aliases, t, {});
  }

  // ---- How resolution changes when the pool does ----

  /**
   A rotation of the pooled key `retired` into `renewed`: whatever resolved to `retired` resolves to
   `renewed`, every other resolution stays, on every alias graph.
   */
  lemma {:induction false} RotationMovesOldOnly(pool: set<Token>, aliases: Aliases, retired: Token, renewed: Token,
                                                t: Token, seen: set<Token>)
    requires retired in pool && retired != Empty && renewed != retired && retired !in seen
    requires renewed in pool || renewed !in aliases
    ensures var r := ResolveFrom(pool, aliases, t, seen);
            ResolveFrom(pool - {retired} + {renewed}, aliases[retired := renewed], t, seen) == if r == retired then renewed else r
    decreases aliases.Keys - seen
  {
    if Follows(pool, aliases, t) && t !in seen {
      RotationMovesOldOnly(pool, aliases, retired, renewed, aliases[t], seen + {t});
    }
  }

  /** `t` or a later token of its chain is `x`. */
  predicate PassesFrom(pool: set<Token>, aliases: Aliases, t: Token, seen: set<Token>, x: Token)
    decreases aliases.Keys - seen
  {
    t == x || (Follows(pool, aliases, t) && t !in seen && PassesFrom(pool, aliases, aliases[t], seen + {t}, x))
  }

  predicate Passes(pool: set<Token>, aliases: Aliases, t: Token, x: Token) {
    PassesFrom(pool, aliases, t, {}, x)
  }

  /** Adding a key to the pool catches exactly the chains that pass it. */
  lemma {:induction false} AddingCatchesPassing(pool: set<Token>, aliases: Aliases, x: Token, t: Token, seen: set<Token>)
    requires x !in seen
    ensures ResolveFrom(pool + {x}, aliases, t, seen)
         == if PassesFrom(pool, aliases, t, seen, x) then x else ResolveFrom(pool, aliases, t, seen)
    decreases aliases.Keys - seen
  {
    if Follows(pool, aliases, t) && t !in seen && t != x {
      AddingCatchesPassing(pool, aliases, x, aliases[t], seen + {t});
    }
  }

  /** The aliases that survive the deletion of `gone`. */
  function Pruned(aliases: Aliases, gone: set<Token>): Aliases {
    map k | k in aliases && k !in gone && aliases[k] !in gone :: aliases[k]
  }

  /**
   Deleting resolved tokens leaves every other resolution as it was.  A chain that led to a
   deleted token now ends at a token outside the pool and without an alias.
   */
  lemma {:induction false} DeletionKeepsOthers(pool: set<Token>, aliases: Aliases, gone: set<Token>, t: Token, seen: set<Token>)
    requires pool !! aliases.Keys
    requires gone !! aliases.Keys
    requires ResolveFrom(pool, aliases, t, seen) !in aliases
    ensures var r := ResolveFrom(pool, aliases, t, seen);
            var after := ResolveFrom(pool - gone, Pruned(aliases, gone), t, seen);
            && (r !in gone ==> after == r)
            && (r in gone ==> after !in pool - gone && after !in Pruned(aliases, gone) && (after == r || after in aliases))
    decreases aliases.Keys - seen
  {
    if Follows(pool, aliases, t) && t !in seen && aliases[t] !in gone {
      DeletionKeepsOthers(pool, aliases, gone, aliases[t], seen + {t});
    }
  }

  /** A removed key that is no alias keeps every resolution. */
  lemma {:induction false} RemovalKeepsAll(pool: set<Token>, aliases: Aliases, x: Token, t: Token, seen: set<Token>)
    requires x !in aliases
    ensures ResolveFrom(pool - {x}, aliases, t, seen) == ResolveFrom(pool, aliases, t, seen)
    decreases aliases.Keys - seen
  {
    if Follows(pool, aliases, t) && t !in seen {
      RemovalKeepsAll(pool, aliases, x, aliases[t], seen + {t});
    }
  }
}
