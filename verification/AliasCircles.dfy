/**
 Alias graphs in which resolution may go round in a circle: what a key dropped from the pool, and a
 deletion, do to the resolution of one token, on every graph.
 */
module AliasCircles {
  import opened TokenAliases

  /** A way that ends where it would with more tokens marked as seen does not touch those. */
  lemma {:induction false} FewerSeen(pool: set<Token>, aliases: Aliases, y: Token, more: set<Token>, seen: set<Token>, r: Token)
    requires ResolveFrom(pool, aliases, y, more + seen) == r && r !in more
    ensures ResolveFrom(pool, aliases, y, seen) == r
    decreases aliases.Keys - seen
  {
    if Follows(pool, aliases, y) && y !in more + seen {
      assert more + seen + {y} == more + (seen + {y});
      FewerSeen(pool, aliases, aliases[y], more, seen + {y}, r);
    }
  }

  /** With more tokens marked as seen, a way back to `t` stays one exactly if it passes none of those. */
  lemma {:induction false} MoreSeen(pool: set<Token>, aliases: Aliases, y: Token, more: set<Token>, seen: set<Token>, t: Token)
    requires t in seen && t !in more && Follows(pool, aliases, t)
    ensures ResolveFrom(pool, aliases, y, more + seen) == t
       <==> ResolveFrom(pool, aliases, y, seen) == t && forall u :: u in more ==> !PassesFrom(pool, aliases, y, seen, u)
    decreases aliases.Keys - seen
  {
    if Follows(pool, aliases, y) && y !in more + seen {
      assert more + seen + {y} == more + (seen + {y});
      MoreSeen(pool, aliases, aliases[y], more, seen + {y}, t);
    } else if y in more {
      assert PassesFrom(pool, aliases, y, seen, y);
    }
  }

  lemma {:induction false} PassesWithFewerSeen(pool: set<Token>, aliases: Aliases, y: Token, more: set<Token>,
                                               seen: set<Token>, u: Token)
    requires PassesFrom(pool, aliases, y, more + seen, u)
    ensures PassesFrom(pool, aliases, y, seen, u)
    decreases aliases.Keys - seen
  {
    if y != u {
      assert more + seen + {y} == more + (seen + {y});
      PassesWithFewerSeen(pool, aliases, aliases[y], more, seen + {y}, u);
    }
  }

  // ---- Dropping a pooled key that is also an alias ----

  /** Without `t` in the pool its alias leads round to `t` again, past no token of the way from `x` to `t`. */
  ghost predicate LeadsBack(pool: set<Token>, aliases: Aliases, x: Token, t: Token) {
    && Resolve(pool - {t}, aliases, t) == t
    && forall y :: y != t && Passes(pool, aliases, x, y) ==> !Passes(pool - {t}, aliases, t, y)
  }

  /** The tokens seen and the rest of the way to `t` have nothing of the way from `t` on. */
  ghost predicate Misses(pool: set<Token>, aliases: Aliases, x: Token, seen: set<Token>, t: Token) {
    forall y :: y != t && (y in seen || PassesFrom(pool, aliases, x, seen, y)) ==> !Passes(pool - {t}, aliases, t, y)
  }

  lemma {:induction false} DroppedAtKey(pool: set<Token>, aliases: Aliases, t: Token, seen: set<Token>)
    requires t in pool && t != Empty && t !in seen && t in aliases
    ensures ResolveFrom(pool - {t}, aliases, t, seen) == t
       <==> Resolve(pool - {t}, aliases, t) == t && Misses(pool, aliases, t, seen, t)
  {
    var rest, next := pool - {t}, aliases[t];
    assert seen + {t} == seen + ({} + {t}) && {} + {t} == {t};
    MoreSeen(rest, aliases, next, seen, {t}, t);
    forall y | y != t ensures Passes(rest, aliases, t, y) <==> PassesFrom(rest, aliases, next, {t}, y) {
      assert {} + {t} == {t};
    }
    forall y | PassesFrom(pool, aliases, t, seen, y) ensures y == t {}
  }

  /** Whether a token that stood for the dropped key keeps doing so. */
  lemma {:induction false} DropStays(pool: set<Token>, aliases: Aliases, x: Token, seen: set<Token>, t: Token)
    requires t in pool && t != Empty && t !in seen && t in aliases && ResolveFrom(pool, aliases, x, seen) == t
    ensures ResolveFrom(pool - {t}, aliases, x, seen) == t
       <==> Resolve(pool - {t}, aliases, t) == t && Misses(pool, aliases, x, seen, t)
    decreases aliases.Keys - seen
  {
    if x == t {
      DroppedAtKey(pool, aliases, t, seen);
    } else {
      DropStays(pool, aliases, aliases[x], seen + {x}, t);
      forall y ensures y in seen || PassesFrom(pool, aliases, x, seen, y)
                  <==> y in seen + {x} || PassesFrom(pool, aliases, aliases[x], seen + {x}, y) {}
      assert Misses(pool, aliases, x, seen, t) <==> Misses(pool, aliases, aliases[x], seen + {x}, t);
    }
  }

  /** Tokens that stood for other keys are not concerned. */
  lemma {:induction false} DropKeepsOthers(pool: set<Token>, aliases: Aliases, x: Token, seen: set<Token>, t: Token)
    requires t in pool && ResolveFrom(pool, aliases, x, seen) != t
    ensures ResolveFrom(pool - {t}, aliases, x, seen) == ResolveFrom(pool, aliases, x, seen)
    decreases aliases.Keys - seen
  {
    if Follows(pool, aliases, x) && x !in seen {
      DropKeepsOthers(pool, aliases, aliases[x], seen + {x}, t);
    }
  }

  /** Dropping `t`: what stood for it keeps doing so exactly if it has no alias, or one that leads back. */
  lemma {:induction false} DropResolves(pool: set<Token>, aliases: Aliases, x: Token, t: Token)
    requires t in pool && t != Empty
    ensures Resolve(pool, aliases, x) != t ==> Resolve(pool - {t}, aliases, x) == Resolve(pool, aliases, x)
    ensures Resolve(pool, aliases, x) == t ==>
              (Resolve(pool - {t}, aliases, x) == t <==> t !in aliases || LeadsBack(pool, aliases, x, t))
  {
    if Resolve(pool, aliases, x) != t {
      DropKeepsOthers(pool, aliases, x, {}, t);
    } else if t !in aliases {
      RemovalKeepsAll(pool, aliases, t, x, {});
    } else {
      DropStays(pool, aliases, x, {}, t);
    }
  }

  // ---- Deleting resolved tokens ----

  /** Deleted tokens are results of resolution: where resolution from one of them starts, it ends. */
  ghost predicate Ends(pool: set<Token>, aliases: Aliases, gone: set<Token>) {
    forall g :: g in gone ==> Resolve(pool, aliases, g) == g
  }

  /** `r` is no part of a circle, or of one whose next token is deleted, or of one with no deleted token. */
  ghost predicate Settled(pool: set<Token>, aliases: Aliases, gone: set<Token>, r: Token) {
    !Follows(pool, aliases, r) || aliases[r] in gone || forall g :: g in gone ==> !Passes(pool, aliases, r, g)
  }

  /** A way that passes no deleted token is not concerned. */
  lemma {:induction false} DeletionKeepsWay(pool: set<Token>, aliases: Aliases, gone: set<Token>, t: Token, seen: set<Token>)
    requires forall g :: g in gone ==> !PassesFrom(pool, aliases, t, seen, g)
    ensures ResolveFrom(pool - gone, Pruned(aliases, gone), t, seen) == ResolveFrom(pool, aliases, t, seen)
    decreases aliases.Keys - seen
  {
    assert t !in gone by {
      assert PassesFrom(pool, aliases, t, seen, t);
    }
    if Follows(pool, aliases, t) && t !in seen {
      assert PassesFrom(pool, aliases, t, seen, aliases[t]);
      forall g | g in gone ensures !PassesFrom(pool, aliases, aliases[t], seen + {t}, g) {
        assert !PassesFrom(pool, aliases, t, seen, g);
      }
      DeletionKeepsWay(pool, aliases, gone, aliases[t], seen + {t});
    }
  }

  /** Round the circle from its first token on. */
  lemma {:induction false} DeletionKeepsCircle(pool: set<Token>, aliases: Aliases, gone: set<Token>, r: Token, seen: set<Token>)
    requires r !in seen && r !in gone && Follows(pool, aliases, r) && ResolveFrom(pool, aliases, r, seen) == r
    requires Settled(pool, aliases, gone, r)
    ensures ResolveFrom(pool - gone, Pruned(aliases, gone), r, seen) == r
  {
    if aliases[r] !in gone {
      forall g | g in gone ensures !PassesFrom(pool, aliases, r, seen, g) {
        if PassesFrom(pool, aliases, r, seen, g) {
          assert seen + {} == seen;
          PassesWithFewerSeen(pool, aliases, r, seen, {}, g);
        }
      }
      DeletionKeepsWay(pool, aliases, gone, r, seen);
    }
  }

  /** Whatever resolved to a token that is settled and not deleted keeps doing so. */
  lemma {:induction false} DeletionKeepsSettled(pool: set<Token>, aliases: Aliases, gone: set<Token>, t: Token,
                                                seen: set<Token>, r: Token)
    requires Ends(pool, aliases, gone) && r == ResolveFrom(pool, aliases, t, seen) && r !in gone && r !in seen
    requires Settled(pool, aliases, gone, r)
    ensures ResolveFrom(pool - gone, Pruned(aliases, gone), t, seen) == r
    decreases aliases.Keys - seen
  {
    if t == r {
      if Follows(pool, aliases, r) {
        DeletionKeepsCircle(pool, aliases, gone, r, seen);
      }
    } else {
      var next := aliases[t];
      assert seen + {} == seen && seen + {t} + {} == seen + {t};
      FewerSeen(pool, aliases, t, seen, {}, r);
      FewerSeen(pool, aliases, next, seen + {t}, {}, r);
      assert t !in gone && next !in gone;
      DeletionKeepsSettled(pool, aliases, gone, next, seen + {t}, r);
    }
  }

  /** A way that passes a deleted token now ends, before it, at a token that was not seen. */
  lemma {:induction false} BrokenWayEnds(pool: set<Token>, aliases: Aliases, gone: set<Token>, y: Token, seen: set<Token>, g: Token)
    requires g in gone && y !in gone && PassesFrom(pool, aliases, y, seen, g)
    ensures ResolveFrom(pool - gone, Pruned(aliases, gone), y, seen) !in seen
    decreases aliases.Keys - seen
  {
    if aliases[y] !in gone {
      BrokenWayEnds(pool, aliases, gone, aliases[y], seen + {y}, g);
    }
  }

  /** Nothing resolves any more to a token of a broken circle whose own alias is still there. */
  lemma {:induction false} UnsettledIsLeft(pool: set<Token>, aliases: Aliases, gone: set<Token>, r: Token, x: Token)
    requires r !in gone && !Settled(pool, aliases, gone, r)
    ensures Resolve(pool - gone, Pruned(aliases, gone), x) != r
  {
    var rest, left := pool - gone, Pruned(aliases, gone);
    var g :| g in gone && Passes(pool, aliases, r, g);
    assert {} + {r} == {r};
    BrokenWayEnds(pool, aliases, gone, aliases[r], {r}, g);
    assert Resolve(rest, left, r) != r;
    NeverComesTo(rest, left, r, x, {});
  }

  lemma {:induction false} NeverComesTo(pool: set<Token>, aliases: Aliases, r: Token, x: Token, seen: set<Token>)
    requires Follows(pool, aliases, r) && Resolve(pool, aliases, r) != r && r !in seen
    ensures ResolveFrom(pool, aliases, x, seen) != r
    decreases aliases.Keys - seen
  {
    if Follows(pool, aliases, x) && x !in seen {
      if x == r {
        assert seen + {} == seen;
        if ResolveFrom(pool, aliases, r, seen) == r {
          FewerSeen(pool, aliases, r, seen, {}, r);
        }
      } else {
        NeverComesTo(pool, aliases, r, aliases[x], seen + {x});
      }
    }
  }

  /** Resolving a second time changes nothing. */
  lemma {:induction false} ResolvesOnce(pool: set<Token>, aliases: Aliases, x: Token)
    ensures var r := Resolve(pool, aliases, x); Resolve(pool, aliases, r) == r
  {
    var r := Resolve(pool, aliases, x);
    if Follows(pool, aliases, r) && Resolve(pool, aliases, r) != r {
      NeverComesTo(pool, aliases, r, x, {});
    }
  }
}
