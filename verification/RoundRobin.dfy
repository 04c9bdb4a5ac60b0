/**
 Fairness of the round-robin choice.
 */
module RoundRobin {
  import opened TokenAliases
  import opened SlotPool

  /**
   Consecutive choices over a candidate list that stays `tokens`: between two of them other
   callers may do anything that leaves the list and the index as they are.
   */
  ghost predicate FixedList(ps: seq<Pool>, picks: seq<Token>, excluded: set<Token>, matches: Filter, cap: nat, tokens: seq<Token>) {
    && |ps| == |picks| && tokens != []
    && (forall i :: 0 <= i < |ps| ==>
          ps[i].Candidates(excluded, matches, cap) == tokens && ps[i].Choice(excluded, matches, cap) == Granted(picks[i]))
    && (forall i :: 0 <= i < |ps| - 1 ==> ps[i + 1].index == ps[i].Took(picks[i]).index)
  }

  /** The position `k` places after `r` on a ring of `n`. */
  function Advance(r: nat, k: nat, n: nat): (p: nat)
    requires r < n
    ensures p < n
    decreases k
  {
    if k == 0 then r else Advance(if r + 1 == n then 0 else r + 1, k - 1, n)
  }

  /** `k` places of the list, read cyclically from position `r`. */
  function Cycle(tokens: seq<Token>, r: nat, k: nat): (c: seq<Token>)
    requires r < |tokens|
    ensures |c| == k
    decreases k
  {
    if k == 0 then [] else [tokens[r]] + Cycle(tokens, Advance(r, 1, |tokens|), k - 1)
  }

  lemma {:induction false} CycleAt(tokens: seq<Token>, r: nat, k: nat, m: nat)
    requires r < |tokens| && m < k
    ensures Cycle(tokens, r, k)[m] == tokens[Advance(r, m, |tokens|)]
    decreases k
  {
    if m == 0 {
    } else {
      CycleAt(tokens, Advance(r, 1, |tokens|), k - 1, m - 1);
    }
  }

  lemma {:induction false} CycleSplits(tokens: seq<Token>, r: nat, a: nat, b: nat)
    requires r < |tokens|
    ensures Cycle(tokens, r, a + b) == Cycle(tokens, r, a) + Cycle(tokens, Advance(r, a, |tokens|), b)
    decreases a
  {
    if a == 0 {
    } else {
      CycleSplits(tokens, Advance(r, 1, |tokens|), a - 1, b);
    }
  }

  lemma {:induction false} AdvanceWithinRing(r: nat, m: nat, n: nat)
    requires r < n && m < n
    ensures Advance(r, m, n) == if r + m < n then r + m else r + m - n
    decreases m
  {
    if m == 0 {
    } else {
      AdvanceWithinRing(Advance(r, 1, n), m - 1, n);
    }
  }

  lemma {:induction false} AdvanceStep(r: nat, k: nat, n: nat)
    requires r < n
    ensures Advance(r, k + 1, n) == Advance(Advance(r, k, n), 1, n)
    decreases k
  {
    if k == 0 {
    } else {
      AdvanceStep(Advance(r, 1, n), k - 1, n);
    }
  }

  lemma ModIs(x: nat, q: nat, r: nat, n: nat)
    requires r < n && x == q * n + r
    ensures x % n == r
  {
    var d: int := x / n - q;
    assert d * n == r - x % n;
    assert d == 0;
  }

  lemma ModStep(x: nat, n: nat)
    requires 0 < n
    ensures (x + 1) % n == if x % n + 1 == n then 0 else x % n + 1
  {
    var q, r := x / n, x % n;
    if r + 1 == n {
      assert (q + 1) * n == q * n + n;
      ModIs(x + 1, q + 1, 0, n);
    } else {
      ModIs(x + 1, q, r + 1, n);
    }
  }

  /** How often `t` was picked. */
  function Count(picks: seq<Token>, t: Token): nat {
    multiset(picks)[t]
  }

  lemma {:induction false} IndexAdvances(ps: seq<Pool>, picks: seq<Token>, excluded: set<Token>, matches: Filter, cap: nat,
                                         tokens: seq<Token>, i: nat)
    requires FixedList(ps, picks, excluded, matches, cap, tokens) && i < |ps|
    ensures ps[i].index % |tokens| == Advance(ps[0].index % |tokens|, i, |tokens|)
  {
    if i == 0 {
    } else {
      IndexAdvances(ps, picks, excluded, matches, cap, tokens, i - 1);
      assert ps[i - 1 + 1].index == ps[i - 1].Took(picks[i - 1]).index;
      ModStep(ps[i - 1].index, |tokens|);
      AdvanceStep(ps[0].index % |tokens|, i - 1, |tokens|);
    }
  }

  lemma PickIsNext(p: Pool, excluded: set<Token>, matches: Filter, cap: nat, t: Token)
    requires p.Choice(excluded, matches, cap) == Granted(t)
    ensures var tokens := p.Candidates(excluded, matches, cap);
            tokens != [] && t == tokens[p.index % |tokens|]
  {
  }

  /** The picks read the list cyclically. */
  lemma PicksCycle(ps: seq<Pool>, picks: seq<Token>, excluded: set<Token>, matches: Filter, cap: nat, tokens: seq<Token>)
    requires FixedList(ps, picks, excluded, matches, cap, tokens) && picks != []
    ensures picks == Cycle(tokens, ps[0].index % |tokens|, |picks|)
  {
    var r := ps[0].index % |tokens|;
    forall i | 0 <= i < |picks| ensures picks[i] == Cycle(tokens, r, |picks|)[i] {
      IndexAdvances(ps, picks, excluded, matches, cap, tokens, i);
      PickIsNext(ps[i], excluded, matches, cap, picks[i]);
      CycleAt(tokens, r, |picks|, i);
    }
  }

  /** One full round is the list itself, rotated. */
  lemma RoundIsRotation(tokens: seq<Token>, r: nat)
    requires r < |tokens|
    ensures Cycle(tokens, r, |tokens|) == tokens[r..] + tokens[..r]
    ensures multiset(Cycle(tokens, r, |tokens|)) == multiset(tokens)
  {
    var n := |tokens|;
    var round := Cycle(tokens, r, n);
    forall m | 0 <= m < n ensures round[m] == (tokens[r..] + tokens[..r])[m] {
      CycleAt(tokens, r, n, m);
      AdvanceWithinRing(r, m, n);
    }
    assert round == tokens[r..] + tokens[..r];
    assert tokens == tokens[..r] + tokens[r..];
  }

  lemma MiddleOfThree(a: seq<Token>, b: seq<Token>, c: seq<Token>)
    ensures (a + (b + c))[|a|..|a| + |b|] == b
  {
  }

  lemma WindowIsRound(tokens: seq<Token>, r: nat, k: nat, i: nat)
    requires r < |tokens| && i + |tokens| <= k
    ensures Cycle(tokens, r, k)[i..i + |tokens|] == Cycle(tokens, Advance(r, i, |tokens|), |tokens|)
  {
    var n, p, rest := |tokens|, Advance(r, i, |tokens|), k - i - |tokens|;
    CycleSplits(tokens, r, i, n + rest);
    CycleSplits(tokens, p, n, rest);
    MiddleOfThree(Cycle(tokens, r, i), Cycle(tokens, p, n), Cycle(tokens, Advance(p, n, n), rest));
  }

  /** Any |tokens| consecutive picks hit the list's tokens, each as often as it is listed. */
  lemma EveryRoundHitsAll(ps: seq<Pool>, picks: seq<Token>, excluded: set<Token>, matches: Filter, cap: nat,
                          tokens: seq<Token>, i: nat)
    requires FixedList(ps, picks, excluded, matches, cap, tokens) && i + |tokens| <= |picks|
    ensures multiset(picks[i..i + |tokens|]) == multiset(tokens)
  {
    var r := ps[0].index % |tokens|;
    PicksCycle(ps, picks, excluded, matches, cap, tokens);
    WindowIsRound(tokens, r, |picks|, i);
    RoundIsRotation(tokens, Advance(r, i, |tokens|));
  }

  lemma {:induction false} DistinctCountsOnce(s: seq<Token>, t: Token)
    requires Distinct(s)
    ensures Count(s, t) == if t in s then 1 else 0
  {
    if s == [] {
    } else {
      assert s == [s[0]] + s[1..];
      DistinctCountsOnce(s[1..], t);
    }
  }

  lemma RoundCountsOnce(tokens: seq<Token>, r: nat, t: Token)
    requires r < |tokens| && Distinct(tokens) && t in tokens
    ensures Count(Cycle(tokens, r, |tokens|), t) == 1
  {
    RoundIsRotation(tokens, r);
    DistinctCountsOnce(tokens, t);
  }

  /** The number of full rounds in `k` picks over `n` tokens. */
  function Rounds(k: nat, n: nat): nat
    requires n > 0
  {
    if k < n then 0 else 1 + Rounds(k - n, n)
  }

  /** How often `t` comes within `k` places from `r`. */
  function Hits(tokens: seq<Token>, r: nat, k: nat, t: Token): nat
    requires r < |tokens|
    decreases k
  {
    if k == 0 then 0 else (if tokens[r] == t then 1 else 0) + Hits(tokens, Advance(r, 1, |tokens|), k - 1, t)
  }

  lemma {:induction false} HitsAreCounts(tokens: seq<Token>, r: nat, k: nat, t: Token)
    requires r < |tokens|
    ensures Count(Cycle(tokens, r, k), t) == Hits(tokens, r, k, t)
    decreases k
  {
    if k == 0 {
    } else {
      HitsAreCounts(tokens, Advance(r, 1, |tokens|), k - 1, t);
    }
  }

  lemma {:induction false} HitsSplit(tokens: seq<Token>, r: nat, a: nat, b: nat, t: Token)
    requires r < |tokens|
    ensures Hits(tokens, r, a + b, t) == Hits(tokens, r, a, t) + Hits(tokens, Advance(r, a, |tokens|), b, t)
    decreases a
  {
    if a == 0 {
    } else {
      HitsSplit(tokens, Advance(r, 1, |tokens|), a - 1, b, t);
    }
  }

  /** Each of the tokens comes once in every full round, and at most once more. */
  lemma {:induction false} HitsFollowRounds(tokens: seq<Token>, r: nat, k: nat, t: Token)
    requires r < |tokens| && Distinct(tokens) && t in tokens
    ensures Rounds(k, |tokens|) <= Hits(tokens, r, k, t) <= Rounds(k, |tokens|) + 1
    decreases k
  {
    var n := |tokens|;
    RoundCountsOnce(tokens, r, t);
    HitsAreCounts(tokens, r, n, t);
    if k < n {
      HitsSplit(tokens, r, k, n - k, t);
    } else {
      HitsSplit(tokens, r, n, k - n, t);
      HitsFollowRounds(tokens, Advance(r, n, n), k - n, t);
    }
  }

  /** After any number of picks the tokens' counts differ by at most one. */
  lemma CountsStayBalanced(ps: seq<Pool>, picks: seq<Token>, excluded: set<Token>, matches: Filter, cap: nat,
                           tokens: seq<Token>, s: Token, t: Token)
    requires FixedList(ps, picks, excluded, matches, cap, tokens) && Distinct(tokens) && s in tokens && t in tokens
    ensures Count(picks, s) <= Count(picks, t) + 1
  {
    if picks != [] {
      PicksCycle(ps, picks, excluded, matches, cap, tokens);
      var r := ps[0].index % |tokens|;
      HitsAreCounts(tokens, r, |picks|, s);
      HitsAreCounts(tokens, r, |picks|, t);
      HitsFollowRounds(tokens, r, |picks|, s);
      HitsFollowRounds(tokens, r, |picks|, t);
    }
  }

  /** The candidate list names each key once. */
  lemma CandidatesDistinct(p: Pool, excluded: set<Token>, matches: Filter, cap: nat)
    requires p.Indexed()
    ensures Distinct(p.Candidates(excluded, matches, cap))
  {
    SelectKeepsDistinct(p.order, t => p.Matched(t, excluded, matches) && ImageAvailable(p.accounts[t]));
    SelectKeepsDistinct(p.Ready(excluded, matches), t => p.Inflight(t) < cap);
  }

  lemma {:induction false} SelectKeepsDistinct(order: seq<Token>, keep: Token -> bool)
    requires Distinct(order)
    ensures Distinct(Select(order, keep))
  {
    if order == [] {
    } else {
      SelectKeepsDistinct(order[1..], keep);
      var rest := Select(order[1..], keep);
      forall i | 0 <= i < |rest| ensures rest[i] != order[0] {
        assert rest[i] in rest;
      }
    }
  }
}
