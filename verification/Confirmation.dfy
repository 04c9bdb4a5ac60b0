/**
 What a whole confirmation does to the pool, by the replies of the remote side.
 */
module Confirmation {
  import opened Options
  import opened TokenAliases
  import opened SlotPool
  import opened RemoteCheck

  /** The access token in use after a refresh of `t`. */
  function TokenAfter(t: Token, g: Grant): Token {
    if g.Named? && g.token != Empty then g.token else t
  }

  /**
   The last query of a confirmation of the key `t`, by the token it was made with and its reply: a second
   query is made exactly if the first found the token invalid and the forced refresh brought another one.
   */
  function LastQuery(t: Token, ans: Answer): (Token, Reply) {
    var first := TokenAfter(t, ans.first);
    var second := TokenAfter(first, ans.forced);
    if ans.reply.InvalidToken? && second != first then (second, ans.retry) else (first, ans.reply)
  }

  /** The account `a` after a last query at `now`, if it stays in the pool. */
  function Told(a: Account, reply: Reply, now: int): Account {
    match reply
    case Info(i) => Account(i.status, i.quota, i.quotaUnknown, i.plan, a.source, Some(now), Some(now))
    case Trouble => Account(a.status, a.quota, a.quotaUnknown, a.plan, a.source, a.checkedAt, Some(now))
    case InvalidToken => Account(Abnormal, 0, a.quotaUnknown, a.plan, a.source, Some(now), Some(now))
  }

  /** The account leaves the pool: it is limited and such are dropped, or its token is invalid and such are removed. */
  predicate Leaves(reply: Reply, remove: bool, dropLimited: bool) {
    match reply
    case Info(i) => i.status == Limited && dropLimited
    case Trouble => false
    case InvalidToken => remove
  }

  /** The pool `q` is `p` but for the confirmed account, which was known by `t` and is known by `key`, if it stays. */
  ghost predicate Settles(p: Pool, t: Token, first: Token, q: Pool, key: Token, reply: Reply, now: int, leaves: bool)
    requires t in p.accounts
  {
    && q.accounts.Keys == p.accounts.Keys - {t, first, key} + (if leaves then {} else {key})
    && (!leaves ==> q.accounts[key] == Told(p.accounts[t], reply, now))
    && (forall x :: x in q.accounts && x != key ==> q.accounts[x] == p.accounts[x])
  }

  /** What the caller is told. */
  ghost predicate Reports(p: Pool, t: Token, outcome: Outcome, key: Token, reply: Reply, now: int, leaves: bool)
    requires t in p.accounts
  {
    match reply
    case Info(i) =>
      outcome == Confirmed(key, if leaves then Account(i.status, i.quota, i.quotaUnknown, i.plan, 0, None, None)
                                else Told(p.accounts[t], reply, now))
    case _ => outcome.Raised?
  }

  /** The confirmation of `token` by its meaning. */
  ghost predicate RightConfirmation(p: Pool, token: Token, ans: Answer, now: int, remove: bool, dropLimited: bool,
                                    q: Pool, outcome: Outcome)
  {
    var t := p.Resolved(token);
    if token == Empty then q == p && outcome == Raised
    else if t in p.accounts then
      var (key, reply) := LastQuery(t, ans);
      var leaves := Leaves(reply, remove, dropLimited);
      && Settles(p, t, TokenAfter(t, ans.first), q, key, reply, now, leaves)
      && Reports(p, t, outcome, key, reply, now, leaves)
    else
      && q.accounts == p.accounts
      && match ans.reply
         case Info(i) => outcome == Confirmed(token, Account(i.status, i.quota, i.quotaUnknown, i.plan, 0, None, None))
         case _ => outcome == Raised
  }

  /** An account that is still there after the removal of its invalid token is marked, and nothing else of it changes. */
  lemma MarkingIsExact(a: Account)
    ensures MarkedAbnormal(a) == Account(Abnormal, 0, a.quotaUnknown, a.plan, a.source, a.checkedAt, a.attemptedAt)
  {
  }

  lemma RefreshSettles(p: Pool, token: Token, g: Grant)
    requires Empty !in p.accounts && p.Resolved(token) in p.accounts
    ensures var t := p.Resolved(token); var n := TokenAfter(t, g); var (q, active) := Refreshed(p, token, g);
            && active == n && n != Empty && q.Resolved(n) == n
            && q.accounts == (p.accounts - {t})[n := p.accounts[t]]
  {
    assert p.Resolved(p.Resolved(token)) == p.Resolved(token);
  }

  lemma LandingSettles(p: Pool, key: Token, i: RemoteInfo, now: int, dropLimited: bool)
    requires Empty !in p.accounts && key in p.accounts
    ensures var (q, outcome) := Landed(p, key, i, now, dropLimited);
            var leaves := Leaves(Info(i), false, dropLimited);
            && q.accounts == (if leaves then p.accounts - {key} else p.accounts[key := Told(p.accounts[key], Info(i), now)])
            && Reports(p, key, outcome, key, Info(i), now, leaves)
  {
    assert p.Resolved(key) == key;
    var q := Changed(p, key, a => CheckedOk(a, now), false);
    assert q.accounts == p.accounts[key := CheckedOk(p.accounts[key], now)] && q.Resolved(key) == key;
  }

  lemma NotingSettles(p: Pool, key: Token, now: int)
    requires Empty !in p.accounts && key in p.accounts
    ensures Noted(p, key, now).accounts == p.accounts[key := Told(p.accounts[key], Trouble, now)]
  {
    assert p.Resolved(key) == key;
  }

  lemma CondemningSettles(p: Pool, key: Token, now: int, remove: bool)
    requires Empty !in p.accounts && key in p.accounts
    ensures var q := Condemned(p, key, now, remove);
            q.accounts == if remove then p.accounts - {key} else p.accounts[key := Told(p.accounts[key], InvalidToken, now)]
  {
    assert p.Resolved(key) == key;
    var q := Changed(p, key, a => SeenInvalid(a, now), false);
    assert q.accounts == p.accounts[key := SeenInvalid(p.accounts[key], now)] && q.Resolved(key) == key;
    assert q.Targets({key}) == {key};
  }

  /** The accounts once the one at `t` is known by `key` and the reply is told, if it stays. */
  function Settled(accounts: map<Token, Account>, t: Token, key: Token, reply: Reply, now: int, leaves: bool)
    : map<Token, Account>
    requires t in accounts
  {
    if leaves then accounts - {t} - {key} else (accounts - {t})[key := Told(accounts[t], reply, now)]
  }

  /** After a refresh, changing or dropping the account is settling it where it was. */
  lemma SettledAfterMove(accounts: map<Token, Account>, t: Token, key: Token, reply: Reply, now: int, leaves: bool)
    requires t in accounts
    ensures var moved := (accounts - {t})[key := accounts[t]];
            Settled(accounts, t, key, reply, now, leaves)
            == if leaves then moved - {key} else moved[key := Told(moved[key], reply, now)]
  {
  }

  lemma QueryLands(p: Pool, t: Token, g: Grant, i: RemoteInfo, now: int, dropLimited: bool)
    requires Empty !in p.accounts && t in p.accounts && p.Resolved(t) == t
    ensures var (q, key) := Refreshed(p, t, g); var leaves := Leaves(Info(i), false, dropLimited);
            var (v, outcome) := Landed(q, key, i, now, dropLimited);
            v.accounts == Settled(p.accounts, t, key, Info(i), now, leaves) && Reports(p, t, outcome, key, Info(i), now, leaves)
  {
    RefreshSettles(p, t, g);
    var (q, key) := Refreshed(p, t, g);
    LandingSettles(q, key, i, now, dropLimited);
    SettledAfterMove(p.accounts, t, key, Info(i), now, Leaves(Info(i), false, dropLimited));
  }

  lemma QueryNotes(p: Pool, t: Token, g: Grant, now: int)
    requires Empty !in p.accounts && t in p.accounts && p.Resolved(t) == t
    ensures var (q, key) := Refreshed(p, t, g);
            Noted(q, key, now).accounts == Settled(p.accounts, t, key, Trouble, now, false)
  {
    RefreshSettles(p, t, g);
    var (q, key) := Refreshed(p, t, g);
    NotingSettles(q, key, now);
    SettledAfterMove(p.accounts, t, key, Trouble, now, false);
  }

  lemma QueryCondemns(p: Pool, t: Token, g: Grant, now: int, remove: bool)
    requires Empty !in p.accounts && t in p.accounts && p.Resolved(t) == t
    ensures var (q, key) := Refreshed(p, t, g);
            Condemned(q, key, now, remove).accounts == Settled(p.accounts, t, key, InvalidToken, now, remove)
  {
    RefreshSettles(p, t, g);
    var (q, key) := Refreshed(p, t, g);
    CondemningSettles(q, key, now, remove);
    SettledAfterMove(p.accounts, t, key, InvalidToken, now, remove);
  }

  /** The retry: its last query is the first one's if the forced refresh brings no other token. */
  lemma RetrySettles(p: Pool, key: Token, forced: Grant, retry: Reply, now: int, remove: bool, dropLimited: bool)
    requires Empty !in p.accounts && key in p.accounts
    ensures var n := TokenAfter(key, forced); var reply := if n == key then InvalidToken else retry;
            var (v, outcome) := Retried(p, key, forced, retry, now, remove, dropLimited);
            var leaves := Leaves(reply, remove, dropLimited);
            v.accounts == Settled(p.accounts, key, n, reply, now, leaves) && Reports(p, key, outcome, n, reply, now, leaves)
  {
    assert p.Resolved(key) == key;
    RefreshSettles(p, key, forced);
    match if TokenAfter(key, forced) == key then InvalidToken else retry {
      case Info(i) => QueryLands(p, key, forced, i, now, dropLimited);
      case Trouble => QueryNotes(p, key, forced, now);
      case InvalidToken => QueryCondemns(p, key, forced, now, remove);
    }
  }

  /** Settling an account that a refresh has moved is settling it where it was. */
  lemma SettledTwice(accounts: map<Token, Account>, t: Token, first: Token, key: Token, reply: Reply, now: int, leaves: bool)
    requires t in accounts
    ensures var moved := (accounts - {t})[first := accounts[t]];
            var after := Settled(moved, first, key, reply, now, leaves);
            && after.Keys == accounts.Keys - {t, first, key} + (if leaves then {} else {key})
            && (!leaves ==> after[key] == Told(accounts[t], reply, now))
            && (forall x :: x in after && x != key ==> after[x] == accounts[x])
  {
  }

  lemma PooledConfirmation(p: Pool, t: Token, ans: Answer, now: int, remove: bool, dropLimited: bool)
    requires Empty !in p.accounts && t in p.accounts
    ensures var (v, outcome) := Fetched(p, t, ans, now, remove, dropLimited);
            var (key, reply) := LastQuery(t, ans); var leaves := Leaves(reply, remove, dropLimited);
            && Settles(p, t, TokenAfter(t, ans.first), v, key, reply, now, leaves)
            && Reports(p, t, outcome, key, reply, now, leaves)
  {
    var (q, first) := Refreshed(p, t, ans.first);
    var (key, reply) := LastQuery(t, ans);
    assert p.Resolved(t) == t;
    RefreshSettles(p, t, ans.first);
    SettledTwice(p.accounts, t, first, key, reply, now, Leaves(reply, remove, dropLimited));
    match ans.reply {
      case Info(i) => QueryLands(p, t, ans.first, i, now, dropLimited);
      case Trouble => QueryNotes(p, t, ans.first, now);
      case InvalidToken => RetrySettles(q, first, ans.forced, ans.retry, now, remove, dropLimited);
    }
  }

  /** A confirmation acts on the key that its token stands for. */
  lemma ConfirmsTheResolved(p: Pool, token: Token, ans: Answer, now: int, remove: bool, dropLimited: bool)
    requires Empty !in p.accounts && p.Resolved(token) in p.accounts && token != Empty
    ensures Fetched(p, token, ans, now, remove, dropLimited) == Fetched(p, p.Resolved(token), ans, now, remove, dropLimited)
  {
    assert p.Resolved(p.Resolved(token)) == p.Resolved(token);
    assert Refreshed(p, token, ans.first) == Refreshed(p, p.Resolved(token), ans.first);
  }

  /** With fewer aliases a chain that ends outside the pool ends there sooner. */
  lemma {:induction false} PruningKeepsOutside(pool: set<Token>, aliases: Aliases, gone: set<Token>, t: Token, seen: set<Token>)
    requires ResolveFrom(pool, aliases, t, seen) !in pool
    ensures ResolveFrom(pool, Pruned(aliases, gone), t, seen) !in pool
    decreases aliases.Keys - seen
  {
    if Follows(pool, Pruned(aliases, gone), t) && t !in seen {
      PruningKeepsOutside(pool, aliases, gone, aliases[t], seen + {t});
    }
  }

  lemma RemovingNobody(p: Pool, token: Token)
    requires p.Resolved(token) !in p.accounts && token != Empty
    ensures Removed(p, token).accounts == p.accounts
  {
    var q, gone := p.Deleted({token}), p.Targets({token});
    assert gone == {p.Resolved(token)} && q.accounts == p.accounts;
    PruningKeepsOutside(p.accounts.Keys, p.aliases, gone, token, {});
    assert q.Resolved(token) !in q.accounts;
  }

  /** A token that stands for no account: nothing is confirmed in the pool. */
  lemma ConfirmingNobody(p: Pool, token: Token, ans: Answer, now: int, remove: bool, dropLimited: bool)
    requires Empty !in p.accounts && token != Empty && p.Resolved(token) !in p.accounts
    ensures var (q, outcome) := Fetched(p, token, ans, now, remove, dropLimited);
            && q.accounts == p.accounts
            && outcome == (if ans.reply.Info? then Confirmed(token, Detached(ans.reply.info)) else Raised)
  {
    RemovingNobody(p, token);
  }

  /**
   What a confirmation does, for every answer. After the last query the account is pooled under its newest token
   with what the reply told, unless it is limited or invalid and such accounts are to go; no other account changes.
   */
  lemma ConfirmationIsExact(p: Pool, token: Token, ans: Answer, now: int, remove: bool, dropLimited: bool)
    requires Empty !in p.accounts
    ensures var (q, outcome) := Fetched(p, token, ans, now, remove, dropLimited);
            RightConfirmation(p, token, ans, now, remove, dropLimited, q, outcome)
  {
    if token == Empty {
    } else if p.Resolved(token) in p.accounts {
      ConfirmsTheResolved(p, token, ans, now, remove, dropLimited);
      PooledConfirmation(p, p.Resolved(token), ans, now, remove, dropLimited);
    } else {
      ConfirmingNobody(p, token, ans, now, remove, dropLimited);
    }
  }
}
