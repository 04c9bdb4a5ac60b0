/**
 The account pool as a state machine over its atomic steps.

 `Pool` holds what the service keeps under its lock; `World` adds the callers: which of them
 hold a slot, which lost theirs to a deletion, and which keys were ever pooled.
 */
module SlotPool {
  import opened Options
  import opened Sequences
  import opened TokenAliases

  /** Plan and source names and unusual status texts are only compared. */
  type Label = nat

  datatype Status = Normal | Limited | Abnormal | Disabled | OtherStatus(text: Label)

  /** What the scheduler reads of an account; the two times are those of the last remote check and the last attempt. */
  datatype Account = Account(
    status: Status, quota: nat, quotaUnknown: bool, plan: Label, source: Label,
    checkedAt: Option<int>, attemptedAt: Option<int>)

  /** A caller's restriction on plan and source. */
  type Filter = Account -> bool

  predicate ImageAvailable(a: Account) {
    !a.status.Disabled? && !a.status.Limited? && !a.status.Abnormal?
    && (a.quotaUnknown || a.status.Normal? || a.quota > 0)
  }

  datatype Refusal = QuotaExhausted | Unavailable

  /** One turn of the acquiring loop: a refusal, a full house, or a slot. */
  datatype Pick = Refused(why: Refusal) | Busy | Granted(token: Token)

  function In(gone: set<Token>): Token -> bool {
    t => t in gone
  }

  /** The key order after a dictionary assignment: an existing key keeps its place. */
  function KeyOrder(order: seq<Token>, keys: set<Token>, t: Token): seq<Token> {
    if t in keys then order else order + [t]
  }

  predicate Distinct(order: seq<Token>) {
    forall i, j :: 0 <= i < j < |order| ==> order[i] != order[j]
  }

  /** The tokens of `order` that satisfy `keep`, in order. */
  function Select(order: seq<Token>, keep: Token -> bool): (r: seq<Token>)
    ensures forall t :: t in r <==> t in order && keep(t)
  {
    if order == [] then []
    else
      var rest := Select(order[1..], keep);
      if keep(order[0]) then [order[0]] + rest else rest
  }

  /** `accounts` is a dictionary: `order` is the insertion order of its keys. */
  datatype Pool = Pool(
    order: seq<Token>, accounts: map<Token, Account>, aliases: Aliases, inflight: map<Token, nat>, index: nat)
  {
    ghost predicate Indexed() {
      Distinct(order) && Empty !in accounts && forall t :: t in order <==> t in accounts
    }

    function Resolved(t: Token): Token {
      Resolve(accounts.Keys, aliases, t)
    }

    function Inflight(t: Token): nat {
      if t in inflight then inflight[t] else 0
    }

    predicate Matched(t: Token, excluded: set<Token>, matches: Filter) {
      t in accounts && t != Empty && t !in excluded && matches(accounts[t])
    }

    function Ready(excluded: set<Token>, matches: Filter): seq<Token> {
      Select(order, t => Matched(t, excluded, matches) && ImageAvailable(accounts[t]))
    }

    function Candidates(excluded: set<Token>, matches: Filter, cap: nat): seq<Token> {
      Select(Ready(excluded, matches), t => Inflight(t) < cap)
    }

    /** Every account that matches is known to have spent its quota, and there is one. */
    predicate AllLimited(excluded: set<Token>, matches: Filter) {
      && (exists t :: t in accounts && Matched(t, excluded, matches))
      && (forall t :: t in accounts && Matched(t, excluded, matches) ==> accounts[t].status.Limited?)
    }

    /** The slot scheduler's choice in this state. */
    ghost function Choice(excluded: set<Token>, matches: Filter, cap: nat): Pick {
      if Ready(excluded, matches) == []
      then Refused(if AllLimited(excluded, matches) then QuotaExhausted else Unavailable)
      else
        var tokens := Candidates(excluded, matches, cap);
        if tokens == [] then Busy else Granted(tokens[index % |tokens|])
    }

    function Took(t: Token): Pool {
      this.(index := index + 1, inflight := inflight[t := Inflight(t) + 1])
    }

    function Released(token: Token): Pool {
      if token == Empty then this
      else
        var t := Resolved(token);
        this.(inflight := if Inflight(t) <= 1 then inflight - {t} else inflight[t := Inflight(t) - 1])
    }

    /** Dictionary assignment. */
    function WithAccount(t: Token, a: Account): Pool {
      this.(order := KeyOrder(order, accounts.Keys, t), accounts := accounts[t := a])
    }

    function WithoutAccounts(gone: set<Token>): Pool {
      this.(order := Without(order, In(gone)), accounts := accounts - gone)
    }

    /** The effect of a refresh grant answered with the access token `renewed` (Empty when the answer names none). */
    function Rotated(token: Token, renewed: Token): Pool {
      var t := Resolved(token);
      var n := if renewed == Empty then t else renewed;
      if t !in accounts || n == t then this
      else
        var moved := Inflight(t);
        var rest := inflight - {t};
        WithoutAccounts({t}).WithAccount(n, accounts[t]).(
          aliases := aliases[t := n],
          inflight := if moved == 0 then rest else rest[n := (if n in rest then rest[n] else 0) + moved])
    }

    /** The keys a deletion request stands for. */
    function Targets(tokens: set<Token>): set<Token> {
      set t | t in tokens && t != Empty :: Resolved(t)
    }

    function Deleted(tokens: set<Token>): Pool {
      var gone := Targets(tokens);
      var left := accounts - gone;
      Pool(Without(order, In(gone)), left, Pruned(aliases, gone), inflight - gone,
           if gone * accounts.Keys == {} then index else if left == map[] then 0 else index % |left|)
    }

    /** Writing back a changed account; one found to be rate limited is dropped when `dropLimited` is set. */
    function Revised(token: Token, a: Account, dropLimited: bool): Pool {
      var t := Resolved(token);
      if token == Empty || t !in accounts then this
      else if a.status.Limited? && dropLimited then WithoutAccounts({t})
      else WithAccount(t, a)
    }

    function Imported(t: Token, a: Account): Pool {
      if t == Empty then this else WithAccount(t, a)
    }
  }

  /** `voided` are callers whose slot was thrown away by a deletion but who will still release it. */
  datatype World = World(
    pool: Pool, holders: map<nat, Token>, voided: map<nat, Token>, used: set<Token>, nextId: nat)
  {
    /** The callers whose token, as acquired, stands for `t` now. */
    function HoldersAt(t: Token): set<nat> {
      set id | id in holders && pool.Resolved(holders[id]) == t
    }

    predicate Counted(t: Token) {
      pool.Inflight(t) == |HoldersAt(t)|
    }

    /** Slot conservation: every in-flight count is the number of callers that hold a slot there. */
    ghost predicate Conserved() {
      forall t :: Counted(t)
    }

    ghost predicate WithinCap(cap: nat) {
      forall t :: pool.Inflight(t) <= cap
    }

    /** Keys, aliases and callers' tokens were all pooled once; a pooled key is no alias. */
    ghost predicate Tidy() {
      && Empty !in used
      && pool.accounts.Keys <= used && pool.aliases.Keys <= used && pool.aliases.Values <= used
      && holders.Values <= used && voided.Values <= used
      && pool.accounts.Keys !! pool.aliases.Keys
    }

    /** Every resolution comes to an end outside the aliases: there is no cycle. */
    ghost predicate Acyclic() {
      forall t :: pool.Resolved(t) !in pool.aliases
    }

    ghost predicate Numbered() {
      && holders.Keys !! voided.Keys
      && (forall id :: id in holders || id in voided ==> id < nextId)
    }

    ghost predicate Positive() {
      forall t :: t in pool.inflight ==> pool.inflight[t] > 0
    }

    /** A caller that lost its slot resolves to a token with neither account nor slots. */
    ghost predicate Buried() {
      forall id :: id in voided ==> Dead(pool.Resolved(voided[id]))
    }

    ghost predicate Sound() {
      Tidy() && Acyclic() && Numbered() && Positive() && Buried()
    }

    /** No account and no slot is known under `t`. */
    predicate Dead(t: Token) {
      t !in pool.accounts && t !in pool.inflight
    }

    ghost predicate Safe(cap: nat) {
      Sound() && Conserved() && WithinCap(cap)
    }

    function Grant(t: Token): World {
      this.(pool := pool.Took(t), holders := holders[nextId := t], nextId := nextId + 1)
    }

    function Return(id: nat): World {
      if id in holders then this.(pool := pool.Released(holders[id]), holders := holders - {id})
      else if id in voided then this.(pool := pool.Released(voided[id]), voided := voided - {id})
      else this
    }

    function Rotate(token: Token, renewed: Token): World {
      var p := pool.Rotated(token, renewed);
      this.(pool := p, used := used + p.accounts.Keys)
    }

    function Delete(tokens: set<Token>): World {
      var lost := map id | id in holders && pool.Resolved(holders[id]) in pool.Targets(tokens) :: holders[id];
      this.(pool := pool.Deleted(tokens), holders := holders - lost.Keys, voided := voided + lost)
    }

    function Revise(token: Token, a: Account, dropLimited: bool): World {
      this.(pool := pool.Revised(token, a, dropLimited))
    }

    function Import(t: Token, a: Account): World {
      var p := pool.Imported(t, a);
      this.(pool := p, used := used + p.accounts.Keys)
    }
  }

  /** The caller `id` holds a slot, and `token` stands for the same key as the token it acquired. */
  predicate Holding(w: World, id: nat, token: Token) {
    id in w.holders && token in w.used && w.pool.Resolved(w.holders[id]) == w.pool.Resolved(token)
  }

  /** From now on the caller knows its slot by the token it was handed. */
  function Relabelled(w: World, id: nat, token: Token): World {
    if id in w.holders then w.(holders := w.holders[id := token]) else w
  }

  /** The atomic steps of the service as its callers take them. */
  datatype Op =
    | Acquire(excluded: set<Token>, matches: Filter)
    | Release(id: nat)
    | Rotate(token: Token, renewed: Token)
    | Delete(tokens: set<Token>)
    | Revise(token: Token, account: Account, dropLimited: bool)
    | Import(token: Token, account: Account)
    | Relabel(id: nat, token: Token)

  ghost function Next(w: World, op: Op, cap: nat): World {
    match op
    case Acquire(excluded, matches) =>
      (match w.pool.Choice(excluded, matches, cap)
       case Granted(t) => w.Grant(t)
       case _ => w)
    case Release(id) => w.Return(id)
    case Rotate(token, renewed) => w.Rotate(token, renewed)
    case Delete(tokens) => w.Delete(tokens)
    case Revise(token, a, drop) => w.Revise(token, a, drop)
    case Import(t, a) => w.Import(t, a)
    case Relabel(id, token) => Relabelled(w, id, token)
  }

  /** No alias leads on from `t`, and no call that lost its slot to a deletion is still to release it there. */
  predicate Unclaimed(w: World, t: Token) {
    t !in w.pool.aliases && forall id :: id in w.voided ==> w.pool.Resolved(w.voided[id]) != t
  }

  /**
   Keys that come in by rotation or import are pooled already or unclaimed, and the slots that a rotation
   brings together fit; a slot is handed on only under a token that stands for the same key.
   */
  predicate Permitted(w: World, op: Op, cap: nat) {
    match op
    case Rotate(token, renewed) =>
      var t := w.pool.Resolved(token);
      t in w.pool.accounts && renewed != Empty && renewed != t ==>
        Unclaimed(w, renewed) && w.pool.Inflight(t) + w.pool.Inflight(renewed) <= cap
    case Import(t, _) => t == Empty || t in w.pool.accounts || Unclaimed(w, t)
    case Relabel(id, token) => id in w.holders ==> Holding(w, id, token)
    case _ => true
  }
}
