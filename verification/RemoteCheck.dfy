/**
 Remote confirmation of an account: the answers the remote side may give, and the effect of a
 whole confirmation on the pool when no other caller interferes.
 */
module RemoteCheck {
  import opened Options
  import opened TokenAliases
  import opened SlotPool

  /** The source of an account that names none. */
  const WEB: Label := 0

  /** The account data a successful query reports. */
  datatype RemoteInfo = RemoteInfo(status: Status, quota: nat, quotaUnknown: bool, plan: Label)

  /**
   The answer to a refresh: none, because it is not due, not possible or failed; the access token it was
   asked for; or the token that it names, which is `Empty` if it names none.
   */
  datatype Grant = NoGrant | Unchanged | Named(token: Token)

  datatype Reply = Info(info: RemoteInfo) | InvalidToken | Trouble

  /**
   What the remote side does during one confirmation: the access token offered by the refresh
   before the query, the reply to the query, the token
   offered by the forced refresh after an invalid-token reply, and the reply to the retry.
   */
  datatype Answer = Answer(first: Grant, reply: Reply, forced: Grant, retry: Reply)

  /** The token that a refresh may bring in. */
  function Offer(g: Grant): set<Token> {
    match g
    case Named(t) => {t} - {Empty}
    case _ => {}
  }

  function Offers(a: Answer): set<Token> {
    Offer(a.first) + Offer(a.forced)
  }

  /** How a confirmation ends for its caller: an error, or the account as confirmed. */
  datatype Outcome = Raised | Confirmed(token: Token, account: Account)

  function CheckedOk(a: Account, now: int): Account {
    a.(checkedAt := Some(now), attemptedAt := Some(now))
  }

  function AttemptFailed(a: Account, now: int): Account {
    a.(attemptedAt := Some(now))
  }

  function SeenInvalid(a: Account, now: int): Account {
    a.(status := Abnormal, quota := 0, checkedAt := Some(now), attemptedAt := Some(now))
  }

  function MarkedAbnormal(a: Account): Account {
    a.(status := Abnormal, quota := 0)
  }

  function Merged(a: Account, i: RemoteInfo): Account {
    a.(status := i.status, quota := i.quota, quotaUnknown := i.quotaUnknown, plan := i.plan)
  }

  /** The reply on its own, as returned when the account is no longer in the pool. */
  function Detached(i: RemoteInfo): Account {
    Account(i.status, i.quota, i.quotaUnknown, i.plan, WEB, None, None)
  }

  /** Write back `change` of the account that `token` stands for, if there is one. */
  function Changed(p: Pool, token: Token, change: Account -> Account, dropLimited: bool): Pool {
    var t := p.Resolved(token);
    if t in p.accounts then p.Revised(token, change(p.accounts[t]), dropLimited) else p
  }

  function Refreshed(p: Pool, token: Token, offer: Grant): (Pool, Token) {
    var t := p.Resolved(token);
    if t !in p.accounts then (p, token)
    else match offer
      case NoGrant => (p, t)
      case Unchanged => (p, t)
      case Named(n) => (p.Rotated(t, n), if n == Empty then t else n)
  }

  function Landed(p: Pool, active: Token, i: RemoteInfo, now: int, dropLimited: bool): (Pool, Outcome) {
    var q := Changed(p, active, a => CheckedOk(a, now), false);
    var t := q.Resolved(active);
    var v := Changed(q, active, a => Merged(a, i), dropLimited);
    if active != Empty && t in v.accounts then (v, Confirmed(t, v.accounts[t]))
    else (v, Confirmed(active, Detached(i)))
  }

  function Removed(p: Pool, active: Token): Pool {
    var v := p.Deleted({active});
    if p.Targets({active}) * p.accounts.Keys == {} then Changed(v, active, a => MarkedAbnormal(a), false) else v
  }

  function Condemned(p: Pool, active: Token, now: int, remove: bool): Pool {
    var q := Changed(p, active, a => SeenInvalid(a, now), false);
    if remove then Removed(q, active) else q
  }

  function Noted(p: Pool, active: Token, now: int): Pool {
    Changed(p, active, a => AttemptFailed(a, now), false)
  }

  function Retried(p: Pool, active: Token, forced: Grant, reply: Reply, now: int, remove: bool, dropLimited: bool)
    : (Pool, Outcome)
  {
    var (q, again) := Refreshed(p, active, forced);
    if again == Empty || again == active then (Condemned(q, active, now, remove), Raised)
    else match reply
      case Info(i) => Landed(q, again, i, now, dropLimited)
      case Trouble => (Noted(q, again, now), Raised)
      case InvalidToken => (Condemned(q, again, now, remove), Raised)
  }

  /** A whole confirmation without interference. */
  function Fetched(p: Pool, token: Token, ans: Answer, now: int, remove: bool, dropLimited: bool): (Pool, Outcome) {
    if token == Empty then (p, Raised)
    else
      var (q, active) := Refreshed(p, token, ans.first);
      match ans.reply
      case Info(i) => Landed(q, active, i, now, dropLimited)
      case Trouble => (Noted(q, active, now), Raised)
      case InvalidToken => Retried(q, active, ans.forced, ans.retry, now, remove, dropLimited)
  }
}
