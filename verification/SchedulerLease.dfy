/**
 The scheduler lease: one row in a shared table that decides which process may probe the accounts.
 */
module SchedulerLease {

  import opened Sequences

  type Process = nat

  /** A row of the table; its name column is always the same one, and it is the primary key. */
  datatype Row = Row(owner: Process, expiresAt: int)

  function ExpiredBy(now: int): Row -> bool {
    (row: Row) => row.expiresAt <= now
  }

  function OwnedBy(p: Process): Row -> bool {
    (row: Row) => row.owner == p
  }

  /** Deleting expired rows. */
  function Unexpired(rows: seq<Row>, now: int): seq<Row> {
    Without(rows, ExpiredBy(now))
  }

  function NotOwned(rows: seq<Row>, p: Process): seq<Row> {
    Without(rows, OwnedBy(p))
  }

  function Renewed(rows: seq<Row>, p: Process, expiresAt: int): seq<Row> {
    if rows == [] then []
    else [if rows[0].owner == p then Row(p, expiresAt) else rows[0]] + Renewed(rows[1..], p, expiresAt)
  }

  predicate Owns(rows: seq<Row>, p: Process) {
    exists i :: 0 <= i < |rows| && rows[i].owner == p
  }

  /** The table as the processes find it; all times are whole seconds. */
  class LeaseTable {
    var rows: seq<Row>

    constructor ()
      ensures rows == []
    {
      rows := [];
    }

    /** Inserting into a table with this primary key fails while any row is left. */
    method Claim(p: Process, now: int, ttl: int) returns (claimed: bool)
      modifies this
      ensures claimed <==> Unexpired(old(rows), now) == []
      ensures rows == if claimed then [Row(p, now + ttl)] else old(rows)
      ensures |old(rows)| <= 1 ==> rows == RowsAfter(old(rows), Op.Claim(p, now), ttl)
    {
      OneRowLeft(rows, now, p, 0);
      var saved := rows;
      rows := Unexpired(rows, now);
      if rows != [] {
        rows := saved;
        return false;
      }
      rows := rows + [Row(p, now + ttl)];
      claimed := true;
    }

    method Renew(p: Process, now: int, ttl: int) returns (renewed: bool)
      modifies this
      ensures rows == Renewed(old(rows), p, now + ttl)
      ensures |old(rows)| <= 1 ==> (renewed <==> Owns(old(rows), p)) && rows == RowsAfter(old(rows), Op.Renew(p, now), ttl)
    {
      OneRowLeft(rows, now, p, now + ttl);
      var i, count := 0, 0;
      assert rows[0..] == rows && [] + Renewed(rows, p, now + ttl) == Renewed(rows, p, now + ttl);
      var done: seq<Row> := [];
      ghost var before := rows;
      while i < |rows|
        invariant 0 <= i <= |rows| && rows == before
        invariant done + Renewed(rows[i..], p, now + ttl) == Renewed(before, p, now + ttl)
        invariant count == 0 <==> forall j :: 0 <= j < i ==> rows[j].owner != p
        invariant 0 <= count <= i
      {
        var row := rows[i];
        assert rows[i..][1..] == rows[i + 1..];
        if row.owner == p {
          row, count := Row(p, now + ttl), count + 1;
        }
        assert done + ([row] + Renewed(rows[i + 1..], p, now + ttl)) == (done + [row]) + Renewed(rows[i + 1..], p, now + ttl);
        done := done + [row];
        i := i + 1;
      }
      assert done + [] == done;
      rows := done;
      renewed := count == 1;
    }

    /** No row of the owner is left, and all others are still there. */
    method Release(p: Process)
      modifies this
      ensures rows == NotOwned(old(rows), p)
      ensures |old(rows)| <= 1 ==> rows == RowsAfter(old(rows), Op.Release(p), 0)
    {
      OneRowLeft(rows, 0, p, 0);
      rows := LeaveOut(rows, OwnedBy(p));
    }
  }

  /**
   The shared table, the clock, and for every process inside the probing section the expiry time it
   wrote last. A renewal that finds no row is ignored, so a process stays inside regardless.
   */
  datatype State = State(rows: seq<Row>, clock: int, inside: map<Process, int>)

  /** `readAt` is the time that a process read before its statement ran. */
  datatype Op = Tick(clock: int) | Claim(p: Process, readAt: int) | Renew(p: Process, readAt: int)
              | Release(p: Process) | Crash(p: Process)

  predicate Enabled(s: State, op: Op) {
    match op
    case Tick(clock) => s.clock <= clock
    case Claim(p, readAt) => p !in s.inside && readAt <= s.clock
    case Renew(p, readAt) => p in s.inside && readAt <= s.clock
    case Release(p) => p in s.inside
    case Crash(p) => p in s.inside
  }

  predicate Claims(s: State, op: Op) {
    op.Claim? && Unexpired(s.rows, op.readAt) == []
  }

  function Next(s: State, op: Op, ttl: int): State {
    match op
    case Tick(clock) => s.(clock := clock)
    case Claim(p, readAt) =>
      if !Claims(s, op) then s
      else s.(rows := [Row(p, readAt + ttl)], inside := s.inside[p := readAt + ttl])
    case Renew(p, readAt) =>
      if !Owns(s.rows, p) then s
      else s.(rows := Renewed(s.rows, p, readAt + ttl), inside := s.inside[p := readAt + ttl])
    case Release(p) => s.(rows := NotOwned(s.rows, p), inside := s.inside - {p})
    case Crash(p) => s.(inside := s.inside - {p})
  }

  /** One row, or none, after a step: as the clock, a claim, a renewal, a release and a crash leave it. */
  function RowsAfter(rows: seq<Row>, op: Op, ttl: int): seq<Row>
    requires |rows| <= 1
  {
    match op
    case Claim(p, readAt) => if rows == [] || rows[0].expiresAt <= readAt then [Row(p, readAt + ttl)] else rows
    case Renew(p, readAt) => if rows != [] && rows[0].owner == p then [Row(p, readAt + ttl)] else rows
    case Release(p) => if rows != [] && rows[0].owner == p then [] else rows
    case _ => rows
  }

  /** What every step does to the row, the clock and the processes inside. */
  lemma {:induction false} StepIsExact(s: State, op: Op, ttl: int)
    requires |s.rows| <= 1
    ensures var s' := Next(s, op, ttl);
            && s'.rows == RowsAfter(s.rows, op, ttl)
            && s'.clock == (if op.Tick? then op.clock else s.clock)
            && s'.inside == match op
               case Tick(_) => s.inside
               case Claim(p, readAt) =>
                 (if s.rows == [] || s.rows[0].expiresAt <= readAt then s.inside[p := readAt + ttl] else s.inside)
               case Renew(p, readAt) =>
                 (if s.rows != [] && s.rows[0].owner == p then s.inside[p := readAt + ttl] else s.inside)
               case Release(p) => s.inside - {p}
               case Crash(p) => s.inside - {p}
  {
    match op
    case Claim(p, readAt) => OneRow(s.rows, readAt, p, 0);
    case Renew(p, readAt) => OneRow(s.rows, 0, p, readAt + ttl);
    case Release(p) => OneRow(s.rows, 0, p, 0);
    case _ =>
  }

  /** A process outside may claim at any time read before; once inside it may renew, release or crash, and only then. */
  lemma TurnsAreEnabled(s: State, p: Process, readAt: int, ttl: int)
    requires readAt <= s.clock
    ensures Enabled(s, Claim(p, readAt)) <==> p !in s.inside
    ensures var s' := Next(s, Claim(p, readAt), ttl);
            && (Enabled(s', Renew(p, readAt)) <==> p in s'.inside) && (Enabled(s', Release(p)) <==> p in s'.inside)
            && (Enabled(s', Crash(p)) <==> p in s'.inside)
    ensures Enabled(s, Tick(s.clock)) && Enabled(s, Tick(s.clock + 1)) && !Enabled(s, Tick(s.clock - 1))
  {
  }

  /** When a process claims, no process inside has let the time pass that it wrote last. */
  predicate OnTime(s: State, op: Op) {
    op.Claim? ==> forall p :: p in s.inside ==> op.readAt < s.inside[p]
  }

  /** Whoever is inside has the row, with the time it wrote; so at most one process is inside. */
  predicate Exclusive(s: State) {
    |s.rows| <= 1 && forall p :: p in s.inside ==> s.rows == [Row(p, s.inside[p])]
  }

  lemma {:induction false} AtMostOneInside(s: State, p: Process, q: Process)
    requires Exclusive(s) && p in s.inside && q in s.inside
    ensures p == q
  {
    assert s.rows == [Row(p, s.inside[p])] && s.rows == [Row(q, s.inside[q])];
  }

  lemma OneRowLeft(rows: seq<Row>, now: int, p: Process, expiresAt: int)
    ensures |rows| == 1 ==> Unexpired(rows, now) == if rows[0].expiresAt <= now then [] else rows
    ensures |rows| == 1 ==> NotOwned(rows, p) == if rows[0].owner == p then [] else rows
    ensures |rows| == 1 ==> Renewed(rows, p, expiresAt) == if rows[0].owner == p then [Row(p, expiresAt)] else rows
  {
    if |rows| == 1 {
      OneRow(rows, now, p, expiresAt);
    }
  }

  lemma {:induction false} OneRow(rows: seq<Row>, now: int, p: Process, expiresAt: int)
    requires |rows| <= 1
    ensures |rows| == 1 ==> Unexpired(rows, now) == if rows[0].expiresAt <= now then [] else rows
    ensures |rows| == 1 ==> NotOwned(rows, p) == if rows[0].owner == p then [] else rows
    ensures |rows| == 1 ==> Renewed(rows, p, expiresAt) == if rows[0].owner == p then [Row(p, expiresAt)] else rows
    ensures rows == [] ==> Unexpired(rows, now) == NotOwned(rows, p) == Renewed(rows, p, expiresAt) == []
    ensures Owns(rows, p) <==> rows != [] && rows[0].owner == p
  {
    if |rows| == 1 {
      assert rows[1..] == [] && rows == [rows[0]];
      WithoutOne(rows[0], ExpiredBy(now));
      WithoutOne(rows[0], OwnedBy(p));
    }
  }

  /** In any run whatever there is at most one row. */
  lemma {:induction false} StepKeepsOneRow(s: State, op: Op, ttl: int)
    requires |s.rows| <= 1
    ensures |Next(s, op, ttl).rows| <= 1
  {
    match op
    case Renew(p, readAt) => OneRow(s.rows, 0, p, readAt + ttl);
    case Release(p) => OneRow(s.rows, 0, p, 0);
    case _ =>
  }

  /** Renewing and releasing leave another process's row alone. */
  lemma {:induction false} OthersRowStays(s: State, op: Op, ttl: int)
    requires |s.rows| <= 1 && (op.Renew? || op.Release?)
    requires s.rows != [] && s.rows[0].owner != op.p
    ensures Next(s, op, ttl).rows == s.rows
  {
    OneRow(s.rows, 0, op.p, 0);
  }

  lemma {:induction false} OtherStepsKeepExclusive(s: State, op: Op, ttl: int)
    requires Exclusive(s) && Enabled(s, op) && !op.Claim?
    ensures Exclusive(Next(s, op, ttl))
  {
    var p := if op.Tick? then 0 else op.p;
    OneRow(s.rows, 0, p, if op.Renew? then op.readAt + ttl else 0);
    forall q | q in s.inside && !op.Tick? && op.p in s.inside ensures q == op.p {
      AtMostOneInside(s, op.p, q);
    }
  }

  /** A step keeps exclusion exactly if it is no claim next to a process that is late. */
  lemma {:induction false} StepKeepsExclusive(s: State, op: Op, ttl: int)
    requires Exclusive(s) && Enabled(s, op)
    ensures Exclusive(Next(s, op, ttl)) <==> OnTime(s, op)
  {
    if op.Claim? {
      var s' := Next(s, op, ttl);
      forall p | p in s.inside ensures Exclusive(s') <==> op.readAt < s.inside[p] {
        assert s.rows == [Row(p, s.inside[p])];
        OneRow(s.rows, op.readAt, p, 0);
        if s.inside[p] <= op.readAt {
          assert p in s'.inside && s'.rows == [Row(op.p, op.readAt + ttl)];
          assert s'.rows != [Row(p, s'.inside[p])];
        } else {
          assert s' == s;
        }
      }
    } else {
      OtherStepsKeepExclusive(s, op, ttl);
    }
  }

  function Run(s: State, ops: seq<Op>, ttl: int): State {
    if ops == [] then s else Next(Run(s, ops[..|ops| - 1], ttl), ops[|ops| - 1], ttl)
  }

  predicate AllEnabled(s: State, ops: seq<Op>, ttl: int) {
    ops == [] ||
    var front := ops[..|ops| - 1];
    AllEnabled(s, front, ttl) && Enabled(Run(s, front, ttl), ops[|ops| - 1])
  }

  predicate AllOnTime(s: State, ops: seq<Op>, ttl: int) {
    ops == [] ||
    var front := ops[..|ops| - 1];
    AllOnTime(s, front, ttl) && OnTime(Run(s, front, ttl), ops[|ops| - 1])
  }

  predicate AlwaysExclusive(s: State, ops: seq<Op>, ttl: int) {
    Exclusive(Run(s, ops, ttl)) && (ops == [] || AlwaysExclusive(s, ops[..|ops| - 1], ttl))
  }

  /** Exclusion over whole runs: it holds throughout exactly if no process was ever late when another claimed. */
  lemma {:induction false} RunsAreExclusive(s: State, ops: seq<Op>, ttl: int)
    requires Exclusive(s) && AllEnabled(s, ops, ttl)
    ensures AlwaysExclusive(s, ops, ttl) <==> AllOnTime(s, ops, ttl)
  {
    if ops == [] {
    } else {
      var front, op := ops[..|ops| - 1], ops[|ops| - 1];
      RunsAreExclusive(s, front, ttl);
      if AllOnTime(s, front, ttl) {
        StepKeepsExclusive(Run(s, front, ttl), op, ttl);
      }
    }
  }

  /** At most one process is inside. */
  predicate OneInside(s: State) {
    forall p, q :: p in s.inside && q in s.inside ==> p == q
  }

  predicate AlwaysOne(s: State, ops: seq<Op>, ttl: int) {
    OneInside(Run(s, ops, ttl)) && (ops == [] || AlwaysOne(s, ops[..|ops| - 1], ttl))
  }

  lemma {:induction false} ExclusiveIsOne(s: State)
    requires Exclusive(s)
    ensures OneInside(s)
  {
    forall p, q | p in s.inside && q in s.inside ensures p == q {
      AtMostOneInside(s, p, q);
    }
  }

  /** A claim next to a late holder puts two processes inside. */
  lemma {:induction false} LateClaimJoins(s: State, op: Op, ttl: int)
    requires Exclusive(s) && Enabled(s, op) && !OnTime(s, op)
    ensures !OneInside(Next(s, op, ttl))
  {
    var p :| p in s.inside && s.inside[p] <= op.readAt;
    assert s.rows == [Row(p, s.inside[p])];
    OneRow(s.rows, op.readAt, p, 0);
    assert p in Next(s, op, ttl).inside && op.p in Next(s, op, ttl).inside;
  }

  /** At most one process is probing throughout a run exactly if no holder was late when another one claimed. */
  lemma {:induction false} AtMostOneProbes(s: State, ops: seq<Op>, ttl: int)
    requires Exclusive(s) && AllEnabled(s, ops, ttl)
    ensures AlwaysOne(s, ops, ttl) <==> AllOnTime(s, ops, ttl)
  {
    if ops == [] {
      ExclusiveIsOne(s);
    } else {
      var front, op := ops[..|ops| - 1], ops[|ops| - 1];
      AtMostOneProbes(s, front, ttl);
      RunsAreExclusive(s, front, ttl);
      if AllOnTime(s, front, ttl) {
        var mid := Run(s, front, ttl);
        StepKeepsExclusive(mid, op, ttl);
        if OnTime(mid, op) {
          ExclusiveIsOne(Next(mid, op, ttl));
        } else {
          LateClaimJoins(mid, op, ttl);
        }
      }
    }
  }

  lemma {:induction false} RunsHaveOneRow(s: State, ops: seq<Op>, ttl: int)
    requires |s.rows| <= 1
    ensures |Run(s, ops, ttl).rows| <= 1
  {
    if ops == [] {
    } else {
      RunsHaveOneRow(s, ops[..|ops| - 1], ttl);
      StepKeepsOneRow(Run(s, ops[..|ops| - 1], ttl), ops[|ops| - 1], ttl);
    }
  }

  /** A process that lets its time pass is joined by another one, and neither notices. */
  lemma {:induction false} LateHolderIsJoined(ttl: int)
    requires ttl > 0
    ensures var ops := [Claim(1, 0), Tick(ttl), Claim(2, ttl), Renew(1, ttl)];
            var end := Run(State([], 0, map[]), ops, ttl);
            1 in end.inside && 2 in end.inside && end.rows == [Row(2, ttl + ttl)]
  {
    var s0 := State([], 0, map[]);
    var s1 := Next(s0, Claim(1, 0), ttl);
    var s2 := Next(s1, Tick(ttl), ttl);
    var s3 := Next(s2, Claim(2, ttl), ttl);
    OneRow(s2.rows, ttl, 1, 0);
    OneRow(s3.rows, ttl, 1, 0);
    var ops := [Claim(1, 0), Tick(ttl), Claim(2, ttl), Renew(1, ttl)];
    assert ops[..3][..2][..1] == [Claim(1, 0)] && ops[..3][..2][..1][..0] == [];
    assert Run(s0, ops[..3][..2][..1], ttl) == s1;
    assert Run(s0, ops[..3][..2], ttl) == s2;
    assert Run(s0, ops[..3], ttl) == s3;
  }

  /** After a crash the lease is free again once its time has passed, and not before. */
  lemma {:induction false} CrashedLeaseExpires(s: State, p: Process, q: Process, readAt: int, ttl: int)
    requires Exclusive(s) && p in s.inside && q != p && readAt <= s.clock
    ensures var crashed := Next(s, Crash(p), ttl);
            q in Next(crashed, Claim(q, readAt), ttl).inside <==> s.inside[p] <= readAt
  {
    assert s.rows == [Row(p, s.inside[p])];
    OneRow(s.rows, readAt, p, 0);
    if q in s.inside {
      AtMostOneInside(s, p, q);
    }
  }

  /** A step that another process takes, or the clock as long as it shows no more than `until`. */
  predicate OfOthers(op: Op, owner: Process, until: int) {
    if op.Tick? then op.clock <= until else op.p != owner
  }

  predicate AllOfOthers(ops: seq<Op>, owner: Process, until: int) {
    forall i :: 0 <= i < |ops| ==> OfOthers(ops[i], owner, until)
  }

  predicate OthersRun(s: State, ops: seq<Op>, owner: Process, until: int, ttl: int) {
    s.clock <= until && AllEnabled(s, ops, ttl) && AllOfOthers(ops, owner, until)
  }

  /** Any number of steps of other processes lead from one table to the other. */
  ghost predicate OthersLead(rows: seq<Row>, after: seq<Row>, owner: Process, until: int, ttl: int) {
    exists s, ops :: OthersRun(s, ops, owner, until, ttl) && s.rows == rows && Run(s, ops, ttl).rows == after
  }

  lemma {:induction false} StayingLeads(rows: seq<Row>, owner: Process, until: int, ttl: int)
    ensures OthersLead(rows, rows, owner, until, ttl)
  {
    var s := State(rows, until, map[]);
    assert OthersRun(s, [], owner, until, ttl) && Run(s, [], ttl).rows == rows;
  }

  lemma {:induction false} OthersStepKeepsRow(s: State, op: Op, owner: Process, e: int, until: int, ttl: int)
    requires s.rows == [Row(owner, e)] && s.clock <= until < e && Enabled(s, op) && OfOthers(op, owner, until)
    ensures Next(s, op, ttl).rows == s.rows && Next(s, op, ttl).clock <= until
  {
    if op.Claim? {
      OneRow(s.rows, op.readAt, op.p, 0);
    } else if op.Renew? || op.Release? {
      OthersRowStays(s, op, ttl);
    }
  }

  /** Whatever other processes do, a row stays until it has expired. */
  lemma {:induction false} OthersKeepRow(s: State, ops: seq<Op>, owner: Process, e: int, until: int, ttl: int)
    requires OthersRun(s, ops, owner, until, ttl) && s.rows == [Row(owner, e)] && until < e
    ensures Run(s, ops, ttl).rows == s.rows && Run(s, ops, ttl).clock <= until
  {
    if ops == [] {
    } else {
      var front := ops[..|ops| - 1];
      OthersKeepRow(s, front, owner, e, until, ttl);
      assert OfOthers(ops[|ops| - 1], owner, until);
      OthersStepKeepsRow(Run(s, front, ttl), ops[|ops| - 1], owner, e, until, ttl);
    }
  }

  lemma {:induction false} OthersLeave(rows: seq<Row>, after: seq<Row>, owner: Process, until: int, ttl: int)
    requires OthersLead(rows, after, owner, until, ttl) && |rows| <= 1
    ensures |after| <= 1
    ensures forall e :: rows == [Row(owner, e)] && until < e ==> after == rows
  {
    var s, ops :| OthersRun(s, ops, owner, until, ttl) && s.rows == rows && Run(s, ops, ttl).rows == after;
    RunsHaveOneRow(s, ops, ttl);
    forall e | rows == [Row(owner, e)] && until < e ensures after == rows {
      OthersKeepRow(s, ops, owner, e, until, ttl);
    }
  }

  /** Others take their steps up to `now`, and then the owner renews; `renewed` says whether it found its row. */
  ghost predicate RenewsAmid(rows: seq<Row>, after: seq<Row>, owner: Process, now: int, ttl: int, renewed: bool) {
    exists mid ::
      && |mid| <= 1 && OthersLead(rows, mid, owner, now, ttl) && after == RowsAfter(mid, Op.Renew(owner, now), ttl)
      && (renewed <==> Owns(mid, owner))
  }

  /** The tables of a run: the one after the claim, and the one after each renewal amid the others' steps. */
  ghost predicate Renewals(tables: seq<seq<Row>>, renewals: seq<bool>, owner: Process, clock: nat -> int, ttl: int) {
    && |tables| == |renewals| + 1 && tables[0] == [Row(owner, clock(0) + ttl)]
    && forall k :: 0 <= k < |renewals| ==> RenewsAt(tables, renewals, owner, clock, ttl, k)
  }

  ghost predicate RenewsAt(tables: seq<seq<Row>>, renewals: seq<bool>, owner: Process, clock: nat -> int, ttl: int, k: nat)
    requires k < |renewals| && |tables| == |renewals| + 1
  {
    RenewsAmid(tables[k], tables[k + 1], owner, clock(k + 1), ttl, renewals[k])
  }

  lemma RenewedOnceMore(tables: seq<seq<Row>>, renewals: seq<bool>, owner: Process, clock: nat -> int, ttl: int,
                        rows: seq<Row>, renewed: bool)
    requires Renewals(tables, renewals, owner, clock, ttl)
    requires RenewsAmid(tables[|renewals|], rows, owner, clock(|renewals| + 1), ttl, renewed)
    ensures Renewals(tables + [rows], renewals + [renewed], owner, clock, ttl)
  {
    var more, all := tables + [rows], renewals + [renewed];
    forall k | 0 <= k < |all| ensures RenewsAt(more, all, owner, clock, ttl, k) {
      if k < |renewals| {
        assert RenewsAt(tables, renewals, owner, clock, ttl, k);
      }
    }
  }

  /** Others take their steps up to `now`, and then the owner releases. */
  ghost predicate ReleasesAmid(rows: seq<Row>, after: seq<Row>, owner: Process, now: int, ttl: int) {
    exists mid :: |mid| <= 1 && OthersLead(rows, mid, owner, now, ttl) && after == RowsAfter(mid, Op.Release(owner), ttl)
  }

  /** What a probe comes to; a probe that fails is persisted as an error. */
  datatype Verdict = PlanConfirmed(plan: nat) | ProbeError | TokenDead | NoToken | OtherVerdict(text: nat)

  /** The end of one probe: its verdict is stored, or storing it fails and ends the run. */
  datatype Probe = Stored(verdict: Verdict) | StoreFails

  predicate CountsAsError(v: Verdict) {
    v.ProbeError? || v.TokenDead? || v.NoToken?
  }

  /** The verdicts that count as errors, and no others. */
  lemma ErrorsByName(v: Verdict)
    ensures CountsAsError(v) <==> v in {ProbeError, TokenDead, NoToken}
  {
  }

  function Confirmed(probes: seq<Probe>): nat {
    if probes == [] then 0
    else
      var before, last := Confirmed(probes[..|probes| - 1]), probes[|probes| - 1];
      if last.Stored? && last.verdict.PlanConfirmed? then before + 1 else before
  }

  function Errors(probes: seq<Probe>): nat {
    if probes == [] then 0
    else
      var before, last := Errors(probes[..|probes| - 1]), probes[|probes| - 1];
      if last.Stored? && CountsAsError(last.verdict) then before + 1 else before
  }

  datatype Summary = Skipped | Broken | Polled(total: nat, confirmed: nat, errors: nat)

  class SurvivalService {
    const table: LeaseTable
    const owner: Process
    var running: bool

    constructor (table: LeaseTable, owner: Process)
      ensures this.table == table && this.owner == owner && !running
    {
      this.table, this.owner, running := table, owner, false;
    }

    /** Other processes take their steps on the table, at times up to `until`. */
    method OtherProcesses(ttl: int, ghost until: int)
      requires |table.rows| <= 1
      modifies table
      ensures OthersLead(old(table.rows), table.rows, owner, until, ttl)
    {
      StayingLeads(table.rows, owner, until, ttl);
    }

    /** The others act and then this process renews its row, which it finds if it is in time. */
    method RenewAmidOthers(now: int, ttl: int) returns (renewed: bool)
      requires |table.rows| <= 1
      modifies table
      ensures |table.rows| <= 1
      ensures forall e :: old(table.rows) == [Row(owner, e)] && now < e ==> renewed && table.rows == [Row(owner, now + ttl)]
      ensures RenewsAmid(old(table.rows), table.rows, owner, now, ttl, renewed)
    {
      ghost var before := table.rows;
      OtherProcesses(ttl, now);
      OthersLeave(before, table.rows, owner, now, ttl);
      OneRow(table.rows, 0, owner, now + ttl);
      ghost var mid := table.rows;
      renewed := table.Renew(owner, now, ttl);
      assert OthersLead(before, mid, owner, now, ttl) && table.rows == RowsAfter(mid, Op.Renew(owner, now), ttl);
    }

    /** One renewal of a run; its answer is recorded and not looked at. */
    method RenewNext(clock: nat -> int, k: nat, ttl: int, ghost tables: seq<seq<Row>>, ghost renewals: seq<bool>)
      returns (ghost more: seq<bool>, ghost all: seq<seq<Row>>)
      requires |table.rows| <= 1 && |renewals| == k
      requires Renewals(tables, renewals, owner, clock, ttl) && tables[k] == table.rows
      modifies table
      ensures |more| == k + 1 && |all| == k + 2 && more[..k] == renewals
      ensures |table.rows| <= 1 && Renewals(all, more, owner, clock, ttl) && all[k + 1] == table.rows
      ensures old(table.rows) == [Row(owner, clock(k) + ttl)] && clock(k + 1) < clock(k) + ttl ==>
                more[k] && table.rows == [Row(owner, clock(k + 1) + ttl)]
    {
      var renewed := RenewAmidOthers(clock(k + 1), ttl);
      RenewedOnceMore(tables, renewals, owner, clock, ttl, table.rows, renewed);
      more, all := renewals + [renewed], tables + [table.rows];
    }

    method ReleaseAmidOthers(ghost now: int, ttl: int)
      requires |table.rows| <= 1
      modifies table
      ensures |table.rows| <= 1 && !Owns(table.rows, owner)
      ensures ReleasesAmid(old(table.rows), table.rows, owner, now, ttl)
    {
      ghost var before := table.rows;
      OtherProcesses(ttl, now);
      OthersLeave(before, table.rows, owner, now, ttl);
      OneRow(table.rows, 0, owner, 0);
      ghost var mid := table.rows;
      table.Release(owner);
      assert OthersLead(before, mid, owner, now, ttl) && table.rows == RowsAfter(mid, Op.Release(owner), ttl);
    }

    /** Each of the first `n` renewals comes before the time written last has passed. */
    ghost predicate InTime(clock: nat -> int, ttl: int, n: nat) {
      forall j :: 0 <= j < n ==> clock(j + 1) < clock(j) + ttl
    }

    /** The probes of a run that has claimed and says so: it renews after every one, and storing one may fail and end it. */
    method ProbeAll(probes: seq<Probe>, clock: nat -> int, ttl: int)
      returns (summary: Summary, ghost renewals: seq<bool>, ghost tables: seq<seq<Row>>)
      requires table.rows == [Row(owner, clock(0) + ttl)] && running
      modifies table
      ensures |table.rows| <= 1 && Renewals(tables, renewals, owner, clock, ttl) && tables[|renewals|] == table.rows
      ensures summary.Polled? ==>
                && StoreFails !in probes && |renewals| == |probes|
                && summary == Polled(|probes|, Confirmed(probes), Errors(probes))
      ensures !summary.Polled? ==>
                && summary.Broken? && 1 <= |renewals| <= |probes|
                && probes[|renewals| - 1].StoreFails? && StoreFails !in probes[..|renewals| - 1]
      ensures InTime(clock, ttl, |renewals|) ==> forall k :: 0 <= k < |renewals| ==> renewals[k]
    {
      var total, confirmed, errors := 0, 0, 0;
      summary, renewals, tables := Broken, [], [table.rows];
      var k := 0;
      while k < |probes|
        invariant k <= |probes| && |table.rows| <= 1 && |renewals| == k
        invariant StoreFails !in probes[..k]
        invariant Renewals(tables, renewals, owner, clock, ttl) && tables[k] == table.rows
        invariant total == k && confirmed == Confirmed(probes[..k]) && errors == Errors(probes[..k])
        invariant InTime(clock, ttl, k) ==> table.rows == [Row(owner, clock(k) + ttl)]
        invariant InTime(clock, ttl, k) ==> forall j :: 0 <= j < k ==> renewals[j]
      {
        ghost var before := renewals;
        renewals, tables := RenewNext(clock, k, ttl, tables, renewals);
        assert forall j :: 0 <= j < k ==> renewals[j] == before[j];
        if probes[k].StoreFails? {
          return;
        }
        assert probes[..k + 1][..k] == probes[..k];
        total := total + 1;
        if probes[k].verdict.PlanConfirmed? {
          confirmed := confirmed + 1;
        }
        if CountsAsError(probes[k].verdict) {
          errors := errors + 1;
        }
        k := k + 1;
      }
      assert probes[..k] == probes;
      summary := Polled(total, confirmed, errors);
    }

    /**
     One polling run: it starts exactly if the lease is free or expired, renews after every probe without
     looking at the answer, and however it ends leaves no row of its own behind. In time, every renewal
     finds the row, so the whole run has the lease. `tables` are the table after the claim and after each renewal.
     */
    method RunOnce(probes: seq<Probe>, clock: nat -> int, ttl: int)
      returns (summary: Summary, ghost renewals: seq<bool>, ghost tables: seq<seq<Row>>)
      requires |table.rows| <= 1
      modifies this, table
      ensures |table.rows| <= 1
      ensures summary.Skipped? <==> Unexpired(old(table.rows), clock(0)) != []
      ensures summary.Skipped? ==> table.rows == old(table.rows) && running == old(running)
      ensures !summary.Skipped? ==>
                && !Owns(table.rows, owner) && !running && Renewals(tables, renewals, owner, clock, ttl)
                && ReleasesAmid(tables[|renewals|], table.rows, owner, clock(|renewals| + 1), ttl)
      ensures summary.Polled? ==>
                && StoreFails !in probes && |renewals| == |probes|
                && summary == Polled(|probes|, Confirmed(probes), Errors(probes))
      ensures summary.Broken? ==>
                1 <= |renewals| <= |probes| && probes[|renewals| - 1].StoreFails? && StoreFails !in probes[..|renewals| - 1]
      ensures InTime(clock, ttl, |renewals|) ==> forall k :: 0 <= k < |renewals| ==> renewals[k]
    {
      var claimed := table.Claim(owner, clock(0), ttl);
      if !claimed {
        return Skipped, [], [];
      }
      running := true;
      summary, renewals, tables := ProbeAll(probes, clock, ttl);
      running := false;
      ReleaseAmidOthers(clock(|renewals| + 1), ttl);
    }
  }
}
