/** Lazy expiry against an imaginary table that expires every request the instant it falls due. */
module LazyExpiry {
  import opened Common
  import opened Approvals
  import opened ApprovalStore

  datatype Sys = Sys(now: int, rows: map<Id, Row>, assignees: map<Id, set<int>>)

  datatype Op =
    | Tick(elapsed: nat)
    | FileRequest(id: Id, requestedBy: Option<int>, expiresAt: Option<int>, named: set<int>)
    | Decide(id: Id, actor: Actor, approved: bool, note: string, hook: Hook)
    | Cancel(id: Id, actor: Actor, note: string)
    | Sweep(ids: set<Id>)

  datatype Config = Config(policy: Policy, failing: set<Id>)

  function NewRow(requestedBy: Option<int>, expiresAt: Option<int>): Row {
    Row(requestedBy, expiresAt, Pending, None, None, "", false)
  }

  /** One service call as the source runs it. */
  function Lazy(cfg: Config, s: Sys, op: Op): Sys {
    match op
    case Tick(elapsed) => s.(now := s.now + elapsed)
    case FileRequest(id, requestedBy, expiresAt, named) =>
      if id in s.rows then s
      else s.(rows := s.rows[id := NewRow(requestedBy, expiresAt)], assignees := s.assignees[id := named])
    case Decide(id, actor, approved, note, hook) =>
      if id !in s.rows || id !in s.assignees then s
      else if Overdue(s.rows[id], s.now) then s.(rows := Settle(s.rows, id, Expiry(s.now), cfg.failing))
      else if CanDecide(cfg.policy, actor, s.rows[id], s.assignees[id], hook)
      then s.(rows := Settle(s.rows, id,
                             Decision(if approved then Approved else Rejected, actor.pk, s.now, note), cfg.failing))
      else s
    case Cancel(id, actor, note) =>
      if id in s.rows && CanCancel(actor, s.rows[id])
      then s.(rows := Settle(s.rows, id, Decision(Canceled, actor.pk, s.now, note), cfg.failing))
      else s
    case Sweep(ids) => s.(rows := Swept(s.rows, ids * OverdueIds(s.rows, s.now), s.now, cfg.failing))
  }

  /** Each call is the service call of `ApprovalStore`, with the row as it is for its caller's snapshot. */
  lemma LazyIsService(cfg: Config, s: Sys, op: Op)
    ensures op.Decide? && op.id in s.rows && op.id in s.assignees ==>
              exists outcome :: IsDecide(cfg.policy, s.assignees[op.id], cfg.failing, s.now, op.id, s.rows[op.id],
                                         op.actor, op.approved, op.note, op.hook, s.rows, outcome,
                                         Lazy(cfg, s, op).rows)
    ensures op.Cancel? && op.id in s.rows ==>
              exists outcome :: IsCancel(cfg.failing, s.now, op.id, s.rows[op.id], op.actor, op.note, s.rows, outcome,
                                         Lazy(cfg, s, op).rows)
  {
    if op.Decide? && op.id in s.rows && op.id in s.assignees {
      DecideIsService(cfg, s, op, s.rows[op.id], s.assignees[op.id]);
    }
    if op.Cancel? && op.id in s.rows {
      var outcome := if CanCancel(op.actor, s.rows[op.id]) then Settled else NotEligible;
      assert IsCancel(cfg.failing, s.now, op.id, s.rows[op.id], op.actor, op.note, s.rows, outcome,
                      Lazy(cfg, s, op).rows);
    }
  }

  lemma DecideIsService(cfg: Config, s: Sys, op: Op, row: Row, named: set<int>)
    requires op.Decide? && op.id in s.rows && op.id in s.assignees
    requires row == s.rows[op.id] && named == s.assignees[op.id]
    ensures exists outcome :: IsDecide(cfg.policy, named, cfg.failing, s.now, op.id, row, op.actor, op.approved,
                                       op.note, op.hook, s.rows, outcome, Lazy(cfg, s, op).rows)
  {
    CanDecideMeansEligible(cfg.policy, op.actor, row, named, op.hook);
    var outcome := if Overdue(row, s.now) || !row.status.Pending? then NotPending
                   else if CanDecide(cfg.policy, op.actor, row, named, op.hook) then Settled
                   else NotEligible;
    assert IsDecide(cfg.policy, named, cfg.failing, s.now, op.id, row, op.actor, op.approved, op.note, op.hook, s.rows,
                    outcome, Lazy(cfg, s, op).rows);
  }

  /** A sweep of a batch that may be picked is that of the service, and a request is filed as it was asked for. */
  lemma LazySweepIsService(cfg: Config, s: Sys, scope: set<Id>, limit: Option<int>, batch: seq<Id>)
    requires IsSweepBatch(s.rows, scope, s.now, limit, batch)
    ensures IsSweep(cfg.failing, s.now, scope, limit, s.rows, batch, Lazy(cfg, s, Sweep(ToSet(batch))).rows)
  {
    var after := Lazy(cfg, s, Sweep(ToSet(batch))).rows;
    forall id | id in s.rows
      ensures after[id] == if id in batch then ExpiredRow(s.rows[id], s.now, id in cfg.failing) else s.rows[id]
    {
      assert id in batch ==> id in ToSet(batch) && id in ScopedOverdue(s.rows, scope, s.now);
    }
  }

  lemma FiledAsAsked(cfg: Config, s: Sys, op: Op)
    requires op.FileRequest?
    ensures var after := Lazy(cfg, s, op);
            if op.id in s.rows then after == s
            else
              && op.id in after.rows && after.rows[op.id].status == Pending && op.id in after.assignees
              && after.rows[op.id].requestedBy == op.requestedBy && after.rows[op.id].expiresAt == op.expiresAt
              && after.rows[op.id].decidedBy.None? && after.rows[op.id].decidedAt.None? && after.rows[op.id].note == ""
              && !after.rows[op.id].callbackError && after.assignees[op.id] == op.named
  {
  }

  function ExpireAll(cfg: Config, s: Sys): Sys {
    s.(rows := Swept(s.rows, OverdueIds(s.rows, s.now), s.now, cfg.failing))
  }

  /** The same call when expiry is immediate. */
  function Eager(cfg: Config, s: Sys, op: Op): Sys { ExpireAll(cfg, Lazy(cfg, s, op)) }

  /** What a reader sees of a row. */
  datatype Face = Face(status: Status, decidedBy: Option<int>, note: string, requestedBy: Option<int>,
      expiresAt: Option<int>)

  function Shown(row: Row, now: int): Face {
    Face(EffectiveStatus(row, now), row.decidedBy, row.note, row.requestedBy, row.expiresAt)
  }

  ghost predicate Alike(lazy: Sys, eager: Sys) {
    && lazy.now == eager.now && lazy.assignees == eager.assignees && lazy.rows.Keys == eager.rows.Keys
    && (forall id :: id in lazy.rows ==> Shown(lazy.rows[id], lazy.now) == Shown(eager.rows[id], eager.now))
    && (forall id :: id in eager.rows ==> !Overdue(eager.rows[id], eager.now))
  }

  /** The one call that tells the two apart: withdrawing a request that is overdue but not yet swept. */
  predicate CancelsOverdue(s: Sys, op: Op) {
    op.Cancel? && op.id in s.rows && Overdue(s.rows[op.id], s.now) && CanCancel(op.actor, s.rows[op.id])
  }

  lemma ExpireAllShows(cfg: Config, s: Sys, id: Id)
    requires id in s.rows
    ensures Shown(ExpireAll(cfg, s).rows[id], s.now) == Shown(s.rows[id], s.now)
    ensures !Overdue(ExpireAll(cfg, s).rows[id], s.now)
  {
  }

  lemma AlikeAfterExpiry(cfg: Config, lazy: Sys, eager: Sys)
    requires lazy.now == eager.now && lazy.assignees == eager.assignees && lazy.rows.Keys == eager.rows.Keys
    requires forall id :: id in lazy.rows ==> Shown(lazy.rows[id], lazy.now) == Shown(eager.rows[id], eager.now)
    ensures Alike(lazy, ExpireAll(cfg, eager))
  {
    forall id | id in eager.rows { ExpireAllShows(cfg, eager, id); }
  }

  lemma TickKeepsAlike(cfg: Config, lazy: Sys, eager: Sys, elapsed: nat)
    requires Alike(lazy, eager)
    ensures Alike(Lazy(cfg, lazy, Tick(elapsed)), Eager(cfg, eager, Tick(elapsed)))
  {
    var l, e := Lazy(cfg, lazy, Tick(elapsed)), Lazy(cfg, eager, Tick(elapsed));
    forall id | id in l.rows ensures Shown(l.rows[id], l.now) == Shown(e.rows[id], e.now) {
      assert Shown(lazy.rows[id], lazy.now) == Shown(eager.rows[id], eager.now);
    }
    AlikeAfterExpiry(cfg, l, e);
  }

  /** The decided row looks the same in both, and so does every other. */
  lemma DecideShows(cfg: Config, lazy: Sys, eager: Sys, op: Op, id: Id)
    requires Alike(lazy, eager) && op.Decide? && id in lazy.rows
    ensures Shown(Lazy(cfg, lazy, op).rows[id], lazy.now) == Shown(Lazy(cfg, eager, op).rows[id], eager.now)
  {
    assert Shown(lazy.rows[id], lazy.now) == Shown(eager.rows[id], eager.now);
  }

  lemma DecideLeaves(cfg: Config, s: Sys, op: Op)
    requires op.Decide?
    ensures Lazy(cfg, s, op).now == s.now && Lazy(cfg, s, op).assignees == s.assignees
    ensures Lazy(cfg, s, op).rows.Keys == s.rows.Keys
  {
  }

  lemma DecideKeepsAlike(cfg: Config, lazy: Sys, eager: Sys, op: Op)
    requires Alike(lazy, eager) && op.Decide?
    ensures Alike(Lazy(cfg, lazy, op), Eager(cfg, eager, op))
  {
    DecideLeaves(cfg, lazy, op);
    DecideLeaves(cfg, eager, op);
    forall id | id in lazy.rows
      ensures Shown(Lazy(cfg, lazy, op).rows[id], lazy.now) == Shown(Lazy(cfg, eager, op).rows[id], eager.now)
    {
      DecideShows(cfg, lazy, eager, op, id);
    }
    AlikeAfterExpiry(cfg, Lazy(cfg, lazy, op), Lazy(cfg, eager, op));
  }

  lemma CancelAlikeIff(cfg: Config, lazy: Sys, eager: Sys, op: Op)
    requires Alike(lazy, eager) && op.Cancel?
    ensures Alike(Lazy(cfg, lazy, op), Eager(cfg, eager, op)) <==> !CancelsOverdue(lazy, op)
  {
    var l, e := Lazy(cfg, lazy, op), Lazy(cfg, eager, op);
    if op.id in lazy.rows {
      assert Shown(lazy.rows[op.id], lazy.now) == Shown(eager.rows[op.id], eager.now);
    }
    if CancelsOverdue(lazy, op) {
      ExpireAllShows(cfg, e, op.id);
      assert Shown(l.rows[op.id], l.now).status == Canceled;
      assert Shown(e.rows[op.id], e.now).status == Expired;
    } else {
      forall id | id in l.rows ensures Shown(l.rows[id], l.now) == Shown(e.rows[id], e.now) {
        assert Shown(lazy.rows[id], lazy.now) == Shown(eager.rows[id], eager.now);
      }
      AlikeAfterExpiry(cfg, l, e);
    }
  }

  lemma FileKeepsAlike(cfg: Config, lazy: Sys, eager: Sys, op: Op)
    requires Alike(lazy, eager) && op.FileRequest?
    ensures Alike(Lazy(cfg, lazy, op), Eager(cfg, eager, op))
  {
    AlikeAfterExpiry(cfg, Lazy(cfg, lazy, op), Lazy(cfg, eager, op));
  }

  lemma SweepKeepsAlike(cfg: Config, lazy: Sys, eager: Sys, ids: set<Id>)
    requires Alike(lazy, eager)
    ensures Alike(Lazy(cfg, lazy, Sweep(ids)), Eager(cfg, eager, Sweep(ids)))
  {
    var l, e := Lazy(cfg, lazy, Sweep(ids)), Lazy(cfg, eager, Sweep(ids));
    assert OverdueIds(eager.rows, eager.now) == {};
    assert e.rows == eager.rows;
    forall id | id in l.rows ensures Shown(l.rows[id], l.now) == Shown(e.rows[id], e.now) {
      assert Shown(lazy.rows[id], lazy.now) == Shown(eager.rows[id], eager.now);
    }
    AlikeAfterExpiry(cfg, l, e);
  }

  /** A call keeps the lazy table indistinguishable from the eager one iff it does not withdraw an
      overdue, unswept request. */
  lemma StepAlikeIff(cfg: Config, lazy: Sys, eager: Sys, op: Op)
    requires Alike(lazy, eager)
    ensures Alike(Lazy(cfg, lazy, op), Eager(cfg, eager, op)) <==> !CancelsOverdue(lazy, op)
  {
    match op
    case Tick(elapsed) => TickKeepsAlike(cfg, lazy, eager, elapsed);
    case FileRequest(_, _, _, _) => FileKeepsAlike(cfg, lazy, eager, op);
    case Decide(_, _, _, _, _) => DecideKeepsAlike(cfg, lazy, eager, op);
    case Cancel(_, _, _) => CancelAlikeIff(cfg, lazy, eager, op);
    case Sweep(ids) => SweepKeepsAlike(cfg, lazy, eager, ids);
  }

  function LazyRun(cfg: Config, s: Sys, ops: seq<Op>): Sys
    decreases |ops|
  {
    if ops == [] then s else LazyRun(cfg, Lazy(cfg, s, ops[0]), ops[1..])
  }

  function EagerRun(cfg: Config, s: Sys, ops: seq<Op>): Sys
    decreases |ops|
  {
    if ops == [] then s else EagerRun(cfg, Eager(cfg, s, ops[0]), ops[1..])
  }

  predicate NoOverdueCancel(cfg: Config, s: Sys, ops: seq<Op>)
    decreases |ops|
  {
    ops != [] ==> !CancelsOverdue(s, ops[0]) && NoOverdueCancel(cfg, Lazy(cfg, s, ops[0]), ops[1..])
  }

  lemma {:induction false} RunsAlike(cfg: Config, lazy: Sys, eager: Sys, ops: seq<Op>)
    requires Alike(lazy, eager) && NoOverdueCancel(cfg, lazy, ops)
    ensures Alike(LazyRun(cfg, lazy, ops), EagerRun(cfg, eager, ops))
    decreases |ops|
  {
    if ops != [] {
      StepAlikeIff(cfg, lazy, eager, ops[0]);
      RunsAlike(cfg, Lazy(cfg, lazy, ops[0]), Eager(cfg, eager, ops[0]), ops[1..]);
    }
  }

  // ---- a withdrawn overdue request stays told apart ----

  /** Canceled here, expired there. */
  ghost predicate Parted(lazy: Sys, eager: Sys, id: Id) {
    && id in lazy.rows && lazy.rows[id].status.Canceled?
    && id in eager.rows && eager.rows[id].status.Expired?
  }

  lemma SettledStays(cfg: Config, s: Sys, op: Op, id: Id)
    requires id in s.rows && !s.rows[id].status.Pending?
    ensures id in Lazy(cfg, s, op).rows && Lazy(cfg, s, op).rows[id].status == s.rows[id].status
  {
  }

  lemma SettledStaysExpired(cfg: Config, s: Sys, id: Id)
    requires id in s.rows && !s.rows[id].status.Pending?
    ensures ExpireAll(cfg, s).rows[id].status == s.rows[id].status
  {
  }

  lemma {:induction false} PartedStays(cfg: Config, lazy: Sys, eager: Sys, ops: seq<Op>, id: Id)
    requires Parted(lazy, eager, id)
    ensures Parted(LazyRun(cfg, lazy, ops), EagerRun(cfg, eager, ops), id)
    decreases |ops|
  {
    if ops != [] {
      SettledStays(cfg, lazy, ops[0], id);
      SettledStays(cfg, eager, ops[0], id);
      SettledStaysExpired(cfg, Lazy(cfg, eager, ops[0]), id);
      PartedStays(cfg, Lazy(cfg, lazy, ops[0]), Eager(cfg, eager, ops[0]), ops[1..], id);
    }
  }

  lemma OverdueCancelParts(cfg: Config, lazy: Sys, eager: Sys, op: Op)
    requires Alike(lazy, eager) && CancelsOverdue(lazy, op)
    ensures Parted(Lazy(cfg, lazy, op), Eager(cfg, eager, op), op.id)
  {
    assert Shown(lazy.rows[op.id], lazy.now) == Shown(eager.rows[op.id], eager.now);
    assert eager.rows[op.id].status.Expired?;
    SettledStays(cfg, eager, op, op.id);
    SettledStaysExpired(cfg, Lazy(cfg, eager, op), op.id);
  }

  lemma {:induction false} OverdueCancelShows(cfg: Config, lazy: Sys, eager: Sys, ops: seq<Op>) returns (id: Id)
    requires Alike(lazy, eager) && !NoOverdueCancel(cfg, lazy, ops)
    ensures Parted(LazyRun(cfg, lazy, ops), EagerRun(cfg, eager, ops), id)
    decreases |ops|
  {
    if CancelsOverdue(lazy, ops[0]) {
      id := ops[0].id;
      OverdueCancelParts(cfg, lazy, eager, ops[0]);
      PartedStays(cfg, Lazy(cfg, lazy, ops[0]), Eager(cfg, eager, ops[0]), ops[1..], id);
    } else {
      StepAlikeIff(cfg, lazy, eager, ops[0]);
      id := OverdueCancelShows(cfg, Lazy(cfg, lazy, ops[0]), Eager(cfg, eager, ops[0]), ops[1..]);
    }
  }

  /** Every effective-status query answers alike. */
  ghost predicate SameAnswers(lazy: Sys, eager: Sys) {
    forall value: Status :: ForEffectiveStatus(lazy.rows, value, lazy.now) ==
      ForEffectiveStatus(eager.rows, value, eager.now)
  }

  lemma AlikeAnswersAlike(lazy: Sys, eager: Sys)
    requires Alike(lazy, eager)
    ensures SameAnswers(lazy, eager)
  {
    forall value: Status, id ensures
      id in ForEffectiveStatus(lazy.rows, value, lazy.now) <==> id in ForEffectiveStatus(eager.rows, value, eager.now)
    {
      EffectivePartition(lazy.rows, lazy.now, id, value);
      EffectivePartition(eager.rows, eager.now, id, value);
      if id in lazy.rows { assert Shown(lazy.rows[id], lazy.now) == Shown(eager.rows[id], eager.now); }
    }
  }

  lemma PartedAnswersDiffer(lazy: Sys, eager: Sys, id: Id)
    requires Parted(lazy, eager, id)
    ensures !SameAnswers(lazy, eager)
  {
    EffectivePartition(lazy.rows, lazy.now, id, Canceled);
    EffectivePartition(eager.rows, eager.now, id, Canceled);
    assert ForEffectiveStatus(lazy.rows, Canceled, lazy.now) != ForEffectiveStatus(eager.rows, Canceled, eager.now);
  }

  /** MAIN: after any run, with sweeps wherever one likes, every effective-status query answers as if requests
      expired the instant they fell due, iff the run never withdrew an overdue, unswept request. */
  lemma LazyRefinesEager(cfg: Config, start: int, ops: seq<Op>)
    ensures var s := Sys(start, map[], map[]);
            SameAnswers(LazyRun(cfg, s, ops), EagerRun(cfg, s, ops)) <==> NoOverdueCancel(cfg, s, ops)
  {
    var s := Sys(start, map[], map[]);
    if NoOverdueCancel(cfg, s, ops) {
      RunsAlike(cfg, s, s, ops);
      AlikeAnswersAlike(LazyRun(cfg, s, ops), EagerRun(cfg, s, ops));
    } else {
      var id := OverdueCancelShows(cfg, s, s, ops);
      PartedAnswersDiffer(LazyRun(cfg, s, ops), EagerRun(cfg, s, ops), id);
    }
  }

  /** A requester withdraws an overdue request before any sweep: canceled here, expired there. */
  lemma OverdueCancelDiffers()
    ensures var cfg, owner := Config(Policy(false, true), {}), Actor(Some(1), true, false);
            var ops := [FileRequest(Id(7), Some(1), Some(10), {}), Tick(20), Cancel(Id(7), owner, "")];
            var lazy, eager := LazyRun(cfg, Sys(0, map[], map[]), ops), EagerRun(cfg, Sys(0, map[], map[]), ops);
            Id(7) in lazy.rows && Id(7) in eager.rows
            && lazy.rows[Id(7)].status == Canceled && eager.rows[Id(7)].status == Expired
  {
    var cfg, owner := Config(Policy(false, true), {}), Actor(Some(1), true, false);
    var ops := [FileRequest(Id(7), Some(1), Some(10), {}), Tick(20), Cancel(Id(7), owner, "")];
    var s0 := Sys(0, map[], map[]);
    assert ops[1..] == [Tick(20), ops[2]] && ops[1..][1..] == [ops[2]] && ops[1..][1..][1..] == [];
    var l1 := Lazy(cfg, s0, ops[0]);
    var l2 := Lazy(cfg, l1, Tick(20));
    var l3 := Lazy(cfg, l2, ops[2]);
    assert LazyRun(cfg, s0, ops) == LazyRun(cfg, l1, ops[1..]) == LazyRun(cfg, l2, [ops[2]]) == LazyRun(cfg, l3, []);
    var e1 := Eager(cfg, s0, ops[0]);
    var e2 := Eager(cfg, e1, Tick(20));
    var e3 := Eager(cfg, e2, ops[2]);
    assert EagerRun(cfg, s0, ops) == EagerRun(cfg, e1, ops[1..])
           == EagerRun(cfg, e2, [ops[2]]) == EagerRun(cfg, e3, []);
    assert e2.rows[Id(7)].status == Expired;
  }
}
