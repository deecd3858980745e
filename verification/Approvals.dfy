/** Approval requests: the rows, who may decide, and what each service call does to the table. */
module Approvals {
  import opened Common

  datatype Status = Pending | Approved | Rejected | Canceled | Expired

  /** A request row.  `callbackError` tells whether the kind's callback left a traceback. */
  datatype Row = Row(requestedBy: Option<int>, expiresAt: Option<int>, status: Status, decidedBy: Option<int>,
                     decidedAt: Option<int>, note: string, callbackError: bool)

  /** An acting identity as the service sees it; an anonymous one has no pk. */
  datatype Actor = Actor(pk: Option<int>, active: bool, staff: bool)

  datatype Policy = Policy(allowSelfApprove: bool, staffOverride: bool)

  /** What the kind's own `can_decide` hook does. */
  datatype Hook = NoHook | Returned(answer: bool) | HookRaised

  // ---- models.py ----

  predicate Overdue(row: Row, now: int) {
    row.status.Pending? && row.expiresAt.Some? && row.expiresAt.value <= now
  }

  function EffectiveStatus(row: Row, now: int): Status {
    if Overdue(row, now) then Expired else row.status
  }

  function OverdueIds(rows: map<Id, Row>, now: int): set<Id> {
    set id | id in rows && Overdue(rows[id], now)
  }

  /** `actionable`: pending, minus those whose expiry is set and past. */
  function ActionableIds(rows: map<Id, Row>, now: int): set<Id> {
    set id | id in rows && rows[id].status.Pending? && !(rows[id].expiresAt.Some? && rows[id].expiresAt.value <= now)
  }

  /** `for_effective_status`. */
  function ForEffectiveStatus(rows: map<Id, Row>, value: Status, now: int): set<Id> {
    match value
    case Pending => ActionableIds(rows, now)
    case Expired => (set id | id in rows && rows[id].status.Expired?) + OverdueIds(rows, now)
    case _ => set id | id in rows && rows[id].status == value
  }

  // ---- permissions.py ----

  function ActingPk(actor: Actor): Option<int> { if actor.active then actor.pk else None }

  predicate IsStaff(actor: Actor) { actor.staff && actor.active }

  predicate CanDecide(policy: Policy, actor: Actor, row: Row, assignees: set<int>, hook: Hook) {
    var pk := ActingPk(actor);
    if pk.None? || !row.status.Pending? then false
    else if row.requestedBy == pk && !policy.allowSelfApprove then false
    else
      var eligible := if assignees != {} then pk.value in assignees || (IsStaff(actor) && policy.staffOverride)
                      else IsStaff(actor);
      eligible && match hook
                  case NoHook => true
                  case Returned(answer) => answer
                  case HookRaised => false
  }

  predicate CanCancel(actor: Actor, row: Row) {
    var pk := ActingPk(actor);
    pk.Some? && row.status.Pending? && (row.requestedBy == pk || IsStaff(actor))
  }

  // ---- the conditional UPDATE ----

  /** What a claim writes. */
  datatype Claim =
    | Decision(status: Status, decider: Option<int>, at: int, note: string)
    | Expiry(at: int)

  function Written(row: Row, claim: Claim): Row {
    match claim
    case Decision(status, decider, at, note) =>
      row.(status := status, decidedBy := decider, decidedAt := Some(at), note := note)
    case Expiry(at) => row.(status := Expired, decidedAt := Some(at))
  }

  /** A hook only narrows: whatever it answers, the gates before it hold. */
  ghost predicate Eligible(policy: Policy, actor: Actor, requestedBy: Option<int>, assignees: set<int>) {
    && actor.active && actor.pk.Some?
    && (policy.allowSelfApprove || requestedBy != actor.pk)
    && (if assignees == {} then actor.staff
        else actor.pk.value in assignees || (actor.staff && policy.staffOverride))
  }

  lemma CanDecideMeansEligible(policy: Policy, actor: Actor, row: Row, assignees: set<int>, hook: Hook)
    ensures CanDecide(policy, actor, row, assignees, hook) <==>
            && row.status.Pending?
            && Eligible(policy, actor, row.requestedBy, assignees)
            && (hook.NoHook? || (hook.Returned? && hook.answer))
  {
  }

  // ---- sweeping ----

  /** The row after `_finish`: only a raising callback changes anything the claim wrote. */
  function Finished(row: Row, raised: bool): Row {
    if raised then row.(callbackError := true) else row
  }

  /** The table after expiring these rows; `failing` are the rows whose callback raises. */
  function Swept(rows: map<Id, Row>, ids: set<Id>, now: int, failing: set<Id>): map<Id, Row> {
    map id | id in rows :: if id in ids then Finished(Written(rows[id], Expiry(now)), id in failing) else rows[id]
  }

  function BatchSize(limit: Option<int>, available: nat): nat {
    if limit.Some? && 0 <= limit.value < available then limit.value else available
  }

  function ScopedOverdue(rows: map<Id, Row>, scope: set<Id>, now: int): set<Id> {
    set id | id in scope && id in rows && Overdue(rows[id], now)
  }

  function Deadline(rows: map<Id, Row>, id: Id): int {
    if id in rows && rows[id].expiresAt.Some? then rows[id].expiresAt.value else 0
  }

  /** The ids `mark_expired` picks: as many overdue rows of the scope as the limit allows, in expiry
      order, none left behind that expires before one taken. */
  ghost predicate IsSweepBatch(rows: map<Id, Row>, scope: set<Id>, now: int, limit: Option<int>, batch: seq<Id>) {
    && Distinct(batch)
    && ToSet(batch) <= ScopedOverdue(rows, scope, now)
    && |batch| == BatchSize(limit, |ScopedOverdue(rows, scope, now)|)
    && (forall i, j :: 0 <= i < j < |batch| ==> Deadline(rows, batch[i]) <= Deadline(rows, batch[j]))
    && (forall id: Id, taken: Id :: id in ScopedOverdue(rows, scope, now) && id !in batch && taken in batch ==>
          Deadline(rows, taken) <= Deadline(rows, id))
  }

  // ---- lazy expiry ----

  /** Each row is in exactly one effective-status set: the one its own effective status names. */
  lemma EffectivePartition(rows: map<Id, Row>, now: int, id: Id, value: Status)
    ensures id in ForEffectiveStatus(rows, value, now) <==> id in rows && EffectiveStatus(rows[id], now) == value
  {
  }

  /** MAIN: a sweep of any subset of the overdue rows is invisible to every effective-status reader. */
  lemma SweepIsInvisible(rows: map<Id, Row>, ids: set<Id>, now: int, failing: set<Id>, value: Status)
    requires ids <= OverdueIds(rows, now)
    ensures ForEffectiveStatus(Swept(rows, ids, now, failing), value, now) == ForEffectiveStatus(rows, value, now)
  {
    var after := Swept(rows, ids, now, failing);
    forall id ensures id in ForEffectiveStatus(after, value, now) <==> id in ForEffectiveStatus(rows, value, now) {
      EffectivePartition(rows, now, id, value);
      EffectivePartition(after, now, id, value);
    }
  }

  /** Sweeping removes exactly the swept rows from the backlog. */
  lemma SweepShrinksBacklog(rows: map<Id, Row>, scope: set<Id>, ids: set<Id>, now: int, failing: set<Id>)
    requires ids <= ScopedOverdue(rows, scope, now)
    ensures ScopedOverdue(Swept(rows, ids, now, failing), scope, now) == ScopedOverdue(rows, scope, now) - ids
  {
    var after := Swept(rows, ids, now, failing);
    forall id ensures id in ScopedOverdue(after, scope, now) <==> id in ScopedOverdue(rows, scope, now) - ids { }
  }

  /** Sweeps at one instant compose. */
  lemma SweepTwice(rows: map<Id, Row>, ids: set<Id>, more: set<Id>, now: int, failing: set<Id>)
    requires ids !! more
    ensures Swept(Swept(rows, ids, now, failing), more, now, failing) == Swept(rows, ids + more, now, failing)
  {
    assert Swept(Swept(rows, ids, now, failing), more, now, failing).Keys == Swept(rows, ids + more, now, failing).Keys;
  }

  /** The table after a chain of sweeps at one instant, and whether each was a legitimate batch. */
  function AfterSweeps(rows: map<Id, Row>, now: int, failing: set<Id>, batches: seq<seq<Id>>): map<Id, Row>
    decreases |batches|
  {
    if batches == [] then rows
    else AfterSweeps(Swept(rows, ToSet(batches[0]), now, failing), now, failing, batches[1..])
  }

  ghost predicate SweepChain(rows: map<Id, Row>, scope: set<Id>, now: int,
                             failing: set<Id>, limit: Option<int>, batches: seq<seq<Id>>)
    decreases |batches|
  {
    batches != [] ==>
      && IsSweepBatch(rows, scope, now, limit, batches[0])
      && SweepChain(Swept(rows, ToSet(batches[0]), now, failing), scope, now, failing, limit, batches[1..])
  }

  /** MAIN: n sweeps of limit L clear L rows each; once n * L reaches the backlog the table is the one
      that a single unbounded sweep leaves. */
  lemma {:induction false} BoundedSweepsDrain(rows: map<Id, Row>, scope: set<Id>, now: int,
                                              failing: set<Id>, limit: nat, batches: seq<seq<Id>>)
    requires limit >= 1 && SweepChain(rows, scope, now, failing, Some(limit), batches)
    ensures var backlog, left := |ScopedOverdue(rows, scope, now)|,
            |ScopedOverdue(AfterSweeps(rows, now, failing, batches), scope, now)|;
            && left == Remaining(backlog, |batches|, limit)
            && (left == 0 ==>
              AfterSweeps(rows, now, failing, batches) == Swept(rows, ScopedOverdue(rows, scope, now), now, failing))
    decreases |batches|
  {
    var backlog := ScopedOverdue(rows, scope, now);
    if batches == [] {
      Countdown(|backlog|, 0, limit);
      if backlog == {} { assert Swept(rows, backlog, now, failing) == rows; }
    } else {
      var ids := ToSet(batches[0]);
      var rows', rest := Swept(rows, ids, now, failing), batches[1..];
      DistinctSize(batches[0]);
      SweepShrinksBacklog(rows, scope, ids, now, failing);
      BacklogSize(backlog, ids);
      BoundedSweepsDrain(rows', scope, now, failing, limit, rest);
      Countdown(|backlog|, |batches|, limit);
      SweepTwice(rows, ids, backlog - ids, now, failing);
      assert ids + (backlog - ids) == backlog;
    }
  }

  lemma BacklogSize(backlog: set<Id>, ids: set<Id>)
    requires ids <= backlog
    ensures |backlog - ids| == |backlog| - |ids|
  {
    assert backlog == ids + (backlog - ids);
  }

  function Remaining(backlog: int, n: nat, limit: nat): int {
    if n * limit >= backlog then 0 else backlog - n * limit
  }

  lemma Countdown(backlog: nat, n: nat, limit: nat)
    ensures n == 0 ==> Remaining(backlog, n, limit) == backlog
    ensures n > 0 ==> Remaining(backlog, n, limit) == Remaining(backlog - BatchSize(Some(limit), backlog), n - 1, limit)
  {
    if n > 0 {
      var rest := (n - 1) * limit;
      assert n * limit == rest + limit;
    }
  }
}
