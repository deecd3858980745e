/** The approvals table as an object; every method is one service call with nobody else running. */
module ApprovalStore {
  import opened Common
  import opened Approvals

  datatype Outcome = Settled | NotPending | NotEligible

  /** One row settled by a claim and finished. */
  function Settle(rows: map<Id, Row>, id: Id, claim: Claim, failing: set<Id>): map<Id, Row>
    requires id in rows
  {
    rows[id := Finished(Written(rows[id], claim), id in failing)]
  }

  /** The whole row once it is settled: request and deadline stay, and a callback may have failed. */
  function SettledRow(before: Row, status: Status, decider: Option<int>, at: int, note: string, failed: bool): Row {
    Row(before.requestedBy, before.expiresAt, status, decider, Some(at), note, before.callbackError || failed)
  }

  /** The row of a request that fell due: it has no decision and keeps what it said. */
  function ExpiredRow(before: Row, at: int, failed: bool): Row {
    SettledRow(before, Expired, before.decidedBy, at, before.note, failed)
  }

  /** One whole decision against the table as it is; `req` is the row as the caller saw it, possibly long ago.  An
      overdue request is expired instead, and a row that someone else settled meanwhile is left alone. */
  ghost predicate IsDecide(policy: Policy, named: set<int>, failing: set<Id>, now: int, id: Id,
                           req: Row, actor: Actor, approved: bool, note: string, hook: Hook,
                           before: map<Id, Row>, outcome: Outcome, after: map<Id, Row>)
    requires id in before
  {
    var live, status := before[id].status.Pending?, if approved then Approved else Rejected;
    var granted := Eligible(policy, actor, req.requestedBy, named) && hook in {NoHook, Returned(true)};
    if Overdue(req, now) then
      && outcome == NotPending
      && after == if live then before[id := ExpiredRow(before[id], now, id in failing)] else before
    else if req.status.Pending? && granted && live then
      && outcome == Settled
      && after == before[id := SettledRow(before[id], status, actor.pk, now, note, id in failing)]
    else
      outcome == (if req.status.Pending? && !granted then NotEligible else NotPending) && after == before
  }

  /** One whole withdrawal: only the caller's right and the row as it is matter, not whether it is overdue. */
  ghost predicate IsCancel(failing: set<Id>, now: int, id: Id, req: Row, actor: Actor, note: string,
                           before: map<Id, Row>, outcome: Outcome, after: map<Id, Row>)
    requires id in before
  {
    var allowed := req.status.Pending? && actor.active && actor.pk.Some? &&
                   (actor.pk == req.requestedBy || actor.staff);
    && outcome == (if !allowed then NotEligible else if before[id].status.Pending? then Settled else NotPending)
    && after == if outcome == Settled
                then before[id := SettledRow(before[id], Canceled, actor.pk, now, note, id in failing)] else before
  }

  /** One whole sweep, and the ids it picked. */
  ghost predicate IsSweep(failing: set<Id>, now: int, scope: set<Id>, limit: Option<int>,
                          before: map<Id, Row>, batch: seq<Id>, after: map<Id, Row>) {
    && IsSweepBatch(before, scope, now, limit, batch) && after.Keys == before.Keys
    && forall id :: id in before ==>
         after[id] == if id in batch then ExpiredRow(before[id], now, id in failing) else before[id]
  }

  /** A row that a call settled has its callback and its decided signal run, once each. */
  ghost function Ran(before: map<Id, Row>, after: map<Id, Row>, id: Id): seq<Id> {
    if id in before && id in after && before[id].status.Pending? && !after[id].status.Pending? then [id] else []
  }

  class Table {
    /** Rows whose kind callback raises. */
    const failing: set<Id>
    const policy: Policy
    var now: int
    var rows: map<Id, Row>
    var assignees: map<Id, set<int>>
    /** Callback runs and decided signals, in order. */
    var callbacks: seq<Id>
    var signals: seq<Id>

    ghost predicate Valid()
      reads this
    {
      rows.Keys == assignees.Keys
    }

    constructor (failing: set<Id>, policy: Policy, now: int)
      ensures Valid() && this.failing == failing && this.policy == policy && this.now == now
      ensures rows == map[] && callbacks == [] && signals == []
    {
      this.failing, this.policy, this.now := failing, policy, now;
      rows, assignees, callbacks, signals := map[], map[], [], [];
    }

    /** `_claim`: the conditional UPDATE. */
    method Claim(id: Id, claim: Claim) returns (won: bool)
      requires id in rows
      modifies this`rows
      ensures won == old(rows)[id].status.Pending?
      ensures rows == if won then old(rows)[id := Written(old(rows)[id], claim)] else old(rows)
    {
      won := rows[id].status.Pending?;
      if won { rows := rows[id := Written(rows[id], claim)]; }
    }

    /** `_finish`: callback, re-save of the claimed fields, signal. */
    method Finish(id: Id)
      requires id in rows
      modifies this`rows, this`callbacks, this`signals
      ensures rows == old(rows)[id := Finished(old(rows)[id], id in failing)]
      ensures callbacks == old(callbacks) + [id] && signals == old(signals) + [id]
    {
      var req := rows[id];
      callbacks := callbacks + [id];
      if id in failing {
        rows := rows[id := rows[id].(callbackError := true)];
        req := rows[id];
      }
      rows := rows[id := rows[id].(status := req.status, decidedBy := req.decidedBy, decidedAt := req.decidedAt,
                                   note := req.note, callbackError := req.callbackError)];
      signals := signals + [id];
    }

    /** `decide`, with the caller's possibly stale `req`. */
    method Decide(id: Id, req: Row, actor: Actor, approved: bool, note: string, hook: Hook) returns (outcome: Outcome)
      requires Valid() && id in rows
      modifies this`rows, this`callbacks, this`signals
      ensures Valid()
      ensures IsDecide(policy, assignees[id], failing, now, id, req, actor, approved, note, hook,
                       old(rows), outcome, rows)
      ensures callbacks == old(callbacks) + Ran(old(rows), rows, id)
      ensures signals == old(signals) + Ran(old(rows), rows, id)
    {
      CanDecideMeansEligible(policy, actor, req, assignees[id], hook);
      if Overdue(req, now) {
        var won := Claim(id, Expiry(now));
        if won { Finish(id); }
        return NotPending;
      }
      if !req.status.Pending? { return NotPending; }
      if !CanDecide(policy, actor, req, assignees[id], hook) { return NotEligible; }
      var won := Claim(id, Decision(if approved then Approved else Rejected, actor.pk, now, note));
      if !won { return NotPending; }
      Finish(id);
      outcome := Settled;
    }

    /** `cancel`: no overdue check, so an unswept overdue request can still be withdrawn. */
    method Cancel(id: Id, req: Row, actor: Actor, note: string) returns (outcome: Outcome)
      requires Valid() && id in rows
      modifies this`rows, this`callbacks, this`signals
      ensures Valid()
      ensures IsCancel(failing, now, id, req, actor, note, old(rows), outcome, rows)
      ensures callbacks == old(callbacks) + Ran(old(rows), rows, id)
      ensures signals == old(signals) + Ran(old(rows), rows, id)
    {
      if !CanCancel(actor, req) { return NotEligible; }
      var won := Claim(id, Decision(Canceled, actor.pk, now, note));
      if !won { return NotPending; }
      Finish(id);
      outcome := Settled;
    }

    /** The overdue rows of the scope, `ORDER BY expires_at`; ties in any order. */
    method OverdueInOrder(scope: set<Id>) returns (ids: seq<Id>)
      ensures Distinct(ids) && ToSet(ids) == ScopedOverdue(rows, scope, now)
      ensures forall i, j :: 0 <= i < j < |ids| ==> Deadline(rows, ids[i]) <= Deadline(rows, ids[j])
    {
      var pool := ScopedOverdue(rows, scope, now);
      ids := [];
      while pool != {}
        invariant Distinct(ids) && ToSet(ids) !! pool && ToSet(ids) + pool == ScopedOverdue(rows, scope, now)
        invariant forall i, j :: 0 <= i < j < |ids| ==> Deadline(rows, ids[i]) <= Deadline(rows, ids[j])
        invariant forall i, id :: 0 <= i < |ids| && id in pool ==> Deadline(rows, ids[i]) <= Deadline(rows, id)
        decreases pool
      {
        var first := Earliest(rows, pool);
        AppendKeepsDistinct(ids, first);
        ids, pool := ids + [first], pool - {first};
      }
    }

    /** The loop of `mark_expired`: one conditional UPDATE per id, finishing each row it won. */
    method ExpireEach(ids: seq<Id>) returns (expired: nat)
      requires Valid() && Distinct(ids)
      requires forall id :: id in ids ==> id in rows && rows[id].status.Pending?
      modifies this`rows, this`callbacks, this`signals
      ensures Valid() && expired == |ids|
      ensures rows == Swept(old(rows), ToSet(ids), now, failing)
      ensures callbacks == old(callbacks) + ids && signals == old(signals) + ids
    {
      expired := 0;
      assert ToSet(ids[..0]) == {};
      for n := 0 to |ids|
        invariant rows == Swept(old(rows), ToSet(ids[..n]), now, failing)
        invariant callbacks == old(callbacks) + ids[..n] && signals == old(signals) + ids[..n]
        invariant expired == n
      {
        var id := ids[n];
        assert id in ids && id !in ids[..n] && ids[..n + 1] == ids[..n] + [id];
        SweepOneMore(old(rows), ids[..n], id, now, failing);
        var won := Claim(id, Expiry(now));
        if won {
          expired := expired + 1;
          Finish(id);
        }
      }
      assert ids[..|ids|] == ids;
    }

    /** `mark_expired`: one look at the overdue rows, then the loop over the ids it picked. */
    method MarkExpired(scope: set<Id>, limit: Option<int>) returns (expired: nat, truncated: bool, ghost batch: seq<Id>)
      requires Valid()
      modifies this`rows, this`callbacks, this`signals
      ensures Valid()
      ensures IsSweep(failing, now, scope, limit, old(rows), batch, rows) && expired == |batch|
      ensures truncated <==> limit.Some? && 0 <= limit.value < |ScopedOverdue(old(rows), scope, now)|
      ensures callbacks == old(callbacks) + batch && signals == old(signals) + batch
    {
      var ordered := OverdueInOrder(scope);
      DistinctSize(ordered);
      truncated := limit.Some? && 0 <= limit.value < |ordered|;
      var ids := if truncated then ordered[..limit.value] else ordered;
      PrefixIsBatch(rows, scope, now, limit, ordered, ids);
      assert forall id :: id in ids ==> id in ToSet(ids);
      expired := ExpireEach(ids);
      batch := ids;
    }
  }

  method Earliest(rows: map<Id, Row>, pool: set<Id>) returns (first: Id)
    requires pool != {}
    ensures first in pool && forall id :: id in pool ==> Deadline(rows, first) <= Deadline(rows, id)
  {
    first :| first in pool;
    var todo := pool - {first};
    while todo != {}
      invariant first in pool && todo <= pool
      invariant forall id :: id in pool ==> id in todo || Deadline(rows, first) <= Deadline(rows, id)
      decreases todo
    {
      var id :| id in todo;
      if Deadline(rows, id) < Deadline(rows, first) { first := id; }
      todo := todo - {id};
    }
  }

  lemma AppendKeepsDistinct(ids: seq<Id>, id: Id)
    requires Distinct(ids) && id !in ids
    ensures Distinct(ids + [id]) && ToSet(ids + [id]) == ToSet(ids) + {id}
  {
  }

  /** A prefix of the ordered backlog, as long as the limit allows, is a legitimate batch. */
  lemma PrefixIsBatch(rows: map<Id, Row>, scope: set<Id>, now: int, limit: Option<int>, ordered: seq<Id>, ids: seq<Id>)
    requires Distinct(ordered) && ToSet(ordered) == ScopedOverdue(rows, scope, now)
    requires |ordered| == |ScopedOverdue(rows, scope, now)|
    requires forall i, j :: 0 <= i < j < |ordered| ==> Deadline(rows, ordered[i]) <= Deadline(rows, ordered[j])
    requires ids == ordered[..BatchSize(limit, |ordered|)]
    ensures IsSweepBatch(rows, scope, now, limit, ids)
  {
    forall id, taken | id in ScopedOverdue(rows, scope, now) && id !in ids && taken in ids
      ensures Deadline(rows, taken) <= Deadline(rows, id)
    {
      assert id in ToSet(ordered);
      var j :| 0 <= j < |ordered| && ordered[j] == id;
      var i :| 0 <= i < |ids| && ids[i] == taken;
      assert forall k :: 0 <= k < |ids| ==> ids[k] == ordered[k] && ids[k] in ids;
    }
    forall id | id in ToSet(ids) ensures id in ToSet(ordered) { }
  }

  lemma SweepOneMore(rows: map<Id, Row>, done: seq<Id>, id: Id, now: int, failing: set<Id>)
    requires id in rows && id !in done
    ensures var sofar := Swept(rows, ToSet(done), now, failing);
            Swept(rows, ToSet(done + [id]), now, failing)
            == sofar[id := Finished(Written(sofar[id], Expiry(now)), id in failing)]
  {
    assert ToSet(done + [id]) == ToSet(done) + {id};
  }
}
