/** The interleaved machine of `ApprovalRaces`, left to one worker, against the calls of `ApprovalStore`. */
module ApprovalAlone {
  import opened Common
  import opened Approvals
  import opened ApprovalStore
  import opened ApprovalRaces

  // ---- one row claimed and finished ----

  /** From the conditional UPDATE to the decided signal, then `more`. */
  function Finishing(w: nat, raised: bool, more: seq<Step>): seq<Step> {
    [Update(w)] + ([Refresh(w)] + ([Callback(w, raised)] + ([Save(w)] + ([Signal(w)] + more))))
  }

  /** The world after one settled row. */
  function Settling(s: World, w: nat, id: Id, claim: Claim, rest: Rest, raised: bool): World
    requires id in s.rows
  {
    Goto(s.(rows := s.rows[id := Finished(Written(s.rows[id], claim), raised)], winner := s.winner[id := w],
            callbacks := s.callbacks + multiset{id}, signals := s.signals + multiset{id}), w, After(rest))
  }

  lemma RunStep(s: World, step: Step, more: seq<Step>)
    ensures Run(s, [step] + more) == Run(Next(s, step), more)
  {
    assert ([step] + more)[1..] == more;
  }

  lemma StepTo(s: World, step: Step, s': World, more: seq<Step>)
    requires Next(s, step) == s'
    ensures Run(s, [step] + more) == Run(s', more)
  {
    RunStep(s, step, more);
  }

  lemma UpdateNext(s: World, w: nat, id: Id, claim: Claim, rest: Rest, s': World)
    requires w in s.workers && s.workers[w] == Claiming(id, claim, rest) && s' == DoUpdate(s, w, id, claim, rest)
    ensures Next(s, Update(w)) == s'
  {
  }

  lemma RefreshNext(s: World, w: nat, id: Id, rest: Rest, s': World)
    requires w in s.workers && s.workers[w] == Won(id, rest) && id in s.rows
    requires s' == Goto(s, w, Refreshed(id, s.rows[id], rest))
    ensures Next(s, Refresh(w)) == s'
  {
  }

  lemma CallbackNext(s: World, w: nat, id: Id, req: Row, rest: Rest, raised: bool, s': World)
    requires w in s.workers && s.workers[w] == Refreshed(id, req, rest) && id in s.rows
    requires s' == DoCallback(s, w, id, req, rest, raised)
    ensures Next(s, Callback(w, raised)) == s'
  {
  }

  lemma SaveNext(s: World, w: nat, id: Id, req: Row, rest: Rest, s': World)
    requires w in s.workers && s.workers[w] == CalledBack(id, req, rest) && id in s.rows
    requires s' == DoSave(s, w, id, req, rest)
    ensures Next(s, Save(w)) == s'
  {
  }

  lemma SignalNext(s: World, w: nat, id: Id, rest: Rest, s': World)
    requires w in s.workers && s.workers[w] == Saved(id, rest) && s' == DoSignal(s, w, id, rest)
    ensures Next(s, Signal(w)) == s'
  {
  }

  /** The claim and the refreshed snapshot. */
  lemma ClaimSteps(s: World, w: nat, id: Id, claim: Claim, rest: Rest, s1: World, s2: World, more: seq<Step>)
    requires w in s.workers && s.workers[w] == Claiming(id, claim, rest) && id in s.rows && s.rows[id].status.Pending?
    requires s1 == DoUpdate(s, w, id, claim, rest)
    requires s2 == Goto(s1, w, Refreshed(id, Written(s.rows[id], claim), rest))
    ensures Run(s, [Update(w)] + ([Refresh(w)] + more)) == Run(s2, more)
  {
    UpdateNext(s, w, id, claim, rest, s1);
    RefreshNext(s1, w, id, rest, s2);
    StepTo(s, Update(w), s1, [Refresh(w)] + more);
    StepTo(s1, Refresh(w), s2, more);
  }

  /** Callback, save and signal. */
  lemma LastSteps(s: World, w: nat, id: Id, req: Row, rest: Rest, raised: bool,
                  s3: World, s4: World, s5: World, more: seq<Step>)
    requires w in s.workers && s.workers[w] == Refreshed(id, req, rest) && id in s.rows && s.rows[id] == req
    requires s3 == DoCallback(s, w, id, req, rest, raised)
    requires s4 == DoSave(s3, w, id, Finished(req, raised), rest)
    requires s5 == DoSignal(s4, w, id, rest)
    ensures Run(s, [Callback(w, raised)] + ([Save(w)] + ([Signal(w)] + more))) == Run(s5, more)
  {
    CallbackNext(s, w, id, req, rest, raised, s3);
    SaveNext(s3, w, id, Finished(req, raised), rest, s4);
    SignalNext(s4, w, id, rest, s5);
    StepTo(s, Callback(w, raised), s3, [Save(w)] + ([Signal(w)] + more));
    StepTo(s3, Save(w), s4, [Signal(w)] + more);
    StepTo(s4, Signal(w), s5, more);
  }

  lemma Overwritten<K, V>(m: map<K, V>, k: K, a: V, b: V)
    ensures m[k := a][k := b] == m[k := b]
  {
  }

  lemma WrittenBack<K, V>(m: map<K, V>, k: K)
    requires k in m
    ensures m[k := m[k]] == m
  {
  }

  lemma ClaimedAs(s: World, w: nat, id: Id, claim: Claim, rest: Rest, s2: World)
    requires id in s.rows && s.rows[id].status.Pending?
    requires s2 == Goto(DoUpdate(s, w, id, claim, rest), w, Refreshed(id, Written(s.rows[id], claim), rest))
    ensures s2 == Goto(s.(rows := s.rows[id := Written(s.rows[id], claim)], winner := s.winner[id := w]), w,
                       Refreshed(id, Written(s.rows[id], claim), rest))
  {
    Overwritten(s.workers, w, Won(id, rest), Refreshed(id, Written(s.rows[id], claim), rest));
  }

  lemma CalledBackAs(s: World, w: nat, id: Id, req: Row, rest: Rest, raised: bool, s3: World)
    requires id in s.rows && s.rows[id] == req && s3 == DoCallback(s, w, id, req, rest, raised)
    ensures s3 == Goto(s.(rows := s.rows[id := Finished(req, raised)], callbacks := s.callbacks + multiset{id}), w,
                       CalledBack(id, Finished(req, raised), rest))
  {
    WrittenBack(s.rows, id);
  }

  lemma SavedAs(s: World, w: nat, id: Id, req: Row, rest: Rest, s4: World)
    requires id in s.rows && s.rows[id] == req && s4 == DoSave(s, w, id, req, rest)
    ensures s4 == Goto(s, w, Saved(id, rest))
  {
    WrittenBack(s.rows, id);
    assert Resaved(req, req) == req;
  }

  /** Together they settle the row. */
  lemma FinishedWorld(s: World, w: nat, id: Id, claim: Claim, rest: Rest,
                      raised: bool, s2: World, s3: World, s4: World, s5: World)
    requires id in s.rows && s.rows[id].status.Pending?
    requires s2 == Goto(DoUpdate(s, w, id, claim, rest), w, Refreshed(id, Written(s.rows[id], claim), rest))
    requires s3 == DoCallback(s2, w, id, Written(s.rows[id], claim), rest, raised)
    requires s4 == DoSave(s3, w, id, Finished(Written(s.rows[id], claim), raised), rest)
    requires s5 == DoSignal(s4, w, id, rest)
    ensures s5 == Settling(s, w, id, claim, rest, raised)
  {
    var req := Written(s.rows[id], claim);
    ClaimedAs(s, w, id, claim, rest, s2);
    CalledBackAs(s2, w, id, req, rest, raised, s3);
    SavedAs(s3, w, id, Finished(req, raised), rest, s4);
    Overwritten(s.rows, id, req, Finished(req, raised));
    Overwritten(s.workers, w, s2.workers[w], s3.workers[w]);
    Overwritten(s.workers, w, s3.workers[w], s4.workers[w]);
    Overwritten(s.workers, w, s4.workers[w], After(rest));
  }

  lemma FinishesWon(s: World, w: nat, id: Id, claim: Claim, rest: Rest, raised: bool, more: seq<Step>)
    requires w in s.workers && s.workers[w] == Claiming(id, claim, rest) && id in s.rows && s.rows[id].status.Pending?
    ensures Run(s, Finishing(w, raised, more)) == Run(Settling(s, w, id, claim, rest, raised), more)
  {
    var row := Written(s.rows[id], claim);
    var s1 := DoUpdate(s, w, id, claim, rest);
    var s2 := Goto(s1, w, Refreshed(id, row, rest));
    var s3 := DoCallback(s2, w, id, row, rest, raised);
    var s4 := DoSave(s3, w, id, Finished(row, raised), rest);
    var s5 := DoSignal(s4, w, id, rest);
    ClaimSteps(s, w, id, claim, rest, s1, s2, [Callback(w, raised)] + ([Save(w)] + ([Signal(w)] + more)));
    LastSteps(s2, w, id, row, rest, raised, s3, s4, s5, more);
    FinishedWorld(s, w, id, claim, rest, raised, s2, s3, s4, s5);
  }

  /** Statements that are not the worker's next one. */
  lemma OutOfTurn(s: World, w: nat, step: Step, more: seq<Step>)
    requires w in s.workers && (s.workers[w].Ended? || s.workers[w].Sweeping?)
    requires step in {Stamp(w), Update(w), Refresh(w), Save(w), Signal(w), Callback(w, true), Callback(w, false)}
    ensures Run(s, [step] + more) == Run(s, more)
  {
    StepTo(s, step, s, more);
  }

  lemma NothingToFinish(s: World, w: nat, raised: bool, more: seq<Step>)
    requires w in s.workers && (s.workers[w].Ended? || s.workers[w].Sweeping?)
    ensures Run(s, [Refresh(w)] + ([Callback(w, raised)] + ([Save(w)] + ([Signal(w)] + more)))) == Run(s, more)
  {
    OutOfTurn(s, w, Refresh(w), [Callback(w, raised)] + ([Save(w)] + ([Signal(w)] + more)));
    OutOfTurn(s, w, Callback(w, raised), [Save(w)] + ([Signal(w)] + more));
    OutOfTurn(s, w, Save(w), [Signal(w)] + more);
    OutOfTurn(s, w, Signal(w), more);
  }

  lemma FinishesLost(s: World, w: nat, id: Id, claim: Claim, rest: Rest, raised: bool, more: seq<Step>)
    requires w in s.workers && s.workers[w] == Claiming(id, claim, rest) && id in s.rows && !s.rows[id].status.Pending?
    ensures Run(s, Finishing(w, raised, more)) == Run(Goto(s, w, After(rest)), more)
  {
    var tail := [Refresh(w)] + ([Callback(w, raised)] + ([Save(w)] + ([Signal(w)] + more)));
    var s1 := Goto(s, w, After(rest));
    UpdateNext(s, w, id, claim, rest, s1);
    StepTo(s, Update(w), s1, tail);
    NothingToFinish(s1, w, raised, more);
  }

  // ---- decide and cancel ----

  /** All that a worker holding its snapshot has left to do. */
  function Continuing(w: nat, hook: Hook, raised: bool): seq<Step> {
    [Check(w, hook)] + ([Stamp(w)] + Finishing(w, raised, []))
  }

  function NamedFor(s: World, id: Id): set<int> { if id in s.assignees then s.assignees[id] else {} }

  /** The worker took the row, and not to expire it. */
  predicate Settles(before: World, after: World, w: nat, id: Id) {
    && id !in before.winner && id in after.winner && after.winner[id] == w
    && id in after.rows && !after.rows[id].status.Expired?
  }

  /** The worker is through, and has run callback and signal of what it settled. */
  ghost predicate ThroughWith(before: World, after: World, w: nat, id: Id) {
    && w in after.workers && after.workers[w].Ended?
    && after.callbacks == before.callbacks + multiset(Ran(before.rows, after.rows, id))
    && after.signals == before.signals + multiset(Ran(before.rows, after.rows, id))
  }

  /** Where a worker goes that has resolved to write this. */
  function Resolved(s: World, w: nat, id: Id, intent: Intent, raised: bool): World {
    if id in s.rows && s.rows[id].status.Pending? then Settling(s, w, id, ClaimOf(intent, s.now), Done, raised)
    else Goto(s, w, Ended)
  }

  lemma StampNext(s: World, w: nat, id: Id, intent: Intent, s': World)
    requires w in s.workers && s.workers[w] == Cleared(id, intent)
    requires s' == Goto(s, w, Claiming(id, ClaimOf(intent, s.now), Done))
    ensures Next(s, Stamp(w)) == s'
  {
  }

  lemma PassingBy(s: World, w: nat, a: Pc, b: Pc)
    ensures Goto(Goto(s, w, a), w, b) == Goto(s, w, b)
  {
  }

  lemma SettledFrom(s: World, w: nat, pc: Pc, id: Id, claim: Claim, rest: Rest, raised: bool)
    requires id in s.rows
    ensures Settling(Goto(s, w, pc), w, id, claim, rest, raised) == Settling(s, w, id, claim, rest, raised)
  {
  }

  lemma ClearedRuns(s: World, w: nat, id: Id, intent: Intent, raised: bool)
    requires w in s.workers && s.workers[w] == Cleared(id, intent) && id in s.rows
    ensures Run(s, [Stamp(w)] + Finishing(w, raised, [])) == Resolved(s, w, id, intent, raised)
  {
    var claim := ClaimOf(intent, s.now);
    var s1 := Goto(s, w, Claiming(id, claim, Done));
    StampNext(s, w, id, intent, s1);
    StepTo(s, Stamp(w), s1, Finishing(w, raised, []));
    ClaimingRuns(s, s1, w, id, claim, raised);
  }

  lemma ClaimingRuns(s: World, s1: World, w: nat, id: Id, claim: Claim, raised: bool)
    requires id in s.rows && s1 == Goto(s, w, Claiming(id, claim, Done))
    ensures Run(s1, Finishing(w, raised, []))
         == if s.rows[id].status.Pending? then Settling(s, w, id, claim, Done, raised) else Goto(s, w, Ended)
  {
    if s.rows[id].status.Pending? {
      FinishesWon(s1, w, id, claim, Done, raised, []);
      SettledFrom(s, w, Claiming(id, claim, Done), id, claim, Done, raised);
    } else {
      FinishesLost(s1, w, id, claim, Done, raised, []);
      PassingBy(s, w, Claiming(id, claim, Done), Ended);
    }
  }

  lemma EndedRuns(s: World, w: nat, raised: bool)
    requires w in s.workers && s.workers[w].Ended?
    ensures Run(s, [Stamp(w)] + Finishing(w, raised, [])) == s
  {
    OutOfTurn(s, w, Stamp(w), Finishing(w, raised, []));
    OutOfTurn(s, w, Update(w), [Refresh(w)] + ([Callback(w, raised)] + ([Save(w)] + ([Signal(w)] + []))));
    NothingToFinish(s, w, raised, []);
  }

  /** What the rest of a job comes to. */
  function JobRun(s: World, w: nat, hook: Hook, raised: bool): World
    requires w in s.workers && s.workers[w].Loaded?
  {
    var pc := s.workers[w];
    var s1 := DoCheck(s, w, pc.job, pc.id, pc.req, hook);
    if s1.workers[w].Cleared? then Resolved(s1, w, pc.id, s1.workers[w].intent, raised) else s1
  }

  lemma CheckNext(s: World, w: nat, hook: Hook, s': World)
    requires w in s.workers && s.workers[w].Loaded?
    requires s' == DoCheck(s, w, s.workers[w].job, s.workers[w].id, s.workers[w].req, hook)
    ensures Next(s, Check(w, hook)) == s'
    ensures w in s'.workers && s'.rows == s.rows
    ensures s'.workers[w].Ended? || (s'.workers[w].Cleared? && s'.workers[w].id == s.workers[w].id)
  {
  }

  lemma LoadedRuns(s: World, w: nat, hook: Hook, raised: bool)
    requires w in s.workers && s.workers[w].Loaded? && s.workers[w].id in s.rows
    ensures Run(s, Continuing(w, hook, raised)) == JobRun(s, w, hook, raised)
  {
    var pc := s.workers[w];
    var s1 := DoCheck(s, w, pc.job, pc.id, pc.req, hook);
    CheckNext(s, w, hook, s1);
    StepTo(s, Check(w, hook), s1, [Stamp(w)] + Finishing(w, raised, []));
    if s1.workers[w].Cleared? {
      ClearedRuns(s1, w, pc.id, s1.workers[w].intent, raised);
    } else {
      EndedRuns(s1, w, raised);
    }
  }

  /** What a resolved claim does to the tables. */
  lemma ResolvedEffect(s: World, w: nat, id: Id, intent: Intent, raised: bool)
    requires id in s.rows && (id in s.winner <==> !s.rows[id].status.Pending?)
    requires intent.ToSettle? ==> intent.status in {Approved, Rejected, Canceled}
    ensures var s' := Resolved(s, w, id, intent, raised);
            && s'.rows == (if s.rows[id].status.Pending?
                           then s.rows[id := Finished(Written(s.rows[id], ClaimOf(intent, s.now)), raised)] else s.rows)
            && (Settles(s, s', w, id) <==> s.rows[id].status.Pending? && intent.ToSettle?)
            && ThroughWith(s, s', w, id)
  {
  }

  lemma GivenUp(s: World, w: nat, id: Id)
    requires id in s.rows && (id in s.winner <==> !s.rows[id].status.Pending?)
    ensures !Settles(s, Goto(s, w, Ended), w, id) && ThroughWith(s, Goto(s, w, Ended), w, id)
  {
  }

  /** What a job comes to is what its intent does, if it has one. */
  ghost predicate IsRunOf(s: World, w: nat, id: Id, intent: Option<Intent>, raised: bool, s': World)
    requires id in s.rows
  {
    match intent
    case None => s'.rows == s.rows && !Settles(s, s', w, id) && ThroughWith(s, s', w, id)
    case Some(i) =>
      && s'.rows == (if s.rows[id].status.Pending?
                     then s.rows[id := Finished(Written(s.rows[id], ClaimOf(i, s.now)), raised)] else s.rows)
      && (Settles(s, s', w, id) <==> s.rows[id].status.Pending? && i.ToSettle?)
      && ThroughWith(s, s', w, id)
  }

  function IntentOf(pc: Pc): Option<Intent> { if pc.Cleared? then Some(pc.intent) else None }

  /** A positive check leaves a record, and changes nothing else that a run's effect is told by. */
  lemma CheckLeaves(s: World, w: nat, job: Job, id: Id, req: Row, hook: Hook, s1: World)
    requires w in s.workers && s1 == DoCheck(s, w, job, id, req, hook)
    ensures w in s1.workers && s1.rows == s.rows && s1.winner == s.winner && s1.now == s.now
    ensures s1.callbacks == s.callbacks && s1.signals == s.signals
    ensures s1.workers[w].Ended? ==> s1 == Goto(s, w, Ended)
    ensures s1.workers[w].Cleared? && s1.workers[w].intent.ToSettle? ==>
            s1.workers[w].intent.status in {Approved, Rejected, Canceled}
  {
  }

  lemma EffectSinceCheck(s: World, s1: World, w: nat, id: Id, intent: Intent, raised: bool, s': World)
    requires id in s.rows && s1.rows == s.rows && s1.winner == s.winner && s1.now == s.now
    requires s1.callbacks == s.callbacks && s1.signals == s.signals
    requires IsRunOf(s1, w, id, Some(intent), raised, s')
    ensures IsRunOf(s, w, id, Some(intent), raised, s')
  {
  }

  lemma JobEffect(s: World, s1: World, w: nat, id: Id, raised: bool, hook: Hook)
    requires w in s.workers && s.workers[w].Loaded? && id == s.workers[w].id && id in s.rows
    requires id in s.winner <==> !s.rows[id].status.Pending?
    requires s1 == DoCheck(s, w, s.workers[w].job, id, s.workers[w].req, hook)
    ensures w in s1.workers && IsRunOf(s, w, id, IntentOf(s1.workers[w]), raised, JobRun(s, w, hook, raised))
  {
    CheckNext(s, w, hook, s1);
    CheckLeaves(s, w, s.workers[w].job, id, s.workers[w].req, hook, s1);
    if s1.workers[w].Cleared? {
      var intent := s1.workers[w].intent;
      ResolvedEffect(s1, w, id, intent, raised);
      EffectSinceCheck(s, s1, w, id, intent, raised, Resolved(s1, w, id, intent, raised));
    } else {
      GivenUp(s, w, id);
    }
  }

  lemma LoadedRowOnce(s: World, w: nat)
    requires Inv(s) && w in s.workers && s.workers[w].Loaded?
    ensures var id := s.workers[w].id; id in s.rows && (id in s.winner <==> !s.rows[id].status.Pending?)
  {
    assert WorkerSound(s, w);
    assert RowOnce(s, s.workers[w].id);
  }

  /** A worker that holds a snapshot, in a state the machine can reach. */
  lemma AloneRuns(policy: Policy, start: int, steps: seq<Step>, w: nat,
                  hook: Hook, raised: bool, s: World, s1: World, id: Id)
    requires s == Run(Start(policy, start), steps) && w in s.workers && s.workers[w].Loaded? && id == s.workers[w].id
    requires s1 == DoCheck(s, w, s.workers[w].job, id, s.workers[w].req, hook)
    ensures id in s.rows && w in s1.workers
    ensures IsRunOf(s, w, id, IntentOf(s1.workers[w]), raised, Run(s, Continuing(w, hook, raised)))
  {
    StartInv(policy, start);
    RunKeeps(Start(policy, start), steps);
    LoadedRowOnce(s, w);
    LoadedRuns(s, w, hook, raised);
    JobEffect(s, s1, w, id, raised, hook);
  }

  /** MAIN: in every state the machine can reach, a worker that holds any snapshot of a request, fresh or stale, and is
      left to finish, writes and answers what `Table.Decide` does. */
  lemma MachineAloneIsDecide(policy: Policy, start: int, steps: seq<Step>, w: nat, id: Id, req: Row, actor: Actor,
                             approved: bool, note: string, hook: Hook, failing: set<Id>) returns (outcome: Outcome)
    requires var s := Run(Start(policy, start), steps);
             w in s.workers && s.workers[w] == Loaded(DecideJob(actor, approved, note), id, req)
    ensures var s := Run(Start(policy, start), steps);
            var s' := Run(s, Continuing(w, hook, id in failing));
            && id in s.rows
            && IsDecide(s.policy, NamedFor(s, id), failing, s.now, id, req, actor, approved, note, hook,
                        s.rows, outcome, s'.rows)
            && (outcome.Settled? <==> Settles(s, s', w, id))
            && ThroughWith(s, s', w, id)
  {
    var s := Run(Start(policy, start), steps);
    var s1 := DoCheck(s, w, DecideJob(actor, approved, note), id, req, hook);
    AloneRuns(policy, start, steps, w, hook, id in failing, s, s1, id);
    var s' := Run(s, Continuing(w, hook, id in failing));
    outcome := DecideRuns(s, w, id, req, actor, approved, note, hook, failing, s');
  }

  lemma DecideRuns(s: World, w: nat, id: Id, req: Row, actor: Actor, approved: bool, note: string,
                   hook: Hook, failing: set<Id>, s': World) returns (outcome: Outcome)
    requires id in s.rows
    requires IsRunOf(s, w, id,
                     IntentOf(DoCheck(s, w, DecideJob(actor, approved, note), id, req, hook).workers[w]),
                     id in failing, s')
    ensures IsDecide(s.policy, NamedFor(s, id), failing, s.now, id, req, actor, approved, note, hook,
                     s.rows, outcome, s'.rows)
    ensures outcome.Settled? <==> Settles(s, s', w, id)
    ensures ThroughWith(s, s', w, id)
  {
    CanDecideMeansEligible(s.policy, actor, req, NamedFor(s, id), hook);
    if Overdue(req, s.now) { outcome := NotPending; }
    else if !CanDecide(s.policy, actor, req, NamedFor(s, id), hook) {
      outcome := if req.status.Pending? then NotEligible else NotPending;
    } else {
      outcome := if s.rows[id].status.Pending? then Settled else NotPending;
    }
  }

  /** MAIN: the same for `Table.Cancel`. */
  lemma MachineAloneIsCancel(policy: Policy, start: int, steps: seq<Step>, w: nat, id: Id, req: Row,
                             actor: Actor, note: string, hook: Hook, failing: set<Id>) returns (outcome: Outcome)
    requires var s := Run(Start(policy, start), steps);
             w in s.workers && s.workers[w] == Loaded(CancelJob(actor, note), id, req)
    ensures var s := Run(Start(policy, start), steps);
            var s' := Run(s, Continuing(w, hook, id in failing));
            && id in s.rows
            && IsCancel(failing, s.now, id, req, actor, note, s.rows, outcome, s'.rows)
            && (outcome.Settled? <==> Settles(s, s', w, id))
            && ThroughWith(s, s', w, id)
  {
    var s := Run(Start(policy, start), steps);
    var s1 := DoCheck(s, w, CancelJob(actor, note), id, req, hook);
    AloneRuns(policy, start, steps, w, hook, id in failing, s, s1, id);
    var s' := Run(s, Continuing(w, hook, id in failing));
    outcome := CancelRuns(s, w, id, req, actor, note, hook, failing, s');
  }

  lemma CancelRuns(s: World, w: nat, id: Id, req: Row, actor: Actor, note: string,
                   hook: Hook, failing: set<Id>, s': World) returns (outcome: Outcome)
    requires id in s.rows
    requires IsRunOf(s, w, id,
                     IntentOf(DoCheck(s, w, CancelJob(actor, note), id, req, hook).workers[w]),
                     id in failing, s')
    ensures IsCancel(failing, s.now, id, req, actor, note, s.rows, outcome, s'.rows)
    ensures outcome.Settled? <==> Settles(s, s', w, id)
    ensures ThroughWith(s, s', w, id)
  {
    outcome := if !CanCancel(actor, req) then NotEligible
               else if s.rows[id].status.Pending? then Settled
               else NotPending;
  }

  // ---- sweeps ----

  /** The loop over the ids a sweep picked. */
  function Looping(w: nat, ids: seq<Id>, failing: set<Id>): seq<Step> {
    if ids == [] then [NextId(w)] + []
    else [NextId(w)] + Finishing(w, ids[0] in failing, Looping(w, ids[1..], failing))
  }

  /** The world after a whole sweep. */
  ghost predicate SweptWorld(before: World, after: World, w: nat, at: int, ids: seq<Id>, failing: set<Id>) {
    && after.rows == Swept(before.rows, ToSet(ids), at, failing)
    && after.callbacks == before.callbacks + multiset(ids) && after.signals == before.signals + multiset(ids)
    && w in after.workers && after.workers[w].Ended?
  }

  lemma {:induction false} LoopRuns(s: World, w: nat, at: int, ids: seq<Id>, failing: set<Id>)
    requires w in s.workers && s.workers[w] == Sweeping(Sweep(at, ids)) && Distinct(ids)
    requires forall id :: id in ids ==> id in s.rows && s.rows[id].status.Pending?
    ensures SweptWorld(s, Run(s, Looping(w, ids, failing)), w, at, ids, failing)
    decreases |ids|
  {
    if ids == [] {
      StepTo(s, NextId(w), Goto(s, w, Ended), []);
    } else {
      var id, more := ids[0], ids[1..];
      var s2 := Settling(s, w, id, Expiry(at), Sweep(at, more), id in failing);
      assert ids == [id] + more;
      FirstId(s, w, at, id, more, id in failing, Looping(w, more, failing));
      LoopRuns(s2, w, at, more, failing);
      OneMoreSwept(s.rows, s2.rows, ids, at, failing);
    }
  }

  lemma FirstId(s: World, w: nat, at: int, id: Id, todo: seq<Id>, raised: bool, more: seq<Step>)
    requires w in s.workers && s.workers[w] == Sweeping(Sweep(at, [id] + todo))
    requires id in s.rows && s.rows[id].status.Pending?
    ensures Run(s, [NextId(w)] + Finishing(w, raised, more))
         == Run(Settling(s, w, id, Expiry(at), Sweep(at, todo), raised), more)
  {
    var pc := Claiming(id, Expiry(at), Sweep(at, todo));
    assert ([id] + todo)[1..] == todo;
    StepTo(s, NextId(w), Goto(s, w, pc), Finishing(w, raised, more));
    FinishesWon(Goto(s, w, pc), w, id, Expiry(at), Sweep(at, todo), raised, more);
    SettledFrom(s, w, pc, id, Expiry(at), Sweep(at, todo), raised);
  }

  lemma OneMoreSwept(rows: map<Id, Row>, rows': map<Id, Row>, ids: seq<Id>, at: int, failing: set<Id>)
    requires ids != [] && Distinct(ids) && ids[0] in rows
    requires rows' == rows[ids[0] := Finished(Written(rows[ids[0]], Expiry(at)), ids[0] in failing)]
    ensures Swept(rows', ToSet(ids[1..]), at, failing) == Swept(rows, ToSet(ids), at, failing)
    ensures multiset(ids) == multiset{ids[0]} + multiset(ids[1..])
  {
    assert ids == [ids[0]] + ids[1..];
    assert rows' == Swept(rows, {ids[0]}, at, failing);
    assert ToSet(ids) == {ids[0]} + ToSet(ids[1..]);
    SweepTwice(rows, {ids[0]}, ToSet(ids[1..]), at, failing);
  }

  /** MAIN: from every state, a sweep that runs alone over a batch it may pick leaves the table of
      `Table.MarkExpired`. */
  lemma MachineAloneIsMarkExpired(s: World, w: nat, scope: set<Id>, limit: Option<int>,
                                  batch: seq<Id>, failing: set<Id>)
    requires w !in s.workers && IsSweepBatch(s.rows, scope, s.now, limit, batch)
    ensures var s' := Run(s, [Query(w, s.now, batch)] + Looping(w, batch, failing));
            && IsSweep(failing, s.now, scope, limit, s.rows, batch, s'.rows)
            && SweptWorld(s, s', w, s.now, batch, failing)
  {
    forall id | id in batch ensures id in s.rows && Overdue(s.rows[id], s.now) { assert id in ToSet(batch); }
    var s1 := Goto(s, w, Sweeping(Sweep(s.now, batch)));
    StepTo(s, Query(w, s.now, batch), s1, Looping(w, batch, failing));
    LoopRuns(s1, w, s.now, batch, failing);
  }
}
