/** Approval decisions under races: any number of workers, each holding a snapshot it read earlier,
    interleave the database statements of `decide`, `cancel` and `mark_expired`. */
module ApprovalRaces {
  import opened Common
  import opened Approvals

  datatype Job =
    | DecideJob(actor: Actor, approved: bool, note: string)
    | CancelJob(actor: Actor, note: string)

  /** What a worker has resolved to write, before it reads the clock for `decided_at`. */
  datatype Intent =
    | ToExpire
    | ToSettle(status: Status, actor: Actor, note: string)

  /** A sweep carries the instant of its query and the ids still to process. */
  datatype Rest = Done | Sweep(at: int, todo: seq<Id>)

  /** Between two statements. */
  datatype Pc =
    | Loaded(job: Job, id: Id, req: Row)
    | Cleared(id: Id, intent: Intent)
    | Claiming(id: Id, claim: Claim, rest: Rest)
    | Won(id: Id, rest: Rest)
    | Refreshed(id: Id, req: Row, rest: Rest)
    | CalledBack(id: Id, req: Row, rest: Rest)
    | Saved(id: Id, rest: Rest)
    | Sweeping(rest: Rest)
    | Ended

  /** A job that was allowed, and the facts its check was shown. */
  datatype Grant = Grant(id: Id, job: Job, requestedBy: Option<int>, assignees: set<int>)

  /** `winner`, `callbacks`, `signals` and `grants` are history: who claimed each row, how often its
      callback and its decided signal ran, and every positive eligibility check. */
  datatype World = World(policy: Policy,
                         now: int,
                         rows: map<Id, Row>,
                         assignees: map<Id, set<int>>,
                         workers: map<nat, Pc>,
                         winner: map<Id, nat>,
                         callbacks: multiset<Id>,
                         signals: multiset<Id>,
                         grants: set<Grant>)

  datatype Step =
    | Tick(elapsed: nat)
    | FileRequest(id: Id, requestedBy: Option<int>, expiresAt: Option<int>, named: set<int>)
    | Reassign(id: Id, named: set<int>)
    | Load(w: nat, id: Id, job: Job)
    | Query(w: nat, at: int, ids: seq<Id>)
    | Check(w: nat, hook: Hook)
    | Stamp(w: nat)
    | Update(w: nat)
    | Refresh(w: nat)
    | Callback(w: nat, raised: bool)
    | Save(w: nat)
    | Signal(w: nat)
    | NextId(w: nat)

  function Start(policy: Policy, now: int): World {
    World(policy, now, map[], map[], map[], map[], multiset{}, multiset{}, {})
  }

  function Goto(s: World, w: nat, pc: Pc): World { s.(workers := s.workers[w := pc]) }

  /** The checks of `decide` and `cancel`, all made on the snapshot; only the assignees are queried live. */
  function DoCheck(s: World, w: nat, job: Job, id: Id, req: Row, hook: Hook): World {
    var live := if id in s.assignees then s.assignees[id] else {};
    match job
    case DecideJob(actor, approved, note) =>
      if Overdue(req, s.now) then Goto(s, w, Cleared(id, ToExpire))
      else if CanDecide(s.policy, actor, req, live, hook) then
        Goto(s.(grants := s.grants + {Grant(id, job, req.requestedBy, live)}), w,
             Cleared(id, ToSettle(if approved then Approved else Rejected, actor, note)))
      else Goto(s, w, Ended)
    case CancelJob(actor, note) =>
      if CanCancel(actor, req) then
        Goto(s.(grants := s.grants + {Grant(id, job, req.requestedBy, live)}), w,
             Cleared(id, ToSettle(Canceled, actor, note)))
      else Goto(s, w, Ended)
  }

  function ClaimOf(intent: Intent, now: int): Claim {
    match intent
    case ToExpire => Expiry(now)
    case ToSettle(status, actor, note) => Decision(status, actor.pk, now, note)
  }

  function After(rest: Rest): Pc { if rest.Done? then Ended else Sweeping(rest) }

  /** `UPDATE ... WHERE pk = id AND status = 'pending'`. */
  function DoUpdate(s: World, w: nat, id: Id, claim: Claim, rest: Rest): World {
    if id in s.rows && s.rows[id].status.Pending? then
      Goto(s.(rows := s.rows[id := Written(s.rows[id], claim)], winner := s.winner[id := w]), w, Won(id, rest))
    else Goto(s, w, After(rest))
  }

  function DoCallback(s: World, w: nat, id: Id, req: Row, rest: Rest, raised: bool): World
    requires id in s.rows
  {
    var s' := s.(callbacks := s.callbacks + multiset{id});
    if raised then
      var row := s.rows[id].(callbackError := true);
      Goto(s'.(rows := s.rows[id := row]), w, CalledBack(id, row, rest))
    else Goto(s', w, CalledBack(id, req, rest))
  }

  function Resaved(row: Row, req: Row): Row {
    row.(status := req.status, decidedBy := req.decidedBy, decidedAt := req.decidedAt,
         note := req.note, callbackError := req.callbackError)
  }

  function DoSave(s: World, w: nat, id: Id, req: Row, rest: Rest): World
    requires id in s.rows
  {
    Goto(s.(rows := s.rows[id := Resaved(s.rows[id], req)]), w, Saved(id, rest))
  }

  function DoSignal(s: World, w: nat, id: Id, rest: Rest): World {
    Goto(s.(signals := s.signals + multiset{id}), w, After(rest))
  }

  function WorkerStep(s: World, w: nat, step: Step): World
    requires w in s.workers
  {
    var pc := s.workers[w];
    if step.Check? && pc.Loaded? then DoCheck(s, w, pc.job, pc.id, pc.req, step.hook)
    else if step.Stamp? && pc.Cleared? then Goto(s, w, Claiming(pc.id, ClaimOf(pc.intent, s.now), Done))
    else if step.Update? && pc.Claiming? then DoUpdate(s, w, pc.id, pc.claim, pc.rest)
    else if step.Refresh? && pc.Won? && pc.id in s.rows then Goto(s, w, Refreshed(pc.id, s.rows[pc.id], pc.rest))
    else if step.Callback? && pc.Refreshed? && pc.id in s.rows then
      DoCallback(s, w, pc.id, pc.req, pc.rest, step.raised)
    else if step.Save? && pc.CalledBack? && pc.id in s.rows then DoSave(s, w, pc.id, pc.req, pc.rest)
    else if step.Signal? && pc.Saved? then DoSignal(s, w, pc.id, pc.rest)
    else if step.NextId? && pc.Sweeping? && pc.rest.Sweep? then DoNextId(s, w, pc.rest.at, pc.rest.todo)
    else s
  }

  function DoNextId(s: World, w: nat, at: int, todo: seq<Id>): World {
    if todo == [] then Goto(s, w, Ended) else Goto(s, w, Claiming(todo[0], Expiry(at), Sweep(at, todo[1..])))
  }

  /** One statement of one worker, a filed or reassigned request, or time passing.  A statement that is
      not the worker's next one changes nothing. */
  function Next(s: World, step: Step): World {
    match step
    case Tick(elapsed) => s.(now := s.now + elapsed)
    case FileRequest(id, requestedBy, expiresAt, named) =>
      if id in s.rows then s
      else s.(rows := s.rows[id := Row(requestedBy, expiresAt, Pending, None, None, "", false)],
              assignees := s.assignees[id := named])
    case Reassign(id, named) => if id in s.rows then s.(assignees := s.assignees[id := named]) else s
    case Load(w, id, job) => if w !in s.workers && id in s.rows then Goto(s, w, Loaded(job, id, s.rows[id])) else s
    case Query(w, at, ids) =>
      if w !in s.workers && at <= s.now && forall id <- ids :: id in s.rows && Overdue(s.rows[id], at)
      then Goto(s, w, Sweeping(Sweep(at, ids))) else s
    case _ => if step.w in s.workers then WorkerStep(s, step.w, step) else s
  }

  function Run(s: World, steps: seq<Step>): World
    decreases |steps|
  {
    if steps == [] then s else Run(Next(s, steps[0]), steps[1..])
  }

  // ---- the invariant ----

  /** The worker has claimed this row and is not done finishing it. */
  predicate Owns(pc: Pc, id: Id) {
    (pc.Won? || pc.Refreshed? || pc.CalledBack? || pc.Saved?) && pc.id == id
  }

  function CallbacksDue(pc: Pc, id: Id): nat { if Owns(pc, id) && (pc.Won? || pc.Refreshed?) then 0 else 1 }

  function SignalsDue(pc: Pc, id: Id): nat { if Owns(pc, id) then 0 else 1 }

  /** A pending row is untouched; a settled one has exactly one winner, and how far that winner has
      got says how often callback and signal ran. */
  ghost predicate RowOnce(s: World, id: Id)
    requires id in s.rows
  {
    if s.rows[id].status.Pending? then
      && s.rows[id].decidedBy.None? && s.rows[id].decidedAt.None? && s.rows[id].note == ""
      && !s.rows[id].callbackError
      && id !in s.winner && s.callbacks[id] == 0 && s.signals[id] == 0
    else
      && id in s.winner && s.winner[id] in s.workers
      && s.callbacks[id] == CallbacksDue(s.workers[s.winner[id]], id)
      && s.signals[id] == SignalsDue(s.workers[s.winner[id]], id)
  }

  predicate SameDecision(a: Row, b: Row) {
    a.status == b.status && a.decidedBy == b.decidedBy && a.decidedAt == b.decidedAt && a.note == b.note
  }

  /** What a job asks for. */
  predicate Asks(job: Job, status: Status, decider: Option<int>, note: string) {
    && decider == job.actor.pk && note == job.note
    && match job
       case DecideJob(_, approved, _) => if approved then status == Approved else status == Rejected
       case CancelJob(_, _) => status == Canceled
  }

  predicate Granted(s: World, id: Id, status: Status, decider: Option<int>, note: string) {
    status in {Approved, Rejected, Canceled} ==>
      exists g <- s.grants :: g.id == id && Asks(g.job, status, decider, note)
  }

  predicate SoundClaim(s: World, id: Id, claim: Claim)
    requires id in s.rows
  {
    match claim
    case Expiry(at) => s.rows[id].expiresAt.Some? && s.rows[id].expiresAt.value <= at
    case Decision(status, decider, _, note) =>
      status in {Approved, Rejected, Canceled} && Granted(s, id, status, decider, note)
  }

  predicate SoundRest(s: World, rest: Rest) {
    rest.Sweep? ==> forall id <- rest.todo ::
      id in s.rows && s.rows[id].expiresAt.Some? && s.rows[id].expiresAt.value <= rest.at
  }

  ghost predicate WorkerSound(s: World, w: nat)
    requires w in s.workers
  {
    match s.workers[w]
    case Loaded(_, id, req) =>
      id in s.rows && req.requestedBy == s.rows[id].requestedBy && req.expiresAt == s.rows[id].expiresAt
    case Cleared(id, intent) => id in s.rows && SoundClaim(s, id, ClaimOf(intent, s.now))
    case Claiming(id, claim, rest) => id in s.rows && SoundClaim(s, id, claim) && SoundRest(s, rest)
    case Won(id, rest) => Claimed(s, w, id) && SoundRest(s, rest)
    case Refreshed(id, req, rest) => Claimed(s, w, id) && SameDecision(req, s.rows[id]) && SoundRest(s, rest)
    case CalledBack(id, req, rest) => Claimed(s, w, id) && SameDecision(req, s.rows[id]) && SoundRest(s, rest)
    case Saved(id, rest) => Claimed(s, w, id) && SoundRest(s, rest)
    case Sweeping(rest) => SoundRest(s, rest)
    case Ended => true
  }

  ghost predicate Claimed(s: World, w: nat, id: Id) {
    id in s.rows && !s.rows[id].status.Pending? && id in s.winner && s.winner[id] == w
  }

  /** The decided columns of a settled row tell a lawful story. */
  ghost predicate RowLawful(s: World, id: Id)
    requires id in s.rows
  {
    var row := s.rows[id];
    && Granted(s, id, row.status, row.decidedBy, row.note)
    && (!row.status.Pending? ==> row.decidedAt.Some?)
    && (row.status.Expired? ==>
      row.decidedBy.None? && row.note == "" && row.expiresAt.Some? && row.expiresAt.value <= row.decidedAt.value)
  }

  ghost predicate GrantSound(s: World, g: Grant) {
    && g.id in s.rows && g.requestedBy == s.rows[g.id].requestedBy
    && match g.job
       case DecideJob(actor, _, _) => Eligible(s.policy, actor, g.requestedBy, g.assignees)
       case CancelJob(actor, _) => actor.active && actor.pk.Some? && (actor.pk == g.requestedBy || actor.staff)
  }

  ghost predicate AllRows(s: World) {
    forall id :: id in s.rows ==> RowOnce(s, id) && RowLawful(s, id)
  }

  ghost predicate NoStrayHistory(s: World) {
    forall id :: id !in s.rows ==> s.callbacks[id] == 0 && s.signals[id] == 0 && id !in s.winner
  }

  ghost predicate AllWorkers(s: World) {
    forall w :: w in s.workers ==> WorkerSound(s, w)
  }

  ghost predicate AllGrants(s: World) {
    forall g :: g in s.grants ==> GrantSound(s, g)
  }

  ghost predicate Inv(s: World) {
    AllRows(s) && NoStrayHistory(s) && AllWorkers(s) && AllGrants(s)
  }

  // ---- what every statement keeps ----

  /** Nothing a statement does disturbs a settled row's decision, a request's own columns, who won a
      row, or the record of checks. */
  ghost predicate Extends(s: World, s': World) {
    && s.policy == s'.policy && s.now <= s'.now && s.grants <= s'.grants
    && (forall id :: id in s.rows ==>
          && id in s'.rows
          && s'.rows[id].requestedBy == s.rows[id].requestedBy && s'.rows[id].expiresAt == s.rows[id].expiresAt
          && (!s.rows[id].status.Pending? ==> SameDecision(s.rows[id], s'.rows[id])))
    && (forall id :: id in s.winner ==> id in s'.winner && s'.winner[id] == s.winner[id])
  }

  lemma ClaimStaysSound(s: World, s': World, id: Id, claim: Claim)
    requires Extends(s, s') && id in s.rows && SoundClaim(s, id, claim)
    ensures SoundClaim(s', id, claim)
  {
  }

  lemma RestStaysSound(s: World, s': World, rest: Rest)
    requires Extends(s, s') && SoundRest(s, rest)
    ensures SoundRest(s', rest)
  {
  }

  lemma ClearedStaysSound(s: World, s': World, id: Id, intent: Intent)
    requires Extends(s, s') && id in s.rows && SoundClaim(s, id, ClaimOf(intent, s.now))
    ensures SoundClaim(s', id, ClaimOf(intent, s'.now))
  {
    ClaimStaysSound(s, s', id, ClaimOf(intent, s.now));
  }

  lemma WorkerStaysSound(s: World, s': World, w: nat)
    requires Extends(s, s') && w in s.workers && w in s'.workers && s'.workers[w] == s.workers[w] && WorkerSound(s, w)
    ensures WorkerSound(s', w)
  {
    match s.workers[w]
    case Loaded(_, id, req) =>
    case Cleared(id, intent) => ClearedStaysSound(s, s', id, intent);
    case Claiming(id, claim, rest) => ClaimStaysSound(s, s', id, claim); RestStaysSound(s, s', rest);
    case Won(id, rest) => RestStaysSound(s, s', rest);
    case Refreshed(id, req, rest) => RestStaysSound(s, s', rest);
    case CalledBack(id, req, rest) => RestStaysSound(s, s', rest);
    case Saved(id, rest) => RestStaysSound(s, s', rest);
    case Sweeping(rest) => RestStaysSound(s, s', rest);
    case Ended =>
  }

  lemma GrantedStays(s: World, s': World, id: Id)
    requires Extends(s, s') && id in s.rows && RowLawful(s, id) && SameDecision(s.rows[id], s'.rows[id])
    ensures RowLawful(s', id)
  {
  }

  /** Rows, history and grants untouched in every respect the invariant reads. */
  ghost predicate SameTables(s: World, s': World) {
    && s'.policy == s.policy && s.now <= s'.now && s'.rows == s.rows && s'.winner == s.winner
    && s'.callbacks == s.callbacks && s'.signals == s.signals
  }

  /** The worker neither takes nor drops a row. */
  ghost predicate SameHoldings(s: World, w: nat, pc: Pc) {
    forall id :: id in s.winner && s.winner[id] == w ==>
      w in s.workers && CallbacksDue(pc, id) == CallbacksDue(s.workers[w], id) &&
        SignalsDue(pc, id) == SignalsDue(s.workers[w], id)
  }

  lemma OtherWorkersStaySound(s: World, s': World, w: nat)
    requires AllWorkers(s) && Extends(s, s') && s'.workers.Keys == s.workers.Keys + {w} && w in s'.workers &&
             WorkerSound(s', w)
    requires forall v :: v in s.workers && v != w ==> s'.workers[v] == s.workers[v]
    ensures AllWorkers(s')
  {
    forall v | v in s'.workers ensures WorkerSound(s', v) {
      if v != w { WorkerStaysSound(s, s', v); }
    }
  }

  lemma GrantsStaySound(s: World, s': World)
    requires AllGrants(s) && Extends(s, s') && forall g :: g in s'.grants - s.grants ==> GrantSound(s', g)
    ensures AllGrants(s')
  {
    forall g | g in s'.grants ensures GrantSound(s', g) {
      assert g in s.grants || g in s'.grants - s.grants;
    }
  }

  lemma MovedRow(s: World, s': World, w: nat, pc: Pc, id: Id)
    requires SameTables(s, s') && Extends(s, s') && s'.workers == s.workers[w := pc] && SameHoldings(s, w, pc)
    requires id in s.rows && RowOnce(s, id) && RowLawful(s, id)
    ensures RowOnce(s', id) && RowLawful(s', id)
  {
    GrantedStays(s, s', id);
  }

  /** A statement that moves only its worker on keeps the invariant if the new place is sound. */
  lemma MoveKeeps(s: World, s': World, w: nat, pc: Pc)
    requires Inv(s) && SameTables(s, s') && s'.workers == s.workers[w := pc] && s.grants <= s'.grants
    requires SameHoldings(s, w, pc) && WorkerSound(s', w)
    requires forall g :: g in s'.grants - s.grants ==> GrantSound(s', g)
    ensures Inv(s') && Extends(s, s')
  {
    assert Extends(s, s');
    forall id | id in s'.rows ensures RowOnce(s', id) && RowLawful(s', id) { MovedRow(s, s', w, pc, id); }
    OtherWorkersStaySound(s, s', w);
    GrantsStaySound(s, s');
  }

  /** Everything but one row, its log entries and its worker stays. */
  ghost predicate OnlyRow(s: World, s': World, w: nat, pc: Pc, id: Id) {
    && s'.now == s.now && s'.policy == s.policy && s'.grants == s.grants && s'.workers == s.workers[w := pc]
    && s'.rows.Keys == s.rows.Keys + {id} && s'.winner.Keys <= s.winner.Keys + {id}
    && (forall o :: o in s.rows && o != id ==> s'.rows[o] == s.rows[o])
    && (forall o :: o in s.winner && o != id ==> o in s'.winner && s'.winner[o] == s.winner[o])
    && (forall o :: o != id ==> s'.callbacks[o] == s.callbacks[o] && s'.signals[o] == s.signals[o])
    && (forall o :: o != id && o in s.winner && s.winner[o] == w ==>
          && w in s.workers
          && CallbacksDue(pc, o) == CallbacksDue(s.workers[w], o) && SignalsDue(pc, o) == SignalsDue(s.workers[w], o))
  }

  lemma OtherRowStays(s: World, s': World, w: nat, pc: Pc, id: Id, o: Id)
    requires OnlyRow(s, s', w, pc, id) && Extends(s, s') && o != id && o in s.rows && RowOnce(s, o) && RowLawful(s, o)
    requires o in s'.winner ==> o in s.winner
    ensures RowOnce(s', o) && RowLawful(s', o)
  {
    GrantedStays(s, s', o);
  }

  lemma OnlyRowKeeps(s: World, s': World, w: nat, pc: Pc, id: Id)
    requires Inv(s) && OnlyRow(s, s', w, pc, id) && Extends(s, s')
    requires id in s'.rows && RowOnce(s', id) && RowLawful(s', id) && WorkerSound(s', w)
    ensures Inv(s')
  {
    forall o | o in s'.rows ensures RowOnce(s', o) && RowLawful(s', o) {
      if o != id { OtherRowStays(s, s', w, pc, id, o); }
    }
    OtherWorkersStaySound(s, s', w);
    GrantsStaySound(s, s');
  }

  /** What OnlyRowKeeps needs of a statement. */
  ghost predicate GoodRowStep(s: World, s': World, w: nat, pc: Pc, id: Id) {
    && OnlyRow(s, s', w, pc, id) && Extends(s, s')
    && id in s'.rows && RowOnce(s', id) && RowLawful(s', id) && WorkerSound(s', w)
  }

  /** The part of the invariant one worker's statement on one row relies on. */
  ghost predicate Local(s: World, w: nat, id: Id) {
    w in s.workers && WorkerSound(s, w) && id in s.rows && RowOnce(s, id) && RowLawful(s, id)
  }

  lemma InvIsLocal(s: World, w: nat, id: Id)
    requires Inv(s) && w in s.workers && id in s.rows
    ensures Local(s, w, id)
  {
  }

  // ---- one lemma per statement ----

  lemma CheckStep(s: World, w: nat, job: Job, id: Id, req: Row, hook: Hook)
    requires w in s.workers && s.workers[w] == Loaded(job, id, req) && WorkerSound(s, w)
    ensures var s' := DoCheck(s, w, job, id, req, hook);
            && WorkerSound(s', w) && s.grants <= s'.grants && SameTables(s, s') &&
              s'.workers == s.workers[w := s'.workers[w]]
            && (s'.workers[w].Cleared? || s'.workers[w].Ended?)
            && forall g :: g in s'.grants - s.grants ==> GrantSound(s', g)
  {
    var live := if id in s.assignees then s.assignees[id] else {};
    if job.DecideJob? && !Overdue(req, s.now) && CanDecide(s.policy, job.actor, req, live, hook) {
      CanDecideMeansEligible(s.policy, job.actor, req, live, hook);
    }
    if s.workers[w].Loaded? && DoCheck(s, w, job, id, req, hook).grants != s.grants {
      assert Grant(id, job, req.requestedBy, live) in DoCheck(s, w, job, id, req, hook).grants;
    }
  }

  lemma CheckKeeps(s: World, w: nat, job: Job, id: Id, req: Row, hook: Hook)
    requires Inv(s) && w in s.workers && s.workers[w] == Loaded(job, id, req)
    ensures Inv(DoCheck(s, w, job, id, req, hook)) && Extends(s, DoCheck(s, w, job, id, req, hook))
  {
    var s' := DoCheck(s, w, job, id, req, hook);
    assert WorkerSound(s, w);
    CheckStep(s, w, job, id, req, hook);
    MoveKeeps(s, s', w, s'.workers[w]);
  }

  lemma StampKeeps(s: World, w: nat, id: Id, intent: Intent)
    requires Inv(s) && w in s.workers && s.workers[w] == Cleared(id, intent)
    ensures var s' := Goto(s, w, Claiming(id, ClaimOf(intent, s.now), Done)); Inv(s') && Extends(s, s')
  {
    assert WorkerSound(s, w);
    var s' := Goto(s, w, Claiming(id, ClaimOf(intent, s.now), Done));
    ClaimStaysSoundGoto(s, w, s'.workers[w], id, ClaimOf(intent, s.now));
    MoveKeeps(s, s', w, s'.workers[w]);
  }

  lemma ClaimStaysSoundGoto(s: World, w: nat, pc: Pc, id: Id, claim: Claim)
    requires id in s.rows && SoundClaim(s, id, claim)
    ensures SoundClaim(Goto(s, w, pc), id, claim)
  {
  }

  lemma LostUpdateKeeps(s: World, w: nat, id: Id, claim: Claim, rest: Rest)
    requires Inv(s) && w in s.workers && s.workers[w] == Claiming(id, claim, rest)
    ensures Inv(Goto(s, w, After(rest))) && Extends(s, Goto(s, w, After(rest)))
  {
    assert WorkerSound(s, w);
    MoveKeeps(s, Goto(s, w, After(rest)), w, After(rest));
  }

  lemma WonUpdateStep(s: World, w: nat, id: Id, claim: Claim, rest: Rest)
    requires Local(s, w, id) && s.workers[w] == Claiming(id, claim, rest) && s.rows[id].status.Pending?
    ensures GoodRowStep(s, DoUpdate(s, w, id, claim, rest), w, Won(id, rest), id)
  {
    var s' := DoUpdate(s, w, id, claim, rest);
    assert Extends(s, s');
    RestStaysSound(s, s', rest);
  }

  lemma WonUpdateKeeps(s: World, w: nat, id: Id, claim: Claim, rest: Rest)
    requires Inv(s) && w in s.workers && id in s.rows && s.workers[w] == Claiming(id, claim, rest) &&
             s.rows[id].status.Pending?
    ensures Inv(DoUpdate(s, w, id, claim, rest)) && Extends(s, DoUpdate(s, w, id, claim, rest))
  {
    InvIsLocal(s, w, id);
    WonUpdateStep(s, w, id, claim, rest);
    OnlyRowKeeps(s, DoUpdate(s, w, id, claim, rest), w, Won(id, rest), id);
  }

  lemma RefreshKeeps(s: World, w: nat, id: Id, rest: Rest)
    requires Inv(s) && w in s.workers && s.workers[w] == Won(id, rest) && id in s.rows
    ensures var s' := Goto(s, w, Refreshed(id, s.rows[id], rest)); Inv(s') && Extends(s, s')
  {
    assert WorkerSound(s, w);
    var s' := Goto(s, w, Refreshed(id, s.rows[id], rest));
    MoveKeeps(s, s', w, s'.workers[w]);
  }

  lemma CallbackExtends(s: World, w: nat, id: Id, req: Row, rest: Rest, raised: bool)
    requires id in s.rows
    ensures Extends(s, DoCallback(s, w, id, req, rest, raised))
  {
  }

  /** The row after its callback ran: the decision stays, and it is the only row that moved. */
  lemma CallbackRow(s: World, s': World, w: nat, id: Id, req: Row, rest: Rest, raised: bool)
    requires Local(s, w, id) && s.workers[w] == Refreshed(id, req, rest)
    requires s' == DoCallback(s, w, id, req, rest, raised)
    ensures OnlyRow(s, s', w, s'.workers[w], id)
    ensures RowOnce(s', id) && SameDecision(s.rows[id], s'.rows[id])
  {
  }

  lemma CallbackStep(s: World, w: nat, id: Id, req: Row, rest: Rest, raised: bool)
    requires Local(s, w, id) && s.workers[w] == Refreshed(id, req, rest)
    ensures var s' := DoCallback(s, w, id, req, rest, raised); GoodRowStep(s, s', w, s'.workers[w], id)
  {
    var s' := DoCallback(s, w, id, req, rest, raised);
    CallbackExtends(s, w, id, req, rest, raised);
    CallbackRow(s, s', w, id, req, rest, raised);
    RestStaysSound(s, s', rest);
    GrantedStays(s, s', id);
  }

  lemma CallbackKeeps(s: World, w: nat, id: Id, req: Row, rest: Rest, raised: bool)
    requires Inv(s) && w in s.workers && s.workers[w] == Refreshed(id, req, rest) && id in s.rows
    ensures Inv(DoCallback(s, w, id, req, rest, raised)) && Extends(s, DoCallback(s, w, id, req, rest, raised))
  {
    InvIsLocal(s, w, id);
    CallbackStep(s, w, id, req, rest, raised);
    var s' := DoCallback(s, w, id, req, rest, raised);
    OnlyRowKeeps(s, s', w, s'.workers[w], id);
  }

  /** The re-save writes back what the claim wrote: the snapshot was read after the claim. */
  lemma SaveStep(s: World, w: nat, id: Id, req: Row, rest: Rest)
    requires Local(s, w, id) && s.workers[w] == CalledBack(id, req, rest)
    ensures GoodRowStep(s, DoSave(s, w, id, req, rest), w, Saved(id, rest), id)
    ensures SameDecision(DoSave(s, w, id, req, rest).rows[id], s.rows[id])
  {
    var s' := DoSave(s, w, id, req, rest);
    assert Extends(s, s');
    RestStaysSound(s, s', rest);
    GrantedStays(s, s', id);
  }

  lemma SaveKeeps(s: World, w: nat, id: Id, req: Row, rest: Rest)
    requires Inv(s) && w in s.workers && s.workers[w] == CalledBack(id, req, rest) && id in s.rows
    ensures Inv(DoSave(s, w, id, req, rest)) && Extends(s, DoSave(s, w, id, req, rest))
  {
    InvIsLocal(s, w, id);
    SaveStep(s, w, id, req, rest);
    OnlyRowKeeps(s, DoSave(s, w, id, req, rest), w, Saved(id, rest), id);
  }

  lemma SignalStep(s: World, w: nat, id: Id, rest: Rest)
    requires Local(s, w, id) && s.workers[w] == Saved(id, rest)
    ensures GoodRowStep(s, DoSignal(s, w, id, rest), w, After(rest), id)
  {
    var s' := DoSignal(s, w, id, rest);
    assert Extends(s, s');
    RestStaysSound(s, s', rest);
    GrantedStays(s, s', id);
  }

  lemma SignalKeeps(s: World, w: nat, id: Id, rest: Rest)
    requires Inv(s) && w in s.workers && s.workers[w] == Saved(id, rest) && id in s.rows
    ensures Inv(DoSignal(s, w, id, rest)) && Extends(s, DoSignal(s, w, id, rest))
  {
    InvIsLocal(s, w, id);
    SignalStep(s, w, id, rest);
    OnlyRowKeeps(s, DoSignal(s, w, id, rest), w, After(rest), id);
  }

  lemma NextIdKeeps(s: World, w: nat, at: int, todo: seq<Id>)
    requires Inv(s) && w in s.workers && s.workers[w] == Sweeping(Sweep(at, todo))
    ensures var pc := if todo == [] then Ended else Claiming(todo[0], Expiry(at), Sweep(at, todo[1..]));
            Inv(Goto(s, w, pc)) && Extends(s, Goto(s, w, pc))
  {
    assert WorkerSound(s, w);
    var pc := if todo == [] then Ended else Claiming(todo[0], Expiry(at), Sweep(at, todo[1..]));
    if todo != [] { assert todo[0] in todo; }
    MoveKeeps(s, Goto(s, w, pc), w, pc);
  }

  lemma LoadKeeps(s: World, w: nat, id: Id, job: Job)
    requires Inv(s) && w !in s.workers && id in s.rows
    ensures var s' := Goto(s, w, Loaded(job, id, s.rows[id])); Inv(s') && Extends(s, s')
  {
    NewWorkerHoldsNothing(s, w);
    MoveKeeps(s, Goto(s, w, Loaded(job, id, s.rows[id])), w, Loaded(job, id, s.rows[id]));
  }

  lemma QueryKeeps(s: World, w: nat, at: int, ids: seq<Id>)
    requires Inv(s) && w !in s.workers && at <= s.now && forall id <- ids :: id in s.rows && Overdue(s.rows[id], at)
    ensures var s' := Goto(s, w, Sweeping(Sweep(at, ids))); Inv(s') && Extends(s, s')
  {
    NewWorkerHoldsNothing(s, w);
    MoveKeeps(s, Goto(s, w, Sweeping(Sweep(at, ids))), w, Sweeping(Sweep(at, ids)));
  }

  lemma NewWorkerHoldsNothing(s: World, w: nat)
    requires Inv(s) && w !in s.workers
    ensures forall id :: id in s.winner ==> s.winner[id] != w
  {
    forall id | id in s.winner ensures s.winner[id] != w {
      assert id in s.rows && RowOnce(s, id);
    }
  }

  lemma QuietKeeps(s: World, s': World)
    requires Inv(s) && SameTables(s, s') && s'.workers == s.workers && s'.grants == s.grants
    ensures Inv(s') && Extends(s, s')
  {
    assert Extends(s, s');
    forall id | id in s'.rows ensures RowOnce(s', id) && RowLawful(s', id) { GrantedStays(s, s', id); }
    forall w | w in s'.workers ensures WorkerSound(s', w) { WorkerStaysSound(s, s', w); }
    GrantsStaySound(s, s');
  }

  lemma FileKeeps(s: World, s': World, id: Id)
    requires Inv(s) && id !in s.rows && id in s'.rows && s'.rows == s.rows[id := s'.rows[id]]
    requires s' == s.(rows := s'.rows, assignees := s'.assignees)
    requires s'.rows[id].status.Pending? && s'.rows[id].decidedBy.None? && s'.rows[id].decidedAt.None?
    requires s'.rows[id].note == "" && !s'.rows[id].callbackError
    ensures Inv(s') && Extends(s, s')
  {
    assert Extends(s, s');
    assert RowOnce(s', id) && RowLawful(s', id);
    forall o | o in s'.rows ensures RowOnce(s', o) && RowLawful(s', o) {
      if o != id { GrantedStays(s, s', o); }
    }
    forall w | w in s'.workers ensures WorkerSound(s', w) { WorkerStaysSound(s, s', w); }
    GrantsStaySound(s, s');
  }

  lemma UpdateKeeps(s: World, w: nat, id: Id, claim: Claim, rest: Rest)
    requires Inv(s) && w in s.workers && s.workers[w] == Claiming(id, claim, rest)
    ensures Inv(DoUpdate(s, w, id, claim, rest)) && Extends(s, DoUpdate(s, w, id, claim, rest))
  {
    if id in s.rows && s.rows[id].status.Pending? {
      WonUpdateKeeps(s, w, id, claim, rest);
    } else {
      LostUpdateKeeps(s, w, id, claim, rest);
      assert DoUpdate(s, w, id, claim, rest) == Goto(s, w, After(rest));
    }
  }

  lemma CheckSideKeeps(s: World, w: nat, step: Step)
    requires Inv(s) && w in s.workers && (step.Check? || step.Stamp?)
    ensures Inv(WorkerStep(s, w, step)) && Extends(s, WorkerStep(s, w, step))
  {
    var s', pc := WorkerStep(s, w, step), s.workers[w];
    if step.Check? && pc.Loaded? {
      CheckKeeps(s, w, pc.job, pc.id, pc.req, step.hook);
    } else if step.Stamp? && pc.Cleared? {
      StampKeeps(s, w, pc.id, pc.intent);
      assert s' == Goto(s, w, Claiming(pc.id, ClaimOf(pc.intent, s.now), Done));
    } else {
      assert s' == s;
    }
  }

  lemma UpdateSideKeeps(s: World, w: nat, step: Step)
    requires Inv(s) && w in s.workers && (step.Update? || step.NextId?)
    ensures Inv(WorkerStep(s, w, step)) && Extends(s, WorkerStep(s, w, step))
  {
    var s', pc := WorkerStep(s, w, step), s.workers[w];
    if step.Update? && pc.Claiming? {
      UpdateKeeps(s, w, pc.id, pc.claim, pc.rest);
    } else if step.NextId? && pc.Sweeping? && pc.rest.Sweep? {
      NextIdKeeps(s, w, pc.rest.at, pc.rest.todo);
    } else {
      assert s' == s;
    }
  }

  lemma ClaimSideKeeps(s: World, w: nat, step: Step)
    requires Inv(s) && w in s.workers && (step.Check? || step.Stamp? || step.Update? || step.NextId?)
    ensures Inv(WorkerStep(s, w, step)) && Extends(s, WorkerStep(s, w, step))
  {
    if step.Check? || step.Stamp? {
      CheckSideKeeps(s, w, step);
    } else {
      UpdateSideKeeps(s, w, step);
    }
  }

  lemma FinishSideKeeps(s: World, w: nat, step: Step)
    requires Inv(s) && w in s.workers && (step.Refresh? || step.Callback? || step.Save? || step.Signal?)
    ensures Inv(WorkerStep(s, w, step)) && Extends(s, WorkerStep(s, w, step))
  {
    var s', pc := WorkerStep(s, w, step), s.workers[w];
    assert WorkerSound(s, w);
    if step.Refresh? && pc.Won? {
      RefreshKeeps(s, w, pc.id, pc.rest);
      assert s' == Goto(s, w, Refreshed(pc.id, s.rows[pc.id], pc.rest));
    } else if step.Callback? && pc.Refreshed? {
      CallbackKeeps(s, w, pc.id, pc.req, pc.rest, step.raised);
    } else if step.Save? && pc.CalledBack? {
      SaveKeeps(s, w, pc.id, pc.req, pc.rest);
    } else if step.Signal? && pc.Saved? {
      SignalKeeps(s, w, pc.id, pc.rest);
    } else {
      assert s' == s;
    }
  }

  lemma EnvironmentKeeps(s: World, step: Step)
    requires Inv(s) && (step.Tick? || step.FileRequest? || step.Reassign?)
    ensures Inv(Next(s, step)) && Extends(s, Next(s, step))
  {
    if step.FileRequest? && step.id !in s.rows {
      FileKeeps(s, Next(s, step), step.id);
    } else {
      QuietKeeps(s, Next(s, step));
    }
  }

  lemma ArrivalKeeps(s: World, step: Step)
    requires Inv(s) && (step.Load? || step.Query?)
    ensures Inv(Next(s, step)) && Extends(s, Next(s, step))
  {
    var s' := Next(s, step);
    match step
    case Load(w, id, job) =>
      if w !in s.workers && id in s.rows {
        LoadKeeps(s, w, id, job);
        assert s' == Goto(s, w, Loaded(job, id, s.rows[id]));
      } else {
        assert s' == s;
      }
    case Query(w, at, ids) =>
      if w !in s.workers && at <= s.now && forall id <- ids :: id in s.rows && Overdue(s.rows[id], at) {
        QueryKeeps(s, w, at, ids);
        assert s' == Goto(s, w, Sweeping(Sweep(at, ids)));
      } else {
        assert s' == s;
      }
  }

  /** Every statement of every worker keeps the invariant and disturbs nothing settled. */
  lemma NextKeeps(s: World, step: Step)
    requires Inv(s)
    ensures Inv(Next(s, step)) && Extends(s, Next(s, step))
  {
    if step.Tick? || step.FileRequest? || step.Reassign? {
      EnvironmentKeeps(s, step);
    } else if step.Load? || step.Query? {
      ArrivalKeeps(s, step);
    } else if step.w in s.workers {
      assert Next(s, step) == WorkerStep(s, step.w, step);
      if step.Check? || step.Stamp? || step.Update? || step.NextId? {
        ClaimSideKeeps(s, step.w, step);
      } else {
        FinishSideKeeps(s, step.w, step);
      }
    } else {
      assert Next(s, step) == s;
    }
  }

  lemma StartInv(policy: Policy, now: int)
    ensures Inv(Start(policy, now))
  {
  }

  lemma ExtendsTransitive(a: World, b: World, c: World)
    requires Extends(a, b) && Extends(b, c)
    ensures Extends(a, c)
  {
  }

  lemma {:induction false} RunKeeps(s: World, steps: seq<Step>)
    requires Inv(s)
    ensures Inv(Run(s, steps)) && Extends(s, Run(s, steps))
    decreases |steps|
  {
    if steps != [] {
      NextKeeps(s, steps[0]);
      RunKeeps(Next(s, steps[0]), steps[1..]);
      ExtendsTransitive(s, Next(s, steps[0]), Run(s, steps));
    }
  }

  lemma {:induction false} RunSplits(s: World, a: seq<Step>, b: seq<Step>)
    ensures Run(s, a + b) == Run(Run(s, a), b)
    decreases |a|
  {
    if a == [] {
      assert a + b == b;
    } else {
      assert (a + b)[1..] == a[1..] + b;
      RunSplits(Next(s, a[0]), a[1..], b);
    }
  }

  // ---- theorems ----

  /** MAIN: in every interleaving a row's callback and decided signal run at most once, not at all while
      it is pending, and exactly once when it is settled and its workers have all ended. */
  lemma ExactlyOnce(policy: Policy, start: int, steps: seq<Step>, id: Id)
    requires id in Run(Start(policy, start), steps).rows
    ensures var s := Run(Start(policy, start), steps);
            && s.callbacks[id] <= 1 && s.signals[id] <= s.callbacks[id]
            && (s.rows[id].status.Pending? ==> s.callbacks[id] == 0 && id !in s.winner)
            && (!s.rows[id].status.Pending? && (forall w :: w in s.workers ==> s.workers[w].Ended?) ==>
                  s.callbacks[id] == 1 && s.signals[id] == 1)
  {
    StartInv(policy, start);
    RunKeeps(Start(policy, start), steps);
    var s := Run(Start(policy, start), steps);
    assert RowOnce(s, id);
  }

  /** MAIN: once a row has left pending, whatever any worker does afterwards (the re-save of its own
      winner included), its status, decider, time and note stay, and so does who won it. */
  lemma DecisionIsFinal(policy: Policy, start: int, before: seq<Step>, after: seq<Step>, id: Id)
    requires id in Run(Start(policy, start), before).rows
    requires !Run(Start(policy, start), before).rows[id].status.Pending?
    ensures var s, s' := Run(Start(policy, start), before), Run(Start(policy, start), before + after);
            && id in s'.rows && id in s.winner && id in s'.winner && s'.winner[id] == s.winner[id]
            && s'.rows[id].status == s.rows[id].status
            && s'.rows[id].decidedBy == s.rows[id].decidedBy
            && s'.rows[id].decidedAt == s.rows[id].decidedAt
            && s'.rows[id].note == s.rows[id].note
  {
    StartInv(policy, start);
    RunKeeps(Start(policy, start), before);
    RunSplits(Start(policy, start), before, after);
    var s := Run(Start(policy, start), before);
    assert RowOnce(s, id);
    RunKeeps(s, after);
  }

  /** MAIN: in every interleaving an approved row was approved, and a rejected one rejected, by someone whom an
      eligibility check had passed: active, not the requester unless self-approval is on, and an assignee or staff as
      the policy has it, whatever the kind's hook answers; the note is theirs. */
  lemma SeparationOfDuties(policy: Policy, start: int, steps: seq<Step>, id: Id) returns (g: Grant)
    requires id in Run(Start(policy, start), steps).rows
    requires Run(Start(policy, start), steps).rows[id].status in {Approved, Rejected}
    ensures var row := Run(Start(policy, start), steps).rows[id];
            && g in Run(Start(policy, start), steps).grants && g.id == id
            && g.job.DecideJob? && (g.job.approved <==> row.status == Approved) && g.job.note == row.note
            && row.decidedBy.Some? && row.decidedBy == g.job.actor.pk && g.job.actor.active
            && (!policy.allowSelfApprove ==> row.decidedBy != row.requestedBy)
            && (if g.assignees == {} then g.job.actor.staff
                else row.decidedBy.value in g.assignees || (g.job.actor.staff && policy.staffOverride))
  {
    StartInv(policy, start);
    RunKeeps(Start(policy, start), steps);
    var s := Run(Start(policy, start), steps);
    assert RowLawful(s, id);
    g :| g in s.grants && g.id == id && Asks(g.job, s.rows[id].status, s.rows[id].decidedBy, s.rows[id].note);
    assert GrantSound(s, g);
  }

  /** MAIN: in every interleaving a canceled row was withdrawn by its requester or by active staff, with their note. */
  lemma WithdrawnByItsOwn(policy: Policy, start: int, steps: seq<Step>, id: Id) returns (g: Grant)
    requires id in Run(Start(policy, start), steps).rows
    requires Run(Start(policy, start), steps).rows[id].status == Canceled
    ensures var row := Run(Start(policy, start), steps).rows[id];
            && g in Run(Start(policy, start), steps).grants && g.id == id
            && g.job.CancelJob? && g.job.note == row.note
            && row.decidedBy.Some? && row.decidedBy == g.job.actor.pk && g.job.actor.active
            && (row.decidedBy == row.requestedBy || g.job.actor.staff)
  {
    StartInv(policy, start);
    RunKeeps(Start(policy, start), steps);
    var s := Run(Start(policy, start), steps);
    assert RowLawful(s, id);
    g :| g in s.grants && g.id == id && Asks(g.job, s.rows[id].status, s.rows[id].decidedBy, s.rows[id].note);
    assert GrantSound(s, g);
  }

  /** MAIN: an expired row has no decider and was not expired early; a pending row has neither decider
      nor time (the table's check constraint) nor callback error; neither has a note. */
  lemma ExpiredAndPendingRows(policy: Policy, start: int, steps: seq<Step>, id: Id)
    requires id in Run(Start(policy, start), steps).rows
    ensures var row := Run(Start(policy, start), steps).rows[id];
            && (row.status.Pending? ==> row.decidedBy.None? && row.decidedAt.None? && row.note == ""
                                        && !row.callbackError)
            && (row.status.Expired? ==> row.decidedBy.None? && row.note == ""
                                        && row.expiresAt.Some? && row.decidedAt.Some?
                                        && row.expiresAt.value <= row.decidedAt.value)
            && (!row.status.Pending? ==> row.decidedAt.Some?)
  {
    StartInv(policy, start);
    RunKeeps(Start(policy, start), steps);
    var s := Run(Start(policy, start), steps);
    assert RowOnce(s, id) && RowLawful(s, id);
  }
}
