/** Emailed sign-in codes: any number of `verify` requests interleave their database statements. */
module LoginCodes {
  import opened Common

  const MAX_ATTEMPTS: nat := 5

  /** A `LoginCode` row; `secret` stands for the code its salted hash admits. */
  datatype LoginCode = LoginCode(user: int, secret: string, created: int, expires: int, attempts: nat, consumed: bool)

  /** A verify request between two statements: it holds the row it selected and the submitted code. */
  datatype Pc =
    | Found(id: Id, row: LoginCode, guess: string)
    | Live(id: Id, row: LoginCode, guess: string)
    | Stamped(id: Id, row: LoginCode, guess: string, at: int)
    | Spent(id: Id, row: LoginCode, guess: string)
    | Matched(id: Id, user: int)
    | Claimed(id: Id, user: int)
    | Ended

  datatype Login = Login(w: nat, user: int)

  /** History of a code: the life it was issued with, the requests that spent an attempt and the instant each of them
      read, what they then had checked against it, the one that consumed it and the logins made with it. */
  datatype Story = Story(ttl: int, spent: map<nat, int>, guesses: map<nat, string>, winner: Option<nat>,
                         logins: set<Login>)

  datatype World = World(now: int, rows: map<Id, LoginCode>, workers: map<nat, Pc>, story: map<Id, Story>)

  datatype Step =
    | Tick(elapsed: nat)
    | Issue(id: Id, user: int, secret: string, ttl: int)
    | Find(w: nat, user: int, guess: string, id: Id)
    | CheckLive(w: nat)
    | Stamp(w: nat)
    | Spend(w: nat)
    | CheckCode(w: nat)
    | Consume(w: nat)
    | LogIn(w: nat)

  function Start(now: int): World { World(now, map[], map[], map[]) }

  predicate IsLive(row: LoginCode, now: int) { !row.consumed && row.attempts < MAX_ATTEMPTS && row.expires > now }

  /** First of the user's unconsumed codes by descending creation time. */
  predicate IsNewest(rows: map<Id, LoginCode>, user: int, id: Id) {
    && id in rows && rows[id].user == user && !rows[id].consumed
    && forall o :: o in rows && rows[o].user == user && !rows[o].consumed ==> rows[o].created <= rows[id].created
  }

  function Goto(s: World, w: nat, pc: Pc): World { s.(workers := s.workers[w := pc]) }

  /** A statement of worker `w` that writes one row and its history. */
  function Write(s: World, w: nat, pc: Pc, id: Id, row: LoginCode, h: Story): World {
    s.(rows := s.rows[id := row], story := s.story[id := h], workers := s.workers[w := pc])
  }

  /** `UPDATE ... SET attempts = attempts + 1 WHERE pk AND NOT consumed AND attempts < MAX AND expires_at > at`. */
  function DoSpend(s: World, w: nat, id: Id, row: LoginCode, guess: string, at: int): World
    requires id in s.story && id in s.rows
  {
    if IsLive(s.rows[id], at) then
      Write(s, w, Spent(id, row, guess), id, s.rows[id].(attempts := s.rows[id].attempts + 1),
            s.story[id].(spent := s.story[id].spent[w := at]))
    else Goto(s, w, Ended)
  }

  /** `check_code` on the snapshot, whose hash never changes. */
  function DoCheck(s: World, w: nat, id: Id, row: LoginCode, guess: string): World
    requires id in s.story && id in s.rows
  {
    Write(s, w, if guess == row.secret then Matched(id, row.user) else Ended, id, s.rows[id],
          s.story[id].(guesses := s.story[id].guesses[w := guess]))
  }

  /** `UPDATE ... SET consumed WHERE pk AND NOT consumed`. */
  function DoConsume(s: World, w: nat, id: Id, user: int): World
    requires id in s.story && id in s.rows
  {
    if s.rows[id].consumed then Goto(s, w, Ended)
    else Write(s, w, Claimed(id, user), id, s.rows[id].(consumed := true), s.story[id].(winner := Some(w)))
  }

  function DoLogIn(s: World, w: nat, id: Id, user: int): World
    requires id in s.story && id in s.rows
  {
    Write(s, w, Ended, id, s.rows[id], s.story[id].(logins := s.story[id].logins + {Login(w, user)}))
  }

  function WorkerStep(s: World, w: nat, step: Step): World
    requires w in s.workers
  {
    var pc := s.workers[w];
    if pc.Ended? || pc.id !in s.story || pc.id !in s.rows then s
    else if step.CheckLive? && pc.Found? then Goto(s, w, if IsLive(pc.row, s.now) then Live(pc.id, pc.row, pc.guess)
      else Ended)
    else if step.Stamp? && pc.Live? then Goto(s, w, Stamped(pc.id, pc.row, pc.guess, s.now))
    else if step.Spend? && pc.Stamped? then DoSpend(s, w, pc.id, pc.row, pc.guess, pc.at)
    else if step.CheckCode? && pc.Spent? then DoCheck(s, w, pc.id, pc.row, pc.guess)
    else if step.Consume? && pc.Matched? then DoConsume(s, w, pc.id, pc.user)
    else if step.LogIn? && pc.Claimed? then DoLogIn(s, w, pc.id, pc.user)
    else s
  }

  function DoIssue(s: World, id: Id, user: int, secret: string, ttl: int): World {
    s.(rows := s.rows[id := LoginCode(user, secret, s.now, s.now + ttl, 0, false)],
      story := s.story[id := Story(ttl, map[], map[], None, {})])
  }

  /** One statement of one request, an issued code, or time passing.  A statement that is not the
      request's next one changes nothing. */
  function Next(s: World, step: Step): World {
    match step
    case Tick(elapsed) => s.(now := s.now + elapsed)
    case Issue(id, user, secret, ttl) => if id in s.rows then s else DoIssue(s, id, user, secret, ttl)
    case Find(w, user, guess, id) =>
      if w !in s.workers && guess != "" && IsNewest(s.rows, user, id) then Goto(s, w, Found(id, s.rows[id], guess))
        else s
    case _ => if step.w in s.workers then WorkerStep(s, step.w, step) else s
  }

  function Run(s: World, steps: seq<Step>): World
    decreases |steps|
  {
    if steps == [] then s else Run(Next(s, steps[0]), steps[1..])
  }

  // ---- the invariant ----

  /** Attempts count the requests that spent one; only those had a code checked; a code consumed has one
      winner, who guessed right and has logged in or is about to. */
  ghost predicate RowSound(s: World, id: Id)
    requires id in s.rows
  {
    id in s.story &&
    var row, h := s.rows[id], s.story[id];
    && |h.spent| == row.attempts <= MAX_ATTEMPTS && h.guesses.Keys <= h.spent.Keys <= s.workers.Keys
    && (row.consumed <==> h.winner.Some?)
    && (h.winner.None? ==> h.logins == {})
    && (h.winner.Some? ==>
          && h.winner.value in h.guesses && h.guesses[h.winner.value] == row.secret
          && h.logins == if s.workers[h.winner.value] == Claimed(id, row.user) then {}
            else {Login(h.winner.value, row.user)})
  }

  ghost predicate WorkerSound(s: World, w: nat)
    requires w in s.workers
  {
    var pc := s.workers[w];
    pc.Ended? ||
    (&& pc.id in s.rows && pc.id in s.story
     && var row, h := s.rows[pc.id], s.story[pc.id];
        && (pc.Found? || pc.Live? || pc.Stamped? ==>
          w !in h.spent && pc.row.user == row.user && pc.row.secret == row.secret)
        && (pc.Spent? ==> w in h.spent && w !in h.guesses && pc.row.user == row.user && pc.row.secret == row.secret)
        && (pc.Matched? ==> w in h.guesses && h.guesses[w] == row.secret && h.winner != Some(w) && pc.user == row.user)
        && (pc.Claimed? ==> h.winner == Some(w) && pc.user == row.user))
  }

  ghost predicate AllRows(s: World) { s.story.Keys == s.rows.Keys && forall id :: id in s.rows ==> RowSound(s, id) }

  ghost predicate AllWorkers(s: World) { forall w :: w in s.workers ==> WorkerSound(s, w) }

  ghost predicate Inv(s: World) { AllRows(s) && AllWorkers(s) }

  // ---- what every statement keeps ----

  /** The history says the same of worker `o`. */
  predicate SameFor(a: Story, b: Story, o: nat) {
    && (o in b.spent <==> o in a.spent) && (o in b.guesses <==> o in a.guesses)
    && (o in a.guesses && o in b.guesses ==> b.guesses[o] == a.guesses[o])
    && (b.winner == Some(o) <==> a.winner == Some(o))
  }

  predicate SameOwner(a: LoginCode, b: LoginCode) {
    b.user == a.user && b.secret == a.secret
  }

  /** Worker `w` writes one row: the rest follows from what it does to that row and to itself. */
  lemma WriteKeeps(s: World, w: nat, pc: Pc, id: Id, row: LoginCode, h: Story)
    requires Inv(s) && w in s.workers && id in s.rows && SameOwner(s.rows[id], row)
    requires forall o :: o != w ==> SameFor(s.story[id], h, o)
    requires s.workers[w].Ended? || s.workers[w].id == id
    requires pc.Ended? || pc.id == id
    requires RowSound(Write(s, w, pc, id, row, h), id) && WorkerSound(Write(s, w, pc, id, row, h), w)
    ensures Inv(Write(s, w, pc, id, row, h))
  {
    var s' := Write(s, w, pc, id, row, h);
    forall o | o in s'.workers ensures WorkerSound(s', o) {
      if o != w { assert WorkerSound(s, o); OtherWorker(s, w, pc, id, row, h, o); }
    }
    forall o | o in s'.rows ensures RowSound(s', o) {
      if o != id { assert RowSound(s, o); OtherRow(s, w, pc, id, row, h, o); }
    }
  }

  lemma OtherWorker(s: World, w: nat, pc: Pc, id: Id, row: LoginCode, h: Story, o: nat)
    requires o in s.workers && o != w && WorkerSound(s, o)
    requires id in s.rows && id in s.story && SameOwner(s.rows[id], row) && SameFor(s.story[id], h, o)
    ensures WorkerSound(Write(s, w, pc, id, row, h), o)
  {
  }

  lemma OtherRow(s: World, w: nat, pc: Pc, id: Id, row: LoginCode, h: Story, o: Id)
    requires o in s.rows && o != id && RowSound(s, o) && w in s.workers
    requires (s.workers[w].Ended? || s.workers[w].id == id) && (pc.Ended? || pc.id == id)
    ensures RowSound(Write(s, w, pc, id, row, h), o)
  {
  }

  lemma MoveKeeps(s: World, w: nat, pc: Pc)
    requires Inv(s) && (w in s.workers ==> !s.workers[w].Claimed?) && !pc.Claimed?
    requires WorkerSound(Goto(s, w, pc), w)
    ensures Inv(Goto(s, w, pc))
  {
    var s' := Goto(s, w, pc);
    forall o | o in s'.workers ensures WorkerSound(s', o) { if o != w { assert WorkerSound(s, o); } }
    forall id | id in s'.rows ensures RowSound(s', id) { assert RowSound(s, id); MovedRow(s, w, pc, id); }
  }

  lemma MovedRow(s: World, w: nat, pc: Pc, id: Id)
    requires id in s.rows && RowSound(s, id) && (w in s.workers ==> !s.workers[w].Claimed?) && !pc.Claimed?
    ensures RowSound(Goto(s, w, pc), id)
  {
  }

  lemma SpendRow(s: World, w: nat, id: Id, row: LoginCode, guess: string, at: int)
    requires id in s.rows && RowSound(s, id) && IsLive(s.rows[id], at)
    requires w in s.workers && s.workers[w] == Stamped(id, row, guess, at) && WorkerSound(s, w)
    ensures RowSound(DoSpend(s, w, id, row, guess, at), id) && WorkerSound(DoSpend(s, w, id, row, guess, at), w)
  {
  }

  lemma SpendKeeps(s: World, w: nat, id: Id, row: LoginCode, guess: string, at: int)
    requires Inv(s) && w in s.workers && s.workers[w] == Stamped(id, row, guess, at) && id in s.rows
    ensures Inv(DoSpend(s, w, id, row, guess, at))
  {
    assert WorkerSound(s, w) && RowSound(s, id);
    if IsLive(s.rows[id], at) {
      SpendRow(s, w, id, row, guess, at);
      WriteKeeps(s, w, Spent(id, row, guess), id, s.rows[id].(attempts := s.rows[id].attempts + 1),
                 s.story[id].(spent := s.story[id].spent[w := at]));
    } else {
      MoveKeeps(s, w, Ended);
    }
  }

  lemma CheckRow(s: World, w: nat, id: Id, row: LoginCode, guess: string)
    requires id in s.rows && RowSound(s, id)
    requires w in s.workers && s.workers[w] == Spent(id, row, guess) && WorkerSound(s, w)
    ensures RowSound(DoCheck(s, w, id, row, guess), id) && WorkerSound(DoCheck(s, w, id, row, guess), w)
  {
  }

  lemma CheckKeeps(s: World, w: nat, id: Id, row: LoginCode, guess: string)
    requires Inv(s) && w in s.workers && s.workers[w] == Spent(id, row, guess) && id in s.rows
    ensures Inv(DoCheck(s, w, id, row, guess))
  {
    assert WorkerSound(s, w) && RowSound(s, id);
    CheckRow(s, w, id, row, guess);
    WriteKeeps(s, w, if guess == row.secret then Matched(id, row.user) else Ended, id,
               s.rows[id], s.story[id].(guesses := s.story[id].guesses[w := guess]));
  }

  lemma ConsumeRow(s: World, w: nat, id: Id, user: int)
    requires id in s.rows && RowSound(s, id) && !s.rows[id].consumed
    requires w in s.workers && s.workers[w] == Matched(id, user) && WorkerSound(s, w)
    ensures RowSound(DoConsume(s, w, id, user), id) && WorkerSound(DoConsume(s, w, id, user), w)
  {
  }

  lemma ConsumeKeeps(s: World, w: nat, id: Id, user: int)
    requires Inv(s) && w in s.workers && s.workers[w] == Matched(id, user) && id in s.rows
    ensures Inv(DoConsume(s, w, id, user))
  {
    assert WorkerSound(s, w) && RowSound(s, id);
    if s.rows[id].consumed {
      MoveKeeps(s, w, Ended);
    } else {
      ConsumeRow(s, w, id, user);
      WriteKeeps(s, w, Claimed(id, user), id, s.rows[id].(consumed := true), s.story[id].(winner := Some(w)));
    }
  }

  lemma LogInRow(s: World, w: nat, id: Id, user: int)
    requires id in s.rows && RowSound(s, id)
    requires w in s.workers && s.workers[w] == Claimed(id, user) && WorkerSound(s, w)
    ensures RowSound(DoLogIn(s, w, id, user), id) && WorkerSound(DoLogIn(s, w, id, user), w)
  {
  }

  lemma LogInKeeps(s: World, w: nat, id: Id, user: int)
    requires Inv(s) && w in s.workers && s.workers[w] == Claimed(id, user) && id in s.rows
    ensures Inv(DoLogIn(s, w, id, user))
  {
    assert WorkerSound(s, w) && RowSound(s, id);
    LogInRow(s, w, id, user);
    WriteKeeps(s, w, Ended, id, s.rows[id], s.story[id].(logins := s.story[id].logins + {Login(w, user)}));
  }

  lemma WorkerKeeps(s: World, w: nat, step: Step)
    requires Inv(s) && w in s.workers
    ensures Inv(WorkerStep(s, w, step))
  {
    var pc := s.workers[w];
    assert WorkerSound(s, w);
    if step.CheckLive? && pc.Found? {
      MoveKeeps(s, w, if IsLive(pc.row, s.now) then Live(pc.id, pc.row, pc.guess) else Ended);
    } else if step.Stamp? && pc.Live? {
      MoveKeeps(s, w, Stamped(pc.id, pc.row, pc.guess, s.now));
    } else if step.Spend? && pc.Stamped? {
      SpendKeeps(s, w, pc.id, pc.row, pc.guess, pc.at);
    } else if step.CheckCode? && pc.Spent? {
      CheckKeeps(s, w, pc.id, pc.row, pc.guess);
    } else if step.Consume? && pc.Matched? {
      ConsumeKeeps(s, w, pc.id, pc.user);
    } else if step.LogIn? && pc.Claimed? {
      LogInKeeps(s, w, pc.id, pc.user);
    }
  }

  lemma IssueKeeps(s: World, id: Id, user: int, secret: string, ttl: int)
    requires Inv(s) && id !in s.rows
    ensures Inv(DoIssue(s, id, user, secret, ttl))
  {
    var s' := DoIssue(s, id, user, secret, ttl);
    forall o | o in s'.workers ensures WorkerSound(s', o) { assert WorkerSound(s, o); }
    forall o | o in s'.rows ensures RowSound(s', o) { if o != id { assert RowSound(s, o); } }
  }

  lemma FindKeeps(s: World, w: nat, id: Id, guess: string)
    requires Inv(s) && w !in s.workers && id in s.rows
    ensures Inv(Goto(s, w, Found(id, s.rows[id], guess)))
  {
    assert RowSound(s, id);
    MoveKeeps(s, w, Found(id, s.rows[id], guess));
  }

  lemma TickKeeps(s: World, elapsed: nat)
    requires Inv(s)
    ensures Inv(s.(now := s.now + elapsed))
  {
    var s' := s.(now := s.now + elapsed);
    forall o | o in s'.workers ensures WorkerSound(s', o) { assert WorkerSound(s, o); }
    forall o | o in s'.rows ensures RowSound(s', o) { assert RowSound(s, o); }
  }

  lemma NextKeeps(s: World, step: Step)
    requires Inv(s)
    ensures Inv(Next(s, step))
  {
    match step
    case Tick(elapsed) => TickKeeps(s, elapsed);
    case Issue(id, user, secret, ttl) => if id !in s.rows { IssueKeeps(s, id, user, secret, ttl); }
    case Find(w, user, guess, id) =>
      if w !in s.workers && guess != "" && IsNewest(s.rows, user, id) { FindKeeps(s, w, id, guess); }
    case _ => if step.w in s.workers { WorkerKeeps(s, step.w, step); }
  }

  lemma {:induction false} RunKeeps(s: World, steps: seq<Step>)
    requires Inv(s)
    ensures Inv(Run(s, steps))
    decreases |steps|
  {
    if steps != [] {
      NextKeeps(s, steps[0]);
      RunKeeps(Next(s, steps[0]), steps[1..]);
    }
  }

  // ---- time ----

  /** Every attempt was spent within the life the code was issued with. */
  predicate RowTimely(row: LoginCode, h: Story, now: int) {
    && row.created <= now && row.expires == row.created + h.ttl
    && forall w <- h.spent :: row.created <= h.spent[w] <= now && h.spent[w] < row.expires
  }

  /** A request has read the clock while its code existed. */
  predicate PcTimely(rows: map<Id, LoginCode>, pc: Pc, now: int) {
    pc.Stamped? ==> pc.id in rows && rows[pc.id].created <= pc.at <= now
  }

  ghost predicate Timely(s: World) {
    && s.story.Keys == s.rows.Keys
    && (forall id :: id in s.rows ==> RowTimely(s.rows[id], s.story[id], s.now))
    && (forall w :: w in s.workers ==> PcTimely(s.rows, s.workers[w], s.now))
  }

  lemma WriteTimely(s: World, w: nat, pc: Pc, id: Id, row: LoginCode, h: Story)
    requires Timely(s) && id in s.rows && row.created == s.rows[id].created && RowTimely(row, h, s.now) && !pc.Stamped?
    ensures Timely(Write(s, w, pc, id, row, h))
  {
    var s' := Write(s, w, pc, id, row, h);
    forall o | o in s'.workers ensures PcTimely(s'.rows, s'.workers[o], s'.now) {
      if o != w { assert PcTimely(s.rows, s.workers[o], s.now); }
    }
  }

  lemma MoveTimely(s: World, w: nat, pc: Pc)
    requires Timely(s) && PcTimely(s.rows, pc, s.now)
    ensures Timely(Goto(s, w, pc))
  {
  }

  lemma SpendTimely(s: World, w: nat, id: Id, row: LoginCode, guess: string, at: int)
    requires Timely(s) && w in s.workers && s.workers[w] == Stamped(id, row, guess, at) && id in s.rows
    ensures Timely(DoSpend(s, w, id, row, guess, at))
  {
    assert PcTimely(s.rows, s.workers[w], s.now) && RowTimely(s.rows[id], s.story[id], s.now);
    if IsLive(s.rows[id], at) {
      WriteTimely(s, w, Spent(id, row, guess), id, s.rows[id].(attempts := s.rows[id].attempts + 1),
                  s.story[id].(spent := s.story[id].spent[w := at]));
    } else {
      MoveTimely(s, w, Ended);
    }
  }

  lemma WorkerTimely(s: World, w: nat, step: Step)
    requires Timely(s) && w in s.workers
    ensures Timely(WorkerStep(s, w, step))
  {
    var pc := s.workers[w];
    if pc.Ended? || pc.id !in s.rows { return; }
    var row, h := s.rows[pc.id], s.story[pc.id];
    assert RowTimely(row, h, s.now);
    if step.CheckLive? && pc.Found? {
      MoveTimely(s, w, if IsLive(pc.row, s.now) then Live(pc.id, pc.row, pc.guess) else Ended);
    } else if step.Stamp? && pc.Live? {
      MoveTimely(s, w, Stamped(pc.id, pc.row, pc.guess, s.now));
    } else if step.Spend? && pc.Stamped? {
      SpendTimely(s, w, pc.id, pc.row, pc.guess, pc.at);
    } else if step.CheckCode? && pc.Spent? {
      WriteTimely(s, w, if pc.guess == pc.row.secret then Matched(pc.id, pc.row.user) else Ended, pc.id, row,
                  h.(guesses := h.guesses[w := pc.guess]));
    } else if step.Consume? && pc.Matched? {
      if row.consumed { MoveTimely(s, w, Ended); }
      else { WriteTimely(s, w, Claimed(pc.id, pc.user), pc.id, row.(consumed := true), h.(winner := Some(w))); }
    } else if step.LogIn? && pc.Claimed? {
      WriteTimely(s, w, Ended, pc.id, row, h.(logins := h.logins + {Login(w, pc.user)}));
    }
  }

  lemma NextTimely(s: World, step: Step)
    requires Timely(s)
    ensures Timely(Next(s, step))
  {
    match step
    case Tick(elapsed) => TickTimely(s, elapsed);
    case Issue(id, user, secret, ttl) => if id !in s.rows { IssueTimely(s, id, user, secret, ttl); }
    case Find(w, user, guess, id) =>
      if w !in s.workers && guess != "" && IsNewest(s.rows, user, id) {
        MoveTimely(s, w, Found(id, s.rows[id], guess));
      }
    case _ => if step.w in s.workers { WorkerTimely(s, step.w, step); }
  }

  lemma TickTimely(s: World, elapsed: nat)
    requires Timely(s)
    ensures Timely(s.(now := s.now + elapsed))
  {
    var s' := s.(now := s.now + elapsed);
    forall id | id in s'.rows ensures RowTimely(s'.rows[id], s'.story[id], s'.now) {
      assert RowTimely(s.rows[id], s.story[id], s.now);
    }
    forall w | w in s'.workers ensures PcTimely(s'.rows, s'.workers[w], s'.now) {
      assert PcTimely(s.rows, s.workers[w], s.now);
    }
  }

  lemma IssueTimely(s: World, id: Id, user: int, secret: string, ttl: int)
    requires Timely(s) && id !in s.rows
    ensures Timely(DoIssue(s, id, user, secret, ttl))
  {
    var s' := DoIssue(s, id, user, secret, ttl);
    forall o | o in s'.rows ensures RowTimely(s'.rows[o], s'.story[o], s'.now) {
      if o != id { assert RowTimely(s.rows[o], s.story[o], s.now); }
    }
    forall w | w in s'.workers ensures PcTimely(s'.rows, s'.workers[w], s'.now) {
      assert PcTimely(s.rows, s.workers[w], s.now);
    }
  }

  lemma {:induction false} RunTimely(s: World, steps: seq<Step>)
    requires Timely(s)
    ensures Timely(Run(s, steps))
    decreases |steps|
  {
    if steps != [] {
      NextTimely(s, steps[0]);
      RunTimely(Next(s, steps[0]), steps[1..]);
    }
  }

  // ---- theorems ----

  predicate AllEnded(s: World) { forall w :: w in s.workers ==> s.workers[w].Ended? }

  /** MAIN: in every interleaving the codes checked against one `LoginCode` never exceed its attempts
      counter, which never exceeds five. */
  lemma GuessBound(start: int, steps: seq<Step>, id: Id)
    requires id in Run(Start(start), steps).rows
    ensures var s := Run(Start(start), steps);
            && id in s.story && |s.story[id].guesses| <= s.rows[id].attempts <= 5
  {
    RunKeeps(Start(start), steps);
    var s := Run(Start(start), steps);
    assert RowSound(s, id);
    SubsetSize(s.story[id].guesses.Keys, s.story[id].spent.Keys);
  }

  /** MAIN: at most one request logs in with a code, as its owner and with the right code; and when all
      requests are done a code is consumed exactly when somebody logged in with it. */
  lemma OneLogin(start: int, steps: seq<Step>, id: Id)
    requires id in Run(Start(start), steps).rows
    ensures var s := Run(Start(start), steps);
            && id in s.story
            && (forall a, b :: a in s.story[id].logins && b in s.story[id].logins ==> a == b)
            && (forall a :: a in s.story[id].logins ==>
                  && a.user == s.rows[id].user && s.rows[id].consumed
                  && a.w in s.story[id].guesses && s.story[id].guesses[a.w] == s.rows[id].secret)
            && (AllEnded(s) ==> (s.rows[id].consumed <==> s.story[id].logins != {}))
  {
    RunKeeps(Start(start), steps);
    assert RowSound(Run(Start(start), steps), id);
  }

  /** MAIN: in every interleaving, every code checked against a `LoginCode` and every login made with it belongs to a
      request that spent its attempt within the life the `LoginCode` was issued with. */
  lemma NothingAfterExpiry(start: int, steps: seq<Step>, id: Id, w: nat)
    requires id in Run(Start(start), steps).rows
    ensures var s := Run(Start(start), steps);
            && id in s.story
            && (w in s.story[id].guesses || (exists user :: Login(w, user) in s.story[id].logins) ==>
                  && w in s.story[id].spent
                  && 0 <= s.story[id].spent[w] - s.rows[id].created < s.story[id].ttl
                  && s.story[id].spent[w] < s.rows[id].expires)
  {
    RunKeeps(Start(start), steps);
    RunTimely(Start(start), steps);
    var s := Run(Start(start), steps);
    assert RowSound(s, id) && RowTimely(s.rows[id], s.story[id], s.now);
  }

  /** The code can be guessed at no more: it is consumed or out of attempts. */
  predicate Shut(row: LoginCode) { row.consumed || row.attempts >= MAX_ATTEMPTS }

  /** What a statement leaves of a shut code: it stays shut and no further request spends an attempt. */
  ghost predicate StaysShut(s: World, s': World, id: Id) {
    id in s.rows && id in s.story && Shut(s.rows[id]) ==>
      && id in s'.rows && id in s'.story && Shut(s'.rows[id])
      && s'.story[id].spent == s.story[id].spent && s'.rows[id].attempts == s.rows[id].attempts
  }

  lemma NextStaysShut(s: World, step: Step, id: Id)
    ensures StaysShut(s, Next(s, step), id)
  {
  }

  lemma {:induction false} RunStaysShut(s: World, steps: seq<Step>, id: Id)
    ensures StaysShut(s, Run(s, steps), id)
    decreases |steps|
  {
    if steps != [] {
      NextStaysShut(s, steps[0], id);
      RunStaysShut(Next(s, steps[0]), steps[1..], id);
    }
  }

  /** MAIN: after a code is consumed or out of attempts, whatever the requests in flight do, only those
      that had already spent an attempt can still have a code checked against it. */
  lemma NoGuessOnceShut(start: int, before: seq<Step>, after: seq<Step>, id: Id)
    requires id in Run(Start(start), before).rows
    requires var row := Run(Start(start), before).rows[id]; row.consumed || row.attempts >= 5
    ensures var s := Run(Start(start), before);
            var s' := Run(s, after);
            && id in s.story && id in s'.story && id in s'.rows
            && s'.story[id].guesses.Keys <= s.story[id].spent.Keys && s'.rows[id].attempts == s.rows[id].attempts
  {
    RunKeeps(Start(start), before);
    var s := Run(Start(start), before);
    RunKeeps(s, after);
    assert RowSound(s, id);
    RunStaysShut(s, after, id);
    assert RowSound(Run(s, after), id);
  }

  // ---- a correct code signs in ----

  lemma RunStep(s: World, step: Step, rest: seq<Step>)
    ensures Run(s, [step] + rest) == Run(Next(s, step), rest)
  {
    assert ([step] + rest)[1..] == rest;
  }

  /** A request alone: its statements in order, with nothing in between. */
  function Alone(w: nat, user: int, guess: string, id: Id): seq<Step> {
    [Find(w, user, guess, id)] + ([CheckLive(w)] +
      ([Stamp(w)] + ([Spend(w)] + ([CheckCode(w)] + ([Consume(w)] + ([LogIn(w)] + []))))))
  }

  /** Up to spending the attempt. */
  lemma AloneSpends(s: World, w: nat, user: int, guess: string, id: Id, rest: seq<Step>)
    requires w !in s.workers && guess != "" && IsNewest(s.rows, user, id) && id in s.story && IsLive(s.rows[id], s.now)
    ensures Run(s, [Find(w, user, guess, id)] + ([CheckLive(w)] + ([Stamp(w)] + ([Spend(w)] + rest))))
         == Run(DoSpend(Goto(s, w, Stamped(id, s.rows[id], guess, s.now)), w, id, s.rows[id], guess, s.now), rest)
  {
    var row := s.rows[id];
    var s1, s2, s3 := Goto(s, w, Found(id, row, guess)), Goto(s, w, Live(id, row, guess)),
      Goto(s, w, Stamped(id, row, guess, s.now));
    RunStep(s, Find(w, user, guess, id), [CheckLive(w)] + ([Stamp(w)] + ([Spend(w)] + rest)));
    RunStep(s1, CheckLive(w), [Stamp(w)] + ([Spend(w)] + rest));
    assert Next(s1, CheckLive(w)) == s2;
    RunStep(s2, Stamp(w), [Spend(w)] + rest);
    assert Next(s2, Stamp(w)) == s3;
    RunStep(s3, Spend(w), rest);
  }

  /** From the spent attempt on: signed in if and only if the code is right. */
  lemma AloneChecks(s: World, w: nat, id: Id, row: LoginCode, guess: string)
    requires w in s.workers && s.workers[w] == Spent(id, row, guess) && id in s.rows && id in s.story
    requires !s.rows[id].consumed && row.secret == s.rows[id].secret
    requires s.story[id].logins == {}
    ensures var s' := Run(s, [CheckCode(w)] + ([Consume(w)] + ([LogIn(w)] + [])));
            && s'.rows == s.rows[id := s.rows[id].(consumed := guess == row.secret)] && id in s'.story
            && s'.story[id].logins == if guess == row.secret then {Login(w, row.user)} else {}
  {
    RunStep(s, CheckCode(w), [Consume(w)] + ([LogIn(w)] + []));
    var s1 := Next(s, CheckCode(w));
    assert s1 == DoCheck(s, w, id, row, guess);
    RunStep(s1, Consume(w), [LogIn(w)] + []);
    var s2 := Next(s1, Consume(w));
    RunStep(s2, LogIn(w), []);
    if guess == row.secret {
      assert s2 == DoConsume(s1, w, id, row.user);
    } else {
      assert s2 == s1;
    }
  }

  /** MAIN: a request that runs alone against the user's newest code, live, is signed in exactly when it
      submits the right code, and costs one attempt either way. */
  lemma AloneSignsInIff(start: int, steps: seq<Step>, w: nat, user: int, guess: string, id: Id)
    requires var s := Run(Start(start), steps);
             w !in s.workers && guess != "" && IsNewest(s.rows, user, id) && IsLive(s.rows[id], s.now)
    ensures var s := Run(Start(start), steps);
            var s' := Run(s, Alone(w, user, guess, id));
            && id in s'.rows && id in s'.story
            && (Login(w, user) in s'.story[id].logins <==> guess == s.rows[id].secret)
            && s'.rows[id].attempts == s.rows[id].attempts + 1
  {
    RunKeeps(Start(start), steps);
    var s := Run(Start(start), steps);
    assert RowSound(s, id);
    AloneInState(s, w, user, guess, id);
  }

  lemma AloneInState(s: World, w: nat, user: int, guess: string, id: Id)
    requires w !in s.workers && guess != "" && IsNewest(s.rows, user, id) && IsLive(s.rows[id], s.now)
    requires id in s.story && s.story[id].logins == {}
    ensures var s' := Run(s, Alone(w, user, guess, id));
            && s'.rows == s.rows[id := s.rows[id].(attempts := s.rows[id].attempts + 1,
                                                   consumed := guess == s.rows[id].secret)]
            && id in s'.story && (Login(w, user) in s'.story[id].logins <==> guess == s.rows[id].secret)
  {
    var rest := [CheckCode(w)] + ([Consume(w)] + ([LogIn(w)] + []));
    AloneSpends(s, w, user, guess, id, rest);
    var row := s.rows[id];
    var s4 := DoSpend(Goto(s, w, Stamped(id, row, guess, s.now)), w, id, row, guess, s.now);
    AloneChecks(s4, w, id, row, guess);
  }

  /** A step that is not the request's next one changes nothing. */
  lemma OutOfTurn(s: World, w: nat, rest: seq<Step>)
    requires w !in s.workers || s.workers[w].Ended?
    ensures Run(s, [CheckLive(w)] + rest) == Run(s, rest)
    ensures Run(s, [Stamp(w)] + rest) == Run(s, rest)
    ensures Run(s, [Spend(w)] + rest) == Run(s, rest)
    ensures Run(s, [CheckCode(w)] + rest) == Run(s, rest)
    ensures Run(s, [Consume(w)] + rest) == Run(s, rest)
    ensures Run(s, [LogIn(w)] + rest) == Run(s, rest)
  {
    RunStep(s, CheckLive(w), rest);
    RunStep(s, Stamp(w), rest);
    RunStep(s, Spend(w), rest);
    RunStep(s, CheckCode(w), rest);
    RunStep(s, Consume(w), rest);
    RunStep(s, LogIn(w), rest);
  }

  /** What is left of a request that has ended early. */
  lemma RestDoesNothing(s: World, w: nat)
    requires w !in s.workers || s.workers[w].Ended?
    ensures Run(s, [Stamp(w)] + ([Spend(w)] + ([CheckCode(w)] + ([Consume(w)] + ([LogIn(w)] + []))))) == s
  {
    OutOfTurn(s, w, [Spend(w)] + ([CheckCode(w)] + ([Consume(w)] + ([LogIn(w)] + []))));
    OutOfTurn(s, w, [CheckCode(w)] + ([Consume(w)] + ([LogIn(w)] + [])));
    OutOfTurn(s, w, [Consume(w)] + ([LogIn(w)] + []));
    OutOfTurn(s, w, [LogIn(w)] + []);
    OutOfTurn(s, w, []);
  }

  lemma AloneFindsNothing(s: World, w: nat, user: int, guess: string, id: Id)
    requires w !in s.workers && (guess == "" || !IsNewest(s.rows, user, id))
    ensures Run(s, Alone(w, user, guess, id)) == s
  {
    var rest := [Stamp(w)] + ([Spend(w)] + ([CheckCode(w)] + ([Consume(w)] + ([LogIn(w)] + []))));
    RunStep(s, Find(w, user, guess, id), [CheckLive(w)] + rest);
    OutOfTurn(s, w, rest);
    RestDoesNothing(s, w);
  }

  lemma AloneOnShutCode(s: World, w: nat, user: int, guess: string, id: Id)
    requires w !in s.workers && guess != "" && IsNewest(s.rows, user, id) && !IsLive(s.rows[id], s.now)
    requires id in s.story
    ensures Run(s, Alone(w, user, guess, id)) == Goto(s, w, Ended)
  {
    var rest := [Stamp(w)] + ([Spend(w)] + ([CheckCode(w)] + ([Consume(w)] + ([LogIn(w)] + []))));
    var found := Goto(s, w, Found(id, s.rows[id], guess));
    RunStep(s, Find(w, user, guess, id), [CheckLive(w)] + rest);
    RunStep(found, CheckLive(w), rest);
    assert Next(found, CheckLive(w)) == Goto(s, w, Ended);
    RestDoesNothing(Goto(s, w, Ended), w);
  }
}
