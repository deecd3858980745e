/** One-shot authorization codes (section 4.1.2 of RFC 6749): any number of `token` requests and
    `expire_unredeemed_codes` sweeps interleave their database statements. */
module OAuthCodes {
  import opened Common

  /** A code row; `key` is the raw bearer key waiting on it.  Each code owns the one API token minted with it. */
  datatype Code = Code(key: string, redirect: string, challenge: string, created: int, used: Option<int>)

  /** What a token request presents; `proof` is the S256 digest of its verifier, empty for an empty verifier. */
  datatype Presented = Presented(redirect: string, proof: string)

  /** Between two statements. */
  datatype Pc =
    | Loaded(id: Id, row: Code, shown: Presented)
    | Passed(id: Id, key: string)
    | Stamped(id: Id, key: string, at: int)
    | Claimed(id: Id, key: string)
    | Cutoff(before: int)
    | Listed(before: int, ids: set<Id>)
    | Deactivated(before: int)
    | Ended

  /** History of a code: the key minted for it, the request that claimed it and when, the keys sent in
      answers, and the last sweep to list it. */
  datatype Story = Story(minted: string, winner: Option<nat>, claimedAt: int, answers: seq<string>, lister: Option<nat>)

  /** `ttl` is MCP_OAUTH_CODE_TTL_SECONDS in microseconds; `dead` names the codes whose token is deactivated; `shown` is
      history: what each request presented. */
  datatype World = World(ttl: nat, now: int, rows: map<Id, Code>, dead: set<Id>, workers: map<nat, Pc>,
                         story: map<Id, Story>, shown: map<nat, Presented>)

  datatype Step =
    | Tick(elapsed: nat)
    | Mint(id: Id, key: string, redirect: string, challenge: string)
    | Load(w: nat, id: Id, shown: Presented)
    | BeginSweep(w: nat)
    | Check(w: nat)
    | Stamp(w: nat)
    | Update(w: nat)
    | Answer(w: nat)
    | List(w: nat)
    | Deactivate(w: nat)
    | Scrub(w: nat)

  function Start(ttl: nat, now: int): World { World(ttl, now, map[], {}, map[], map[], map[]) }

  function Goto(s: World, w: nat, pc: Pc): World { s.(workers := s.workers[w := pc]) }

  /** A redirect URI may be left out but not be wrong. */
  predicate RedirectOk(row: Code, shown: Presented) { shown.redirect == "" || shown.redirect == row.redirect }

  /** `verify_pkce`, S256 only; empty inputs fail. */
  predicate PkceOk(row: Code, shown: Presented) {
    shown.proof != "" && row.challenge != "" && shown.proof == row.challenge
  }

  /** The checks of `token`, on the snapshot.  A code found expired makes the request sweep. */
  function DoCheck(s: World, w: nat, id: Id, row: Code, shown: Presented): World {
    if !RedirectOk(row, shown) || row.used.Some? then Goto(s, w, Ended)
    else if s.now - row.created > s.ttl then Goto(s, w, Cutoff(s.now - s.ttl))
    else if !PkceOk(row, shown) then Goto(s, w, Ended)
    else Goto(s, w, Passed(id, row.key))
  }

  /** `UPDATE ... SET used_at, raw_key = '' WHERE pk = id AND used_at IS NULL`. */
  function DoUpdate(s: World, w: nat, id: Id, key: string, at: int): World
    requires id in s.story
  {
    if id in s.rows && s.rows[id].used.None? then
      Goto(s.(rows := s.rows[id := s.rows[id].(used := Some(at), key := "")],
              story := s.story[id := s.story[id].(winner := Some(w), claimedAt := s.now)]), w, Claimed(id, key))
    else Goto(s, w, Ended)
  }

  /** The key goes out unless the snapshot held none ("Key already revealed"). */
  function DoAnswer(s: World, w: nat, id: Id, key: string): World
    requires id in s.story
  {
    if key == "" then Goto(s, w, Ended)
    else Goto(s.(story := s.story[id := s.story[id].(answers := s.story[id].answers + [key])]), w, Ended)
  }

  predicate Stale(row: Code, before: int) { row.used.None? && row.created < before && row.key != "" }

  function StaleIds(rows: map<Id, Code>, before: int): set<Id> {
    set id | id in rows && Stale(rows[id], before)
  }

  function Scrubbed(rows: map<Id, Code>, before: int): map<Id, Code> {
    map id | id in rows :: if Stale(rows[id], before) then rows[id].(key := "") else rows[id]
  }

  function DoList(s: World, w: nat, before: int): World {
    var ids := StaleIds(s.rows, before);
    if ids == {} then Goto(s, w, Ended)
    else Goto(s.(story := map id | id in s.story :: if id in ids then s.story[id].(lister := Some(w)) else s.story[id]),
              w, Listed(before, ids))
  }

  function DoDeactivate(s: World, w: nat, before: int, ids: set<Id>): World {
    Goto(s.(dead := s.dead + ids), w, Deactivated(before))
  }

  /** `stale.update(raw_key="")`: the filter is evaluated again, with the same cutoff. */
  function DoScrub(s: World, w: nat, before: int): World {
    Goto(s.(rows := Scrubbed(s.rows, before)), w, Ended)
  }

  function WorkerStep(s: World, w: nat, step: Step): World
    requires w in s.workers
  {
    var pc := s.workers[w];
    if step.Check? && pc.Loaded? then DoCheck(s, w, pc.id, pc.row, pc.shown)
    else if step.Stamp? && pc.Passed? then Goto(s, w, Stamped(pc.id, pc.key, s.now))
    else if step.Update? && pc.Stamped? && pc.id in s.story then DoUpdate(s, w, pc.id, pc.key, pc.at)
    else if step.Answer? && pc.Claimed? && pc.id in s.story then DoAnswer(s, w, pc.id, pc.key)
    else if step.List? && pc.Cutoff? then DoList(s, w, pc.before)
    else if step.Deactivate? && pc.Listed? then DoDeactivate(s, w, pc.before, pc.ids)
    else if step.Scrub? && pc.Deactivated? then DoScrub(s, w, pc.before)
    else s
  }

  function DoTick(s: World, elapsed: nat): World { s.(now := s.now + elapsed) }

  function DoMint(s: World, id: Id, key: string, redirect: string, challenge: string): World {
    s.(rows := s.rows[id := Code(key, redirect, challenge, s.now, None)],
      story := s.story[id := Story(key, None, 0, [], None)])
  }

  function DoLoad(s: World, w: nat, id: Id, shown: Presented): World
    requires id in s.rows
  {
    Goto(s.(shown := s.shown[w := shown]), w, Loaded(id, s.rows[id], shown))
  }

  /** One statement of one request or sweep, a minted code, or time passing.  A statement that is not the
      worker's next one changes nothing. */
  function Next(s: World, step: Step): World {
    match step
    case Tick(elapsed) => DoTick(s, elapsed)
    case Mint(id, key, redirect, challenge) => if id in s.rows || key == "" then s
      else DoMint(s, id, key, redirect, challenge)
    case Load(w, id, shown) => if w !in s.workers && id in s.rows then DoLoad(s, w, id, shown) else s
    case BeginSweep(w) => if w !in s.workers then Goto(s, w, Cutoff(s.now - s.ttl)) else s
    case _ => if step.w in s.workers then WorkerStep(s, step.w, step) else s
  }

  function Run(s: World, steps: seq<Step>): World
    decreases |steps|
  {
    if steps == [] then s else Run(Next(s, steps[0]), steps[1..])
  }

  // ---- the invariant ----

  predicate Expired(s: World, row: Code) { s.now - row.created > s.ttl }

  /** An unredeemed row still holds its key, or is past its life and its token is dead. */
  ghost predicate Waiting(s: World, id: Id)
    requires id in s.rows && id in s.story
  {
    && s.story[id].winner.None? && s.story[id].answers == []
    && (s.rows[id].key == s.story[id].minted || (s.rows[id].key == "" && Expired(s, s.rows[id]) && id in s.dead))
  }

  /** A redeemed row holds no key; its claimant is about to answer, or has answered once. */
  ghost predicate Redeemed(s: World, id: Id)
    requires id in s.rows && id in s.story
  {
    var h := s.story[id];
    && s.rows[id].key == "" && h.winner.Some? && h.winner.value in s.workers
    && h.answers == (if s.workers[h.winner.value] == Claimed(id, h.minted) then [] else [h.minted])
    && (h.lister.Some? ==> h.claimedAt - s.rows[id].created > s.ttl)
  }

  /** The sweep has listed this code and not yet deactivated its token. */
  predicate Holds(s: World, w: nat, id: Id) {
    w in s.workers && s.workers[w].Listed? && id in s.workers[w].ids
  }

  /** A code is dead only if a sweep listed it, and a listed code is or will be dead. */
  ghost predicate Swept(s: World, id: Id)
    requires id in s.rows && id in s.story
  {
    var h := s.story[id];
    && (id in s.dead ==> h.lister.Some?)
    && (h.lister.Some? ==> Expired(s, s.rows[id]) && (id in s.dead || Holds(s, h.lister.value, id)))
  }

  ghost predicate RowSound(s: World, id: Id)
    requires id in s.rows
  {
    && id in s.story && s.story[id].minted != "" && s.rows[id].created <= s.now
    && (if s.rows[id].used.None? then Waiting(s, id) else Redeemed(s, id))
    && Swept(s, id)
  }

  /** Every row a sweep with this cutoff may scrub is among `ids`. */
  ghost predicate Covers(s: World, before: int, ids: set<Id>) {
    forall id :: id in s.rows && Stale(s.rows[id], before) ==> id in ids
  }

  ghost predicate WorkerSound(s: World, w: nat)
    requires w in s.workers
  {
    match s.workers[w]
    case Loaded(id, row, _) =>
      && id in s.rows && id in s.story && row.created == s.rows[id].created
      && (row.used.None? ==> row.key == s.story[id].minted || Expired(s, row))
    case Passed(id, key) => id in s.rows && id in s.story && key == s.story[id].minted
    case Stamped(id, key, at) => id in s.rows && id in s.story && key == s.story[id].minted
    case Claimed(id, key) =>
      && id in s.rows && id in s.story && key == s.story[id].minted
      && s.rows[id].used.Some? && s.story[id].winner == Some(w)
    case Cutoff(before) => before <= s.now - s.ttl
    case Listed(before, ids) =>
      && before <= s.now - s.ttl && Covers(s, before, ids)
      && forall id :: id in ids ==> id in s.rows && id in s.story && s.story[id].lister.Some?
    case Deactivated(before) => before <= s.now - s.ttl && Covers(s, before, s.dead)
    case Ended => true
  }

  ghost predicate AllRows(s: World) {
    s.story.Keys == s.rows.Keys && s.dead <= s.rows.Keys && forall id :: id in s.rows ==> RowSound(s, id)
  }

  ghost predicate AllWorkers(s: World) { forall w :: w in s.workers ==> WorkerSound(s, w) }

  ghost predicate Inv(s: World) { AllRows(s) && AllWorkers(s) }

  // ---- what every statement keeps ----

  /** A row only ages: it keeps its birth, is used once, and its key only goes away. */
  predicate Ages(a: Code, b: Code) {
    && b.created == a.created && (a.used.Some? ==> b.used == a.used) && (b.key == a.key || b.key == "")
  }

  predicate Unfolds(a: Story, b: Story) {
    b.minted == a.minted && (a.lister.Some? ==> b.lister.Some?) && (a.winner.Some? ==> b.winner == a.winner)
  }

  predicate Grows(s: World, s': World) {
    && s'.ttl == s.ttl && s.now <= s'.now && s.dead <= s'.dead
    && (forall id :: id in s.rows ==> id in s'.rows && Ages(s.rows[id], s'.rows[id]))
    && (forall id :: id in s'.rows && id !in s.rows ==> s'.rows[id].created >= s.now)
    && (forall id :: id in s.story ==> id in s'.story && Unfolds(s.story[id], s'.story[id]))
  }

  lemma WorkerStaysSound(s: World, s': World, w: nat)
    requires w in s.workers && w in s'.workers && s'.workers[w] == s.workers[w]
    requires WorkerSound(s, w) && Grows(s, s')
    ensures WorkerSound(s', w)
  {
    match s.workers[w]
    case Listed(before, ids) => CoversStays(s, s', before, ids, ids);
    case Deactivated(before) => CoversStays(s, s', before, s.dead, s'.dead);
    case _ =>
  }

  lemma CoversStays(s: World, s': World, before: int, ids: set<Id>, ids': set<Id>)
    requires Grows(s, s') && Covers(s, before, ids) && ids <= ids' && before <= s.now - s.ttl
    ensures Covers(s', before, ids')
  {
    forall id | id in s'.rows && Stale(s'.rows[id], before) ensures id in ids' {
      if id in s.rows { assert Stale(s.rows[id], before); }
    }
  }

  lemma WorkersStaySound(s: World, s': World, w: nat)
    requires AllWorkers(s) && Grows(s, s')
    requires forall o :: o in s'.workers && o != w ==> o in s.workers && s'.workers[o] == s.workers[o]
    requires w in s'.workers ==> WorkerSound(s', w)
    ensures AllWorkers(s')
  {
    forall o | o in s'.workers ensures WorkerSound(s', o) {
      if o != w { WorkerStaysSound(s, s', o); }
    }
  }

  predicate LetsGo(s: World, s': World, w: nat, id: Id)
    requires w in s.workers && w in s'.workers && id in s.story
  {
    && (s'.workers[w] == Claimed(id, s.story[id].minted) <==> s.workers[w] == Claimed(id, s.story[id].minted))
    && (Holds(s, w, id) ==> id in s'.dead)
  }

  /** Nothing this row's soundness rests on has changed, though worker `w` has moved. */
  predicate Undisturbed(s: World, s': World, w: nat, id: Id)
    requires id in s.rows && id in s.story
  {
    && id in s'.rows && s'.rows[id] == s.rows[id] && id in s'.story && s'.story[id] == s.story[id]
    && s'.ttl == s.ttl && s.now <= s'.now && s.dead <= s'.dead &&
      (id in s'.dead && id !in s.dead ==> s.story[id].lister.Some?)
    && (forall o :: o in s.workers && o != w ==> o in s'.workers && s'.workers[o] == s.workers[o])
    && (w in s.workers ==> w in s'.workers && (s'.workers[w] == s.workers[w] || LetsGo(s, s', w, id)))
  }

  lemma RowStaysSound(s: World, s': World, w: nat, id: Id)
    requires id in s.rows && RowSound(s, id) && Undisturbed(s, s', w, id)
    ensures RowSound(s', id)
  {
  }

  lemma MovedRow(s: World, w: nat, pc: Pc, id: Id)
    requires id in s.rows && RowSound(s, id)
    requires (w in s.workers ==> !s.workers[w].Claimed? && !s.workers[w].Listed?) && !pc.Claimed?
    ensures RowSound(Goto(s, w, pc), id)
  {
    RowStaysSound(s, Goto(s, w, pc), w, id);
  }

  /** Rows do not notice a worker moving between statements that neither claimed a code nor listed one. */
  lemma MoveKeeps(s: World, w: nat, pc: Pc)
    requires Inv(s) && (w in s.workers ==> !s.workers[w].Claimed? && !s.workers[w].Listed?) && !pc.Claimed?
    requires WorkerSound(Goto(s, w, pc), w)
    ensures Inv(Goto(s, w, pc)) && Grows(s, Goto(s, w, pc))
  {
    var s' := Goto(s, w, pc);
    WorkersStaySound(s, s', w);
    forall id | id in s.rows ensures RowSound(s', id) { MovedRow(s, w, pc, id); }
  }

  lemma CheckKeeps(s: World, w: nat, id: Id, row: Code, shown: Presented)
    requires Inv(s) && w in s.workers && s.workers[w] == Loaded(id, row, shown)
    ensures Inv(DoCheck(s, w, id, row, shown)) && Grows(s, DoCheck(s, w, id, row, shown))
  {
    CheckStep(s, w, id, row, shown, CheckedPc(s, id, row, shown));
    MoveKeeps(s, w, CheckedPc(s, id, row, shown));
  }

  /** Where the checks lead. */
  function CheckedPc(s: World, id: Id, row: Code, shown: Presented): Pc {
    if !RedirectOk(row, shown) || row.used.Some? then Ended
    else if s.now - row.created > s.ttl then Cutoff(s.now - s.ttl)
    else if PkceOk(row, shown) then Passed(id, row.key)
    else Ended
  }

  lemma CheckStep(s: World, w: nat, id: Id, row: Code, shown: Presented, pc: Pc)
    requires w in s.workers && s.workers[w] == Loaded(id, row, shown) && WorkerSound(s, w)
    requires pc == CheckedPc(s, id, row, shown)
    ensures DoCheck(s, w, id, row, shown) == Goto(s, w, pc) && WorkerSound(Goto(s, w, pc), w) && !pc.Claimed?
  {
  }

  lemma ClaimStep(s: World, w: nat, id: Id, key: string, at: int)
    requires id in s.rows && RowSound(s, id) && s.rows[id].used.None?
    requires w in s.workers && s.workers[w] == Stamped(id, key, at) && WorkerSound(s, w)
    ensures var s' := DoUpdate(s, w, id, key, at); RowSound(s', id) && WorkerSound(s', w)
  {
  }

  lemma ClaimedRow(s: World, w: nat, id: Id, key: string, at: int, o: Id)
    requires id in s.rows && RowSound(s, id) && s.rows[id].used.None? && o in s.rows && RowSound(s, o)
    requires w in s.workers && s.workers[w] == Stamped(id, key, at) && WorkerSound(s, w)
    ensures RowSound(DoUpdate(s, w, id, key, at), o)
  {
    if o == id { ClaimStep(s, w, id, key, at); } else { RowStaysSound(s, DoUpdate(s, w, id, key, at), w, o); }
  }

  lemma ClaimGrows(s: World, w: nat, id: Id, key: string, at: int)
    requires id in s.rows && s.rows[id].used.None? && id in s.story && s.story[id].winner.None?
    ensures Grows(s, DoUpdate(s, w, id, key, at))
  {
  }

  lemma ClaimKeeps(s: World, w: nat, id: Id, key: string, at: int)
    requires Inv(s) && w in s.workers && s.workers[w] == Stamped(id, key, at) && id in s.story && s.rows[id].used.None?
    ensures Inv(DoUpdate(s, w, id, key, at)) && Grows(s, DoUpdate(s, w, id, key, at))
  {
    assert WorkerSound(s, w) && RowSound(s, id);
    var s' := DoUpdate(s, w, id, key, at);
    ClaimStep(s, w, id, key, at);
    ClaimGrows(s, w, id, key, at);
    WorkersStaySound(s, s', w);
    forall o | o in s.rows ensures RowSound(s', o) { ClaimedRow(s, w, id, key, at, o); }
  }

  lemma UpdateKeeps(s: World, w: nat, id: Id, key: string, at: int)
    requires Inv(s) && w in s.workers && s.workers[w] == Stamped(id, key, at) && id in s.story
    ensures Inv(DoUpdate(s, w, id, key, at)) && Grows(s, DoUpdate(s, w, id, key, at))
  {
    if s.rows[id].used.None? {
      ClaimKeeps(s, w, id, key, at);
    } else {
      assert DoUpdate(s, w, id, key, at) == Goto(s, w, Ended);
      MoveKeeps(s, w, Ended);
    }
  }

  lemma AnswerStep(s: World, w: nat, id: Id, key: string)
    requires id in s.rows && RowSound(s, id) && w in s.workers && s.workers[w] == Claimed(id, key) && WorkerSound(s, w)
    ensures var s' := DoAnswer(s, w, id, key); RowSound(s', id) && s'.story[id].answers == [s.story[id].minted]
  {
  }

  lemma AnsweredRow(s: World, w: nat, id: Id, key: string, o: Id)
    requires id in s.rows && RowSound(s, id) && w in s.workers && s.workers[w] == Claimed(id, key) && WorkerSound(s, w)
    requires o in s.rows && RowSound(s, o)
    ensures RowSound(DoAnswer(s, w, id, key), o)
  {
    if o == id { AnswerStep(s, w, id, key); } else { RowStaysSound(s, DoAnswer(s, w, id, key), w, o); }
  }

  lemma AnswerGrows(s: World, w: nat, id: Id, key: string)
    requires id in s.story
    ensures Grows(s, DoAnswer(s, w, id, key))
  {
  }

  lemma AnswerKeeps(s: World, w: nat, id: Id, key: string)
    requires Inv(s) && w in s.workers && s.workers[w] == Claimed(id, key) && id in s.story
    ensures Inv(DoAnswer(s, w, id, key)) && Grows(s, DoAnswer(s, w, id, key))
  {
    assert WorkerSound(s, w) && RowSound(s, id);
    var s' := DoAnswer(s, w, id, key);
    AnswerGrows(s, w, id, key);
    WorkersStaySound(s, s', w);
    forall o | o in s.rows ensures RowSound(s', o) { AnsweredRow(s, w, id, key, o); }
  }

  lemma ListedRow(s: World, w: nat, before: int, id: Id)
    requires id in s.rows && RowSound(s, id) && w in s.workers && s.workers[w] == Cutoff(before) && WorkerSound(s, w)
    ensures RowSound(DoList(s, w, before), id)
  {
    var s' := DoList(s, w, before);
    if !Stale(s.rows[id], before) { RowStaysSound(s, s', w, id); }
  }

  lemma ListGrows(s: World, w: nat, before: int)
    ensures Grows(s, DoList(s, w, before))
  {
  }

  lemma ListerSound(s: World, w: nat, before: int)
    requires s.story.Keys == s.rows.Keys && before <= s.now - s.ttl
    ensures WorkerSound(DoList(s, w, before), w)
  {
  }

  lemma ListedRows(s: World, w: nat, before: int)
    requires Inv(s) && w in s.workers && s.workers[w] == Cutoff(before)
    ensures AllRows(DoList(s, w, before))
  {
    assert WorkerSound(s, w);
    forall id | id in s.rows ensures RowSound(DoList(s, w, before), id) { ListedRow(s, w, before, id); }
  }

  lemma ListKeeps(s: World, w: nat, before: int)
    requires Inv(s) && w in s.workers && s.workers[w] == Cutoff(before)
    ensures Inv(DoList(s, w, before)) && Grows(s, DoList(s, w, before))
  {
    assert WorkerSound(s, w);
    ListGrows(s, w, before);
    ListerSound(s, w, before);
    ListedRows(s, w, before);
    WorkersStaySound(s, DoList(s, w, before), w);
  }

  lemma DeactivatedRow(s: World, w: nat, before: int, ids: set<Id>, id: Id)
    requires id in s.rows && RowSound(s, id) && w in s.workers && s.workers[w] == Listed(before, ids) &&
             WorkerSound(s, w)
    ensures RowSound(DoDeactivate(s, w, before, ids), id)
  {
    RowStaysSound(s, DoDeactivate(s, w, before, ids), w, id);
  }

  lemma DeactivateKeeps(s: World, w: nat, before: int, ids: set<Id>)
    requires Inv(s) && w in s.workers && s.workers[w] == Listed(before, ids)
    ensures Inv(DoDeactivate(s, w, before, ids)) && Grows(s, DoDeactivate(s, w, before, ids))
  {
    assert WorkerSound(s, w);
    var s' := DoDeactivate(s, w, before, ids);
    assert Grows(s, s');
    CoversStays(s, s', before, ids, s'.dead);
    WorkersStaySound(s, s', w);
    forall id | id in s.rows ensures RowSound(s', id) { DeactivatedRow(s, w, before, ids, id); }
  }

  lemma ScrubbedRow(s: World, w: nat, before: int, id: Id)
    requires id in s.rows && RowSound(s, id) && w in s.workers && s.workers[w] == Deactivated(before) &&
             WorkerSound(s, w)
    ensures RowSound(DoScrub(s, w, before), id)
  {
    var s' := DoScrub(s, w, before);
    if !Stale(s.rows[id], before) { RowStaysSound(s, s', w, id); }
  }

  lemma ScrubGrows(s: World, w: nat, before: int)
    ensures Grows(s, DoScrub(s, w, before))
  {
  }

  lemma ScrubKeeps(s: World, w: nat, before: int)
    requires Inv(s) && w in s.workers && s.workers[w] == Deactivated(before)
    ensures Inv(DoScrub(s, w, before)) && Grows(s, DoScrub(s, w, before))
  {
    assert WorkerSound(s, w);
    var s' := DoScrub(s, w, before);
    ScrubGrows(s, w, before);
    WorkersStaySound(s, s', w);
    forall id | id in s.rows ensures RowSound(s', id) { ScrubbedRow(s, w, before, id); }
  }

  lemma TickedRow(s: World, elapsed: nat, id: Id)
    requires id in s.rows && RowSound(s, id)
    ensures RowSound(DoTick(s, elapsed), id)
  {
    RowStaysSound(s, DoTick(s, elapsed), 0, id);
  }

  lemma TickKeeps(s: World, elapsed: nat)
    requires Inv(s)
    ensures Inv(DoTick(s, elapsed)) && Grows(s, DoTick(s, elapsed))
  {
    var s' := DoTick(s, elapsed);
    assert Grows(s, s');
    forall w | w in s'.workers ensures WorkerSound(s', w) { WorkerStaysSound(s, s', w); }
    forall id | id in s.rows ensures RowSound(s', id) { TickedRow(s, elapsed, id); }
  }

  lemma MintedRow(s: World, id: Id, key: string, redirect: string, challenge: string, o: Id)
    requires id !in s.rows && id !in s.dead && key != "" && o in s.rows && RowSound(s, o)
    ensures RowSound(DoMint(s, id, key, redirect, challenge), o)
  {
    RowStaysSound(s, DoMint(s, id, key, redirect, challenge), 0, o);
  }

  lemma MintKeeps(s: World, id: Id, key: string, redirect: string, challenge: string)
    requires Inv(s) && id !in s.rows && key != ""
    ensures Inv(DoMint(s, id, key, redirect, challenge)) && Grows(s, DoMint(s, id, key, redirect, challenge))
  {
    var s' := DoMint(s, id, key, redirect, challenge);
    assert Grows(s, s');
    forall w | w in s'.workers ensures WorkerSound(s', w) { WorkerStaysSound(s, s', w); }
    forall o | o in s'.rows ensures RowSound(s', o) { if o != id { MintedRow(s, id, key, redirect, challenge, o); } }
  }

  lemma RequestKeeps(s: World, w: nat, step: Step)
    requires Inv(s) && w in s.workers && (step.Check? || step.Stamp? || step.Update? || step.Answer?)
    ensures Inv(WorkerStep(s, w, step)) && Grows(s, WorkerStep(s, w, step))
  {
    var pc := s.workers[w];
    assert WorkerSound(s, w);
    if step.Check? && pc.Loaded? {
      CheckKeeps(s, w, pc.id, pc.row, pc.shown);
    } else if step.Stamp? && pc.Passed? {
      MoveKeeps(s, w, Stamped(pc.id, pc.key, s.now));
    } else if step.Update? && pc.Stamped? {
      UpdateKeeps(s, w, pc.id, pc.key, pc.at);
    } else if step.Answer? && pc.Claimed? {
      AnswerKeeps(s, w, pc.id, pc.key);
    } else {
      assert WorkerStep(s, w, step) == s;
    }
  }

  lemma SweepStatement(s: World, w: nat, step: Step, pc: Pc)
    requires w in s.workers && pc == s.workers[w] && (step.List? || step.Deactivate? || step.Scrub?)
    ensures WorkerStep(s, w, step)
         == if step.List? && pc.Cutoff? then DoList(s, w, pc.before)
            else if step.Deactivate? && pc.Listed? then DoDeactivate(s, w, pc.before, pc.ids)
            else if step.Scrub? && pc.Deactivated? then DoScrub(s, w, pc.before)
            else s
  {
  }

  lemma SweepKeeps(s: World, w: nat, step: Step)
    requires Inv(s) && w in s.workers && (step.List? || step.Deactivate? || step.Scrub?)
    ensures Inv(WorkerStep(s, w, step)) && Grows(s, WorkerStep(s, w, step))
  {
    var pc := s.workers[w];
    SweepStatement(s, w, step, pc);
    SweepStatementKeeps(s, w, step, pc);
  }

  lemma SweepStatementKeeps(s: World, w: nat, step: Step, pc: Pc)
    requires Inv(s) && w in s.workers && pc == s.workers[w]
    ensures step.List? && pc.Cutoff? ==> Inv(DoList(s, w, pc.before)) && Grows(s, DoList(s, w, pc.before))
    ensures step.Deactivate? && pc.Listed? ==>
              Inv(DoDeactivate(s, w, pc.before, pc.ids)) && Grows(s, DoDeactivate(s, w, pc.before, pc.ids))
    ensures step.Scrub? && pc.Deactivated? ==> Inv(DoScrub(s, w, pc.before)) && Grows(s, DoScrub(s, w, pc.before))
    ensures Grows(s, s)
  {
    if step.List? && pc.Cutoff? { ListKeeps(s, w, pc.before); }
    if step.Deactivate? && pc.Listed? { DeactivateKeeps(s, w, pc.before, pc.ids); }
    if step.Scrub? && pc.Deactivated? { ScrubKeeps(s, w, pc.before); }
  }

  lemma ArrivalKeeps(s: World, step: Step)
    requires Inv(s) && (step.Load? || step.BeginSweep?)
    ensures Inv(Next(s, step)) && Grows(s, Next(s, step))
  {
    if step.Load? {
      LoadArrives(s, step.w, step.id, step.shown);
    } else {
      SweepArrives(s, step.w);
    }
  }

  lemma LoadArrives(s: World, w: nat, id: Id, shown: Presented)
    requires Inv(s)
    ensures Inv(Next(s, Load(w, id, shown))) && Grows(s, Next(s, Load(w, id, shown)))
  {
    if w !in s.workers && id in s.rows {
      LoadKeeps(s, w, id, shown);
      assert Next(s, Load(w, id, shown)) == DoLoad(s, w, id, shown);
    } else {
      assert Next(s, Load(w, id, shown)) == s;
    }
  }

  lemma SweepArrives(s: World, w: nat)
    requires Inv(s)
    ensures Inv(Next(s, BeginSweep(w))) && Grows(s, Next(s, BeginSweep(w)))
  {
    if w !in s.workers {
      MoveKeeps(s, w, Cutoff(s.now - s.ttl));
      assert Next(s, BeginSweep(w)) == Goto(s, w, Cutoff(s.now - s.ttl));
    } else {
      assert Next(s, BeginSweep(w)) == s;
    }
  }

  lemma LoadKeeps(s: World, w: nat, id: Id, shown: Presented)
    requires Inv(s) && w !in s.workers && id in s.rows
    ensures Inv(DoLoad(s, w, id, shown)) && Grows(s, DoLoad(s, w, id, shown))
  {
    assert RowSound(s, id);
    NoteKeeps(s, w, shown);
    MoveKeeps(s.(shown := s.shown[w := shown]), w, Loaded(id, s.rows[id], shown));
  }

  /** The invariant does not rest on what was presented. */
  lemma NoteKeeps(s: World, w: nat, shown: Presented)
    requires Inv(s)
    ensures Inv(s.(shown := s.shown[w := shown])) && Grows(s, s.(shown := s.shown[w := shown]))
  {
    var s' := s.(shown := s.shown[w := shown]);
    forall o | o in s'.workers ensures WorkerSound(s', o) { WorkerStaysSound(s, s', o); }
    forall id | id in s'.rows ensures RowSound(s', id) { RowStaysSound(s, s', w, id); }
  }

  lemma NextKeeps(s: World, step: Step)
    requires Inv(s)
    ensures Inv(Next(s, step)) && Grows(s, Next(s, step))
  {
    if step.Tick? {
      TickKeeps(s, step.elapsed);
    } else if step.Mint? {
      if step.id in s.rows || step.key == "" { assert Next(s, step) == s; }
      else { MintKeeps(s, step.id, step.key, step.redirect, step.challenge); }
    } else if step.Load? || step.BeginSweep? {
      ArrivalKeeps(s, step);
    } else if step.w in s.workers {
      assert Next(s, step) == WorkerStep(s, step.w, step);
      if step.List? || step.Deactivate? || step.Scrub? { SweepKeeps(s, step.w, step); }
        else { RequestKeeps(s, step.w, step); }
    } else {
      assert Next(s, step) == s;
    }
  }

  lemma GrowsTransitive(a: World, b: World, c: World)
    requires Grows(a, b) && Grows(b, c)
    ensures Grows(a, c)
  {
  }

  lemma {:induction false} RunKeeps(s: World, steps: seq<Step>)
    requires Inv(s)
    ensures Inv(Run(s, steps)) && Grows(s, Run(s, steps))
    decreases |steps|
  {
    if steps != [] {
      NextKeeps(s, steps[0]);
      RunKeeps(Next(s, steps[0]), steps[1..]);
      GrowsTransitive(s, Next(s, steps[0]), Run(s, steps));
    }
  }

  // ---- theorems ----

  predicate AllEnded(s: World) { forall w :: w in s.workers ==> s.workers[w].Ended? }

  /** MAIN: in every interleaving at most one answer per code carries a key, that key is the one minted
      with the code, a used row stores no key, and when all workers are done a code has been answered
      exactly when it is used. */
  lemma RedeemedAtMostOnce(ttl: nat, start: int, steps: seq<Step>, id: Id)
    requires id in Run(Start(ttl, start), steps).rows
    ensures var s := Run(Start(ttl, start), steps);
            && id in s.story
            && (s.story[id].answers == [] || s.story[id].answers == [s.story[id].minted])
            && (s.rows[id].used.Some? ==> s.rows[id].key == "")
            && (s.rows[id].used.None? ==> s.story[id].answers == [])
            && (AllEnded(s) && s.rows[id].used.Some? ==> s.story[id].answers == [s.story[id].minted])
  {
    RunKeeps(Start(ttl, start), steps);
    assert RowSound(Run(Start(ttl, start), steps), id);
  }

  /** MAIN: once a code is used, its time of use and its claimant never change. */
  lemma UseIsFinal(ttl: nat, start: int, before: seq<Step>, after: seq<Step>, id: Id)
    requires id in Run(Start(ttl, start), before).rows && Run(Start(ttl, start), before).rows[id].used.Some?
    ensures var s := Run(Start(ttl, start), before);
            var s' := Run(s, after);
            && id in s'.rows && s'.rows[id].used == s.rows[id].used && s'.rows[id].key == ""
            && id in s.story && id in s'.story && s'.story[id].winner == s.story[id].winner
  {
    RunKeeps(Start(ttl, start), before);
    var s := Run(Start(ttl, start), before);
    RunKeeps(s, after);
    assert RowSound(s, id) && RowSound(Run(s, after), id);
  }

  lemma NextIsAnswer(s: World, w: nat)
    requires w in s.workers && s.workers[w].Claimed? && s.workers[w].id in s.story
    ensures Next(s, Answer(w)) == DoAnswer(s, w, s.workers[w].id, s.workers[w].key)
  {
  }

  lemma AnswerFollows(s: World, w: nat)
    requires Inv(s) && w in s.workers && s.workers[w].Claimed?
    ensures var pc := s.workers[w];
            && pc.key != "" && pc.id in s.story && s.story[pc.id].answers == []
            && var s' := Next(s, Answer(w)); pc.id in s'.story && s'.story[pc.id].answers == [s.story[pc.id].minted]
  {
    var pc := s.workers[w];
    assert WorkerSound(s, w) && RowSound(s, pc.id);
    AnswerStep(s, w, pc.id, pc.key);
    NextIsAnswer(s, w);
  }

  /** MAIN: a request that passed the checks holds the code's own key, so a won claim always answers:
      the branch "Key already revealed" is never taken. */
  lemma ClaimAlwaysAnswers(ttl: nat, start: int, steps: seq<Step>, w: nat)
    requires w in Run(Start(ttl, start), steps).workers && Run(Start(ttl, start), steps).workers[w].Claimed?
    ensures var s := Run(Start(ttl, start), steps);
            var pc := s.workers[w];
            && pc.key != "" && pc.id in s.story && s.story[pc.id].answers == []
            && var s' := Next(s, Answer(w)); pc.id in s'.story && s'.story[pc.id].answers == [s.story[pc.id].minted]
  {
    RunKeeps(Start(ttl, start), steps);
    AnswerFollows(Run(Start(ttl, start), steps), w);
  }

  /** MAIN: a code claimed within its life has a live token; a code that a sweep stripped unredeemed has
      a dead one; and with all workers done the dead tokens are those of the codes some sweep listed. */
  lemma TokensOfCodes(ttl: nat, start: int, steps: seq<Step>, id: Id)
    requires id in Run(Start(ttl, start), steps).rows
    ensures var s := Run(Start(ttl, start), steps);
            var row := s.rows[id];
            && id in s.story
            && (row.used.Some? && s.story[id].claimedAt - row.created <= s.ttl ==> id !in s.dead)
            && (row.used.None? && row.key == "" ==> id in s.dead)
            && (id in s.dead ==> s.now - row.created > s.ttl)
            && (AllEnded(s) ==> (id in s.dead <==> s.story[id].lister.Some?))
  {
    RunKeeps(Start(ttl, start), steps);
    assert RowSound(Run(Start(ttl, start), steps), id);
  }

  // ---- who gets a key ----

  /** Whoever presents this may have the code's key: the digest of the verifier is the code's challenge, and a redirect
      URI, if there is one, is the code's. */
  predicate Entitled(row: Code, shown: Presented) {
    row.challenge != "" && shown.proof == row.challenge && (shown.redirect != "" ==> shown.redirect == row.redirect)
  }

  /** A request past its checks was entitled to its code; one before them still holds what it presented. */
  predicate PcEntitled(s: World, w: nat)
    requires w in s.workers
  {
    match s.workers[w]
    case Loaded(id, row, shown) =>
      && id in s.rows && row.challenge == s.rows[id].challenge && row.redirect == s.rows[id].redirect
      && w in s.shown && s.shown[w] == shown
    case Passed(id, _) => id in s.rows && w in s.shown && Entitled(s.rows[id], s.shown[w])
    case Stamped(id, _, _) => id in s.rows && w in s.shown && Entitled(s.rows[id], s.shown[w])
    case _ => true
  }

  predicate WinnerEntitled(s: World, id: Id)
    requires id in s.story
  {
    s.story[id].winner.Some? ==>
      id in s.rows && s.story[id].winner.value in s.shown && Entitled(s.rows[id], s.shown[s.story[id].winner.value])
  }

  ghost predicate AllEntitled(s: World) {
    && s.shown.Keys <= s.workers.Keys
    && (forall w :: w in s.workers ==> PcEntitled(s, w)) && (forall id :: id in s.story ==> WinnerEntitled(s, id))
  }

  /** What was presented, and what codes are bound to, stays. */
  ghost predicate SameBindings(s: World, s': World) {
    && (forall w :: w in s.shown ==> w in s'.shown && s'.shown[w] == s.shown[w])
    && (forall id :: id in s.rows ==>
          id in s'.rows && s'.rows[id].challenge == s.rows[id].challenge && s'.rows[id].redirect == s.rows[id].redirect)
  }

  lemma OneMoves(s: World, s': World, w: nat)
    requires AllEntitled(s) && SameBindings(s, s') && s'.shown.Keys <= s'.workers.Keys
    requires forall o :: o in s'.workers && o != w ==> o in s.workers && s'.workers[o] == s.workers[o]
    requires w in s'.workers ==> PcEntitled(s', w)
    requires forall id :: id in s'.story ==>
               (id in s.story && s'.story[id].winner == s.story[id].winner) || WinnerEntitled(s', id)
    ensures AllEntitled(s')
  {
    forall o | o in s'.workers ensures PcEntitled(s', o) { if o != w { assert PcEntitled(s, o); } }
    forall id | id in s'.story ensures WinnerEntitled(s', id) { if id in s.story { assert WinnerEntitled(s, id); } }
  }

  lemma CheckEntitled(s: World, w: nat, id: Id, row: Code, shown: Presented)
    requires AllEntitled(s) && w in s.workers && s.workers[w] == Loaded(id, row, shown)
    ensures AllEntitled(DoCheck(s, w, id, row, shown))
  {
    assert PcEntitled(s, w);
    CheckedEntitled(s, w, id, row, shown, CheckedPc(s, id, row, shown));
    MoveEntitled(s, w, CheckedPc(s, id, row, shown));
  }

  lemma CheckedEntitled(s: World, w: nat, id: Id, row: Code, shown: Presented, pc: Pc)
    requires w in s.workers && s.workers[w] == Loaded(id, row, shown) && PcEntitled(s, w)
    requires pc == CheckedPc(s, id, row, shown)
    ensures DoCheck(s, w, id, row, shown) == Goto(s, w, pc) && PcEntitled(Goto(s, w, pc), w)
  {
  }

  lemma UpdateEntitled(s: World, w: nat, id: Id, key: string, at: int)
    requires AllEntitled(s) && w in s.workers && s.workers[w] == Stamped(id, key, at) && id in s.story
    ensures AllEntitled(DoUpdate(s, w, id, key, at))
  {
    assert PcEntitled(s, w);
    OneMoves(s, DoUpdate(s, w, id, key, at), w);
  }

  lemma MoveEntitled(s: World, w: nat, pc: Pc)
    requires AllEntitled(s) && PcEntitled(Goto(s, w, pc), w)
    ensures AllEntitled(Goto(s, w, pc))
  {
    OneMoves(s, Goto(s, w, pc), w);
  }

  lemma RequestEntitled(s: World, w: nat, step: Step)
    requires AllEntitled(s) && w in s.workers && (step.Check? || step.Stamp? || step.Update? || step.Answer?)
    ensures AllEntitled(WorkerStep(s, w, step))
  {
    var pc := s.workers[w];
    assert PcEntitled(s, w);
    if step.Check? && pc.Loaded? {
      CheckEntitled(s, w, pc.id, pc.row, pc.shown);
    } else if step.Stamp? && pc.Passed? {
      MoveEntitled(s, w, Stamped(pc.id, pc.key, s.now));
    } else if step.Update? && pc.Stamped? && pc.id in s.story {
      UpdateEntitled(s, w, pc.id, pc.key, pc.at);
    } else if step.Answer? && pc.Claimed? && pc.id in s.story {
      OneMoves(s, DoAnswer(s, w, pc.id, pc.key), w);
    } else {
      assert WorkerStep(s, w, step) == s;
    }
  }

  lemma ListEntitled(s: World, w: nat, before: int)
    requires AllEntitled(s) && w in s.workers
    ensures AllEntitled(DoList(s, w, before))
  {
    OneMoves(s, DoList(s, w, before), w);
  }

  lemma DeactivateEntitled(s: World, w: nat, before: int, ids: set<Id>)
    requires AllEntitled(s) && w in s.workers
    ensures AllEntitled(DoDeactivate(s, w, before, ids))
  {
    OneMoves(s, DoDeactivate(s, w, before, ids), w);
  }

  lemma ScrubEntitled(s: World, w: nat, before: int)
    requires AllEntitled(s) && w in s.workers
    ensures AllEntitled(DoScrub(s, w, before))
  {
    OneMoves(s, DoScrub(s, w, before), w);
  }

  lemma SweepEntitled(s: World, w: nat, step: Step)
    requires AllEntitled(s) && w in s.workers && (step.List? || step.Deactivate? || step.Scrub?)
    ensures AllEntitled(WorkerStep(s, w, step))
  {
    var pc := s.workers[w];
    if step.List? && pc.Cutoff? {
      ListEntitled(s, w, pc.before);
    } else if step.Deactivate? && pc.Listed? {
      DeactivateEntitled(s, w, pc.before, pc.ids);
    } else if step.Scrub? && pc.Deactivated? {
      ScrubEntitled(s, w, pc.before);
    } else {
      assert WorkerStep(s, w, step) == s;
    }
  }

  lemma LoadEntitled(s: World, w: nat, id: Id, shown: Presented)
    requires AllEntitled(s) && w !in s.workers && id in s.rows
    ensures AllEntitled(DoLoad(s, w, id, shown))
  {
    OneMoves(s, DoLoad(s, w, id, shown), w);
  }

  lemma NextEntitled(s: World, step: Step)
    requires AllEntitled(s)
    ensures AllEntitled(Next(s, step))
  {
    if step.Tick? {
      OneMoves(s, DoTick(s, step.elapsed), 0);
    } else if step.Mint? {
      if step.id !in s.rows && step.key != "" { MintEntitled(s, step.id, step.key, step.redirect, step.challenge); }
    } else if step.Load? {
      if step.w !in s.workers && step.id in s.rows { LoadEntitled(s, step.w, step.id, step.shown); }
    } else if step.BeginSweep? {
      if step.w !in s.workers { MoveEntitled(s, step.w, Cutoff(s.now - s.ttl)); }
    } else if step.w in s.workers {
      if step.List? || step.Deactivate? || step.Scrub? {
        SweepEntitled(s, step.w, step);
      } else {
        RequestEntitled(s, step.w, step);
      }
    }
  }

  lemma MintEntitled(s: World, id: Id, key: string, redirect: string, challenge: string)
    requires AllEntitled(s) && id !in s.rows
    ensures AllEntitled(DoMint(s, id, key, redirect, challenge))
  {
    var s' := DoMint(s, id, key, redirect, challenge);
    forall w | w in s'.workers ensures PcEntitled(s', w) { assert PcEntitled(s, w); }
    forall o | o in s'.story ensures WinnerEntitled(s', o) { if o != id { assert WinnerEntitled(s, o); } }
  }

  lemma {:induction false} RunEntitled(s: World, steps: seq<Step>)
    requires AllEntitled(s)
    ensures AllEntitled(Run(s, steps))
    decreases |steps|
  {
    if steps != [] {
      NextEntitled(s, steps[0]);
      RunEntitled(Next(s, steps[0]), steps[1..]);
    }
  }

  /** MAIN: in every interleaving, a key that went out went to a request whose verifier's digest is the code's challenge
      and whose redirect URI, if it gave one, is the code's. */
  lemma KeysGoToTheEntitled(ttl: nat, start: int, steps: seq<Step>, id: Id) returns (w: nat)
    requires id in Run(Start(ttl, start), steps).story && Run(Start(ttl, start), steps).story[id].answers != []
    ensures var s := Run(Start(ttl, start), steps);
            && id in s.rows && s.story[id].winner == Some(w) && w in s.shown
            && s.shown[w].proof == s.rows[id].challenge != ""
            && (s.shown[w].redirect == "" || s.shown[w].redirect == s.rows[id].redirect)
  {
    var s := Run(Start(ttl, start), steps);
    RunKeeps(Start(ttl, start), steps);
    RunEntitled(Start(ttl, start), steps);
    assert RowSound(s, id) && WinnerEntitled(s, id);
    w := s.story[id].winner.value;
  }

  // ---- a late claim ----

  lemma RunStep(s: World, step: Step, rest: seq<Step>)
    ensures Run(s, [step] + rest) == Run(Next(s, step), rest)
  {
    assert ([step] + rest)[1..] == rest;
  }

  lemma RunNothing(s: World)
    ensures Run(s, []) == s
  {
  }

  /** A world with one code, minted at 0 with key "key", at the instant `delay`. */
  function Late(ttl: nat, delay: nat, row: Code, dead: set<Id>, workers: map<nat, Pc>, story: Story): World {
    World(ttl, delay, map[Id(1) := row], dead, workers, map[Id(1) := story], map[0 := Presented("uri", "c")])
  }

  const ROW := Code("key", "uri", "c", 0, None)
  const BORN := Story("key", None, 0, [], None)
  const LISTED := Story("key", None, 0, [], Some(1))

  lemma RequestPassesInTime(ttl: nat, delay: nat, rest: seq<Step>)
    ensures Run(Start(ttl, 0), [Mint(Id(1), "key", "uri", "c")] +
            ([Load(0, Id(1), Presented("uri", "c"))] + ([Check(0)] + ([Tick(delay)] + rest))))
         == Run(Late(ttl, delay, ROW, {}, map[0 := Passed(Id(1), "key")], BORN), rest)
  {
    var s1 := World(ttl, 0, map[Id(1) := ROW], {}, map[], map[Id(1) := BORN], map[]);
    var s2 := s1.(workers := map[0 := Loaded(Id(1), ROW, Presented("uri", "c"))],
                  shown := map[0 := Presented("uri", "c")]);
    var s3 := s2.(workers := map[0 := Passed(Id(1), "key")]);
    RunStep(Start(ttl, 0), Mint(Id(1), "key", "uri", "c"),
            [Load(0, Id(1), Presented("uri", "c"))] + ([Check(0)] + ([Tick(delay)] + rest)));
    assert Next(Start(ttl, 0), Mint(Id(1), "key", "uri", "c")) == s1;
    RunStep(s1, Load(0, Id(1), Presented("uri", "c")), [Check(0)] + ([Tick(delay)] + rest));
    assert Next(s1, Load(0, Id(1), Presented("uri", "c"))) == s2;
    RunStep(s2, Check(0), [Tick(delay)] + rest);
    assert Next(s2, Check(0)) == s3;
    RunStep(s3, Tick(delay), rest);
  }

  const PASSED := Passed(Id(1), "key")

  lemma LateList(ttl: nat, delay: nat)
    requires delay > ttl
    ensures Next(Late(ttl, delay, ROW, {}, map[0 := PASSED, 1 := Cutoff(delay - ttl)], BORN), List(1))
         == Late(ttl, delay, ROW, {}, map[0 := PASSED, 1 := Listed(delay - ttl, {Id(1)})], LISTED)
  {
    var s := Late(ttl, delay, ROW, {}, map[0 := PASSED, 1 := Cutoff(delay - ttl)], BORN);
    assert StaleIds(s.rows, delay - ttl) == {Id(1)};
    assert Next(s, List(1)) == DoList(s, 1, delay - ttl);
    assert DoList(s, 1, delay - ttl).story == map[Id(1) := LISTED];
  }

  lemma LateScrub(ttl: nat, delay: nat)
    requires delay > ttl
    ensures Next(Late(ttl, delay, ROW, {Id(1)}, map[0 := PASSED, 1 := Deactivated(delay - ttl)], LISTED), Scrub(1))
         == Late(ttl, delay, ROW.(key := ""), {Id(1)}, map[0 := PASSED, 1 := Ended], LISTED)
  {
    var s := Late(ttl, delay, ROW, {Id(1)}, map[0 := PASSED, 1 := Deactivated(delay - ttl)], LISTED);
    assert Next(s, Scrub(1)) == DoScrub(s, 1, delay - ttl);
    assert DoScrub(s, 1, delay - ttl).rows == map[Id(1) := ROW.(key := "")];
  }

  lemma SweepLists(ttl: nat, delay: nat, rest: seq<Step>)
    requires delay > ttl
    ensures Run(Late(ttl, delay, ROW, {}, map[0 := PASSED], BORN), [BeginSweep(1)] + ([List(1)] + rest))
         == Run(Late(ttl, delay, ROW, {}, map[0 := PASSED, 1 := Listed(delay - ttl, {Id(1)})], LISTED), rest)
  {
    var s0 := Late(ttl, delay, ROW, {}, map[0 := PASSED], BORN);
    var s1 := Late(ttl, delay, ROW, {}, map[0 := PASSED, 1 := Cutoff(delay - ttl)], BORN);
    RunStep(s0, BeginSweep(1), [List(1)] + rest);
    assert Next(s0, BeginSweep(1)) == s1;
    RunStep(s1, List(1), rest);
    LateList(ttl, delay);
  }

  lemma SweepStrips(ttl: nat, delay: nat, rest: seq<Step>)
    requires delay > ttl
    ensures Run(Late(ttl, delay, ROW, {}, map[0 := PASSED, 1 := Listed(delay - ttl, {Id(1)})], LISTED),
                [Deactivate(1)] + ([Scrub(1)] + rest))
         == Run(Late(ttl, delay, ROW.(key := ""), {Id(1)}, map[0 := PASSED, 1 := Ended], LISTED), rest)
  {
    var s2 := Late(ttl, delay, ROW, {}, map[0 := PASSED, 1 := Listed(delay - ttl, {Id(1)})], LISTED);
    var s3 := Late(ttl, delay, ROW, {Id(1)}, map[0 := PASSED, 1 := Deactivated(delay - ttl)], LISTED);
    RunStep(s2, Deactivate(1), [Scrub(1)] + rest);
    assert Next(s2, Deactivate(1)) == s3;
    RunStep(s3, Scrub(1), rest);
    LateScrub(ttl, delay);
  }

  lemma LateUpdate(ttl: nat, delay: nat)
    ensures Next(Late(ttl, delay, ROW.(key := ""), {Id(1)},
                      map[0 := Stamped(Id(1), "key", delay), 1 := Ended], LISTED), Update(0))
         == Late(ttl, delay, ROW.(key := "", used := Some(delay)), {Id(1)},
           map[0 := Claimed(Id(1), "key"), 1 := Ended], Story("key", Some(0), delay, [], Some(1)))
  {
    var s := Late(ttl, delay, ROW.(key := ""), {Id(1)}, map[0 := Stamped(Id(1), "key", delay), 1 := Ended], LISTED);
    assert Next(s, Update(0)) == DoUpdate(s, 0, Id(1), "key", delay);
  }

  lemma LateAnswer(ttl: nat, delay: nat)
    ensures Next(Late(ttl, delay, ROW.(key := "", used := Some(delay)), {Id(1)},
            map[0 := Claimed(Id(1), "key"), 1 := Ended], Story("key", Some(0), delay, [], Some(1))), Answer(0))
         == Late(ttl, delay, ROW.(key := "", used := Some(delay)), {Id(1)}, map[0 := Ended, 1 := Ended],
           Story("key", Some(0), delay, ["key"], Some(1)))
  {
    var s := Late(ttl, delay, ROW.(key := "", used := Some(delay)), {Id(1)},
      map[0 := Claimed(Id(1), "key"), 1 := Ended], Story("key", Some(0), delay, [], Some(1)));
    assert Next(s, Answer(0)) == DoAnswer(s, 0, Id(1), "key");
    assert [] + ["key"] == ["key"];
  }

  lemma ClaimStillWins(ttl: nat, delay: nat)
    ensures Run(Late(ttl, delay, ROW.(key := ""), {Id(1)}, map[0 := PASSED, 1 := Ended], LISTED),
                [Stamp(0)] + ([Update(0)] + ([Answer(0)] + [])))
         == Late(ttl, delay, ROW.(key := "", used := Some(delay)), {Id(1)}, map[0 := Ended, 1 := Ended],
           Story("key", Some(0), delay, ["key"], Some(1)))
  {
    var s0 := Late(ttl, delay, ROW.(key := ""), {Id(1)}, map[0 := PASSED, 1 := Ended], LISTED);
    var s1 := Late(ttl, delay, ROW.(key := ""), {Id(1)}, map[0 := Stamped(Id(1), "key", delay), 1 := Ended], LISTED);
    RunStep(s0, Stamp(0), [Update(0)] + ([Answer(0)] + []));
    assert Next(s0, Stamp(0)) == s1;
    RunStep(s1, Update(0), [Answer(0)] + []);
    LateUpdate(ttl, delay);
    var s2 := Late(ttl, delay, ROW.(key := "", used := Some(delay)), {Id(1)},
      map[0 := Claimed(Id(1), "key"), 1 := Ended], Story("key", Some(0), delay, [], Some(1)));
    assert Next(s1, Update(0)) == s2;
    RunStep(s2, Answer(0), []);
    LateAnswer(ttl, delay);
    RunNothing(Next(s2, Answer(0)));
    assert Run(s1, [Update(0)] + ([Answer(0)] + [])) == Run(s2, [Answer(0)] + []);
    assert Run(s2, [Answer(0)] + []) == Next(s2, Answer(0));
  }

  /** The claim's WHERE looks neither at the key nor at the age: a request that passed its checks in time
      but claims late delivers the key of a token that a sweep has deactivated meanwhile. */
  lemma LateClaimDeliversDeadKey(ttl: nat, delay: nat) returns (steps: seq<Step>)
    requires delay > ttl
    ensures var s := Run(Start(ttl, 0), steps);
            ClaimedAfter(s, Id(1), delay) && s.story[Id(1)].answers == ["key"] && Id(1) in s.dead
  {
    var claim := [Stamp(0)] + ([Update(0)] + ([Answer(0)] + []));
    var sweep := [BeginSweep(1)] + ([List(1)] + ([Deactivate(1)] + ([Scrub(1)] + claim)));
    steps := [Mint(Id(1), "key", "uri", "c")] + ([Load(0, Id(1), Presented("uri", "c"))] +
      ([Check(0)] + ([Tick(delay)] + sweep)));
    RequestPassesInTime(ttl, delay, sweep);
    SweepLists(ttl, delay, [Deactivate(1)] + ([Scrub(1)] + claim));
    SweepStrips(ttl, delay, claim);
    ClaimStillWins(ttl, delay);
  }

  /** All workers are done, and the code was claimed this long after it was minted. */
  ghost predicate ClaimedAfter(s: World, id: Id, delay: int) {
    && id in s.rows && id in s.story && AllEnded(s)
    && s.rows[id].used.Some? && s.story[id].claimedAt - s.rows[id].created == delay
  }

  /** However the statements fall, the key delivered with this code opens something. */
  ghost predicate AlwaysLive(ttl: nat, delay: int) {
    forall start: int, steps: seq<Step>, id: Id ::
      ClaimedAfter(Run(Start(ttl, start), steps), id, delay) ==> id !in Run(Start(ttl, start), steps).dead
  }

  /** MAIN: a claim made `delay` after the code was minted delivers a live key in every finished run iff
      the code was still within its life, so the age that counts is the claim's and not the check's. */
  lemma DeliveredKeyLiveIff(ttl: nat, delay: nat)
    ensures AlwaysLive(ttl, delay) <==> delay <= ttl
  {
    if delay <= ttl {
      forall start: int, steps: seq<Step>, id: Id | ClaimedAfter(Run(Start(ttl, start), steps), id, delay)
        ensures id !in Run(Start(ttl, start), steps).dead
      {
        TokensOfCodes(ttl, start, steps, id);
        TtlIsFixed(Start(ttl, start), steps);
      }
    } else {
      var steps := LateClaimDeliversDeadKey(ttl, delay);
      assert ClaimedAfter(Run(Start(ttl, 0), steps), Id(1), delay);
    }
  }

  lemma TtlIsFixed(s: World, steps: seq<Step>)
    requires Inv(s)
    ensures Run(s, steps).ttl == s.ttl
  {
    RunKeeps(s, steps);
  }
}
