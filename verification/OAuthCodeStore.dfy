/** The code table as an object: `token` and `expire_unredeemed_codes` as one request runs them. */
module OAuthCodeStore {
  import opened Common
  import opened OAuthCodes

  datatype Reply = Issued(key: string) | UnknownCode | RedirectMismatch | CodeUsed | CodeExpired | PkceFailed |
    KeyRevealed

  /** Which answer a request gets from the table as it is: the first check that fails decides. */
  ghost predicate IsReply(rows: map<Id, Code>, now: int, ttl: nat, code: Id, shown: Presented, reply: Reply) {
    if code !in rows then reply == UnknownCode
    else
      var row := rows[code];
      var bound := shown.redirect == "" || shown.redirect == row.redirect;
      var open := bound && row.used.None?;
      var timely := open && now - row.created <= ttl;
      var admitted := timely && row.challenge != "" && shown.proof == row.challenge;
      && (reply == RedirectMismatch <==> !bound)
      && (reply == CodeUsed <==> bound && row.used.Some?)
      && (reply == CodeExpired <==> open && now - row.created > ttl)
      && (reply == PkceFailed <==> timely && !admitted)
      && (reply == KeyRevealed <==> admitted && row.key == "")
      && (reply == Issued(row.key) <==> admitted && row.key != "")
      && reply != UnknownCode
  }

  /** One whole `token` request: its answer, and the codes and dead tokens it leaves. */
  ghost predicate IsToken(rows: map<Id, Code>, dead: set<Id>, now: int, ttl: nat, code: Id, shown: Presented,
                          reply: Reply, rows': map<Id, Code>, dead': set<Id>) {
    && IsReply(rows, now, ttl, code, shown, reply)
    && (reply.Issued? || reply.KeyRevealed? ==>
          && rows' == rows[code := Code("", rows[code].redirect, rows[code].challenge, rows[code].created, Some(now))]
          && dead' == dead)
    && (reply.CodeExpired? ==> IsExpiry(rows, dead, now, ttl, rows', dead'))
    && (reply in {UnknownCode, RedirectMismatch, CodeUsed, PkceFailed} ==> rows' == rows && dead' == dead)
  }

  /** One whole sweep: the tokens of exactly the unused codes past their life that still hold a key die, and only those
      keys go. */
  ghost predicate IsExpiry(rows: map<Id, Code>, dead: set<Id>, now: int, ttl: nat,
                           rows': map<Id, Code>, dead': set<Id>) {
    && rows'.Keys == rows.Keys
    && (forall id :: id in rows ==>
          rows'[id] == if rows[id].used.None? && now - rows[id].created > ttl then rows[id].(key := "") else rows[id])
    && (forall id :: id in dead' <==>
          id in dead || (id in rows && rows[id].used.None? && now - rows[id].created > ttl && rows[id].key != ""))
  }

  class Table {
    const ttl: nat
    var now: int
    var rows: map<Id, Code>
    var dead: set<Id>

    constructor (ttl: nat, now: int)
      ensures this.ttl == ttl && this.now == now && rows == map[] && dead == {}
    {
      this.ttl, this.now, rows, dead := ttl, now, map[], {};
    }

    /** `expire_unredeemed_codes`. */
    method ExpireUnredeemed() returns (n: nat)
      modifies `rows, `dead
      ensures IsExpiry(old(rows), old(dead), now, ttl, rows, dead)
      ensures n == |StaleIds(old(rows), now - ttl)|
      ensures StaleIds(rows, now - ttl) == {}
    {
      var before := now - ttl;
      var stale := StaleIds(rows, before);
      if stale == {} {
        assert forall id :: id in rows ==> id !in stale;
        return 0;
      }
      dead := dead + stale;
      n := |StaleIds(rows, before)|;
      rows := Scrubbed(rows, before);
    }

    /** `token`, from the lookup on. */
    method Token(code: Id, shown: Presented) returns (reply: Reply)
      modifies `rows, `dead
      ensures IsToken(old(rows), old(dead), now, ttl, code, shown, reply, rows, dead)
    {
      if code !in rows { return UnknownCode; }
      var row := rows[code];
      if shown.redirect != "" && shown.redirect != row.redirect { return RedirectMismatch; }
      if row.used.Some? { return CodeUsed; }
      if now - row.created > ttl {
        var _ := ExpireUnredeemed();
        return CodeExpired;
      }
      if !PkceOk(row, shown) { return PkceFailed; }
      var key := row.key;
      var claimed := Claim(code);
      if !claimed { return CodeUsed; }
      if key == "" { return KeyRevealed; }
      return Issued(key);
    }

    /** `UPDATE ... SET used_at = now, raw_key = '' WHERE pk = code AND used_at IS NULL`. */
    method Claim(code: Id) returns (claimed: bool)
      modifies `rows
      ensures claimed <==> code in old(rows) && old(rows)[code].used.None?
      ensures rows == if claimed then old(rows)[code := old(rows)[code].(used := Some(now), key := "")] else old(rows)
    {
      claimed := code in rows && rows[code].used.None?;
      if claimed { rows := rows[code := rows[code].(used := Some(now), key := "")]; }
    }
  }

  // ---- the interleaved machine, left to one worker ----

  /** All the statements a request may make, in order; those that are not its next one change nothing. */
  function Alone(w: nat, id: Id, shown: Presented): seq<Step> {
    [Load(w, id, shown)] + ([Check(w)] + ([Stamp(w)] + ([Update(w)] + ([Answer(w)] + Sweeping(w, [])))))
  }

  function Sweeping(w: nat, more: seq<Step>): seq<Step> { [List(w)] + ([Deactivate(w)] + ([Scrub(w)] + more)) }

  /** Keys sent in answers to this code. */
  function Answers(s: World, id: Id): seq<string> { if id in s.story then s.story[id].answers else [] }

  function Sent(reply: Reply): seq<string> { if reply.Issued? then [reply.key] else [] }

  /** Nothing has run, or the worker is through. */
  predicate Idle(s: World, w: nat) { w in s.workers ==> s.workers[w].Ended? }

  lemma StepTo(s: World, step: Step, s': World, more: seq<Step>)
    requires Next(s, step) == s'
    ensures Run(s, [step] + more) == Run(s', more)
  {
    RunStep(s, step, more);
  }

  lemma IdleStays(s: World, w: nat, step: Step, more: seq<Step>)
    requires Idle(s, w) && step in {Check(w), Stamp(w), Update(w), Answer(w), List(w), Deactivate(w), Scrub(w)}
    ensures Run(s, [step] + more) == Run(s, more)
  {
    StepTo(s, step, s, more);
  }

  lemma IdleSweeps(s: World, w: nat)
    requires Idle(s, w)
    ensures Run(s, Sweeping(w, [])) == s
  {
    IdleStays(s, w, List(w), [Deactivate(w)] + ([Scrub(w)] + []));
    IdleStays(s, w, Deactivate(w), [Scrub(w)] + []);
    IdleStays(s, w, Scrub(w), []);
  }

  lemma IdleRuns(s: World, w: nat)
    requires Idle(s, w)
    ensures Run(s, [Stamp(w)] + ([Update(w)] + ([Answer(w)] + Sweeping(w, [])))) == s
  {
    IdleStays(s, w, Stamp(w), [Update(w)] + ([Answer(w)] + Sweeping(w, [])));
    IdleStays(s, w, Update(w), [Answer(w)] + Sweeping(w, []));
    IdleStays(s, w, Answer(w), Sweeping(w, []));
    IdleSweeps(s, w);
  }

  // ---- a sweep ----

  /** The world after a sweep, for what it is told by. */
  ghost predicate SweptBy(s: World, s': World, w: nat, before: int) {
    && s'.rows == Scrubbed(s.rows, before) && s'.dead == s.dead + StaleIds(s.rows, before)
    && Idle(s', w) && forall id :: Answers(s', id) == Answers(s, id)
  }

  lemma NothingStale(rows: map<Id, Code>, before: int)
    requires StaleIds(rows, before) == {}
    ensures Scrubbed(rows, before) == rows
  {
    forall id | id in rows ensures !Stale(rows[id], before) { assert id !in StaleIds(rows, before); }
  }

  lemma ListNext(s: World, w: nat, before: int, s1: World)
    requires w in s.workers && s.workers[w] == Cutoff(before) && s1 == DoList(s, w, before)
    ensures Next(s, List(w)) == s1
    ensures s1.rows == s.rows && s1.dead == s.dead && forall id :: Answers(s1, id) == Answers(s, id)
    ensures if StaleIds(s.rows, before) == {} then w in s1.workers && s1.workers[w].Ended?
            else w in s1.workers && s1.workers[w] == Listed(before, StaleIds(s.rows, before))
  {
  }

  lemma DeactivateNext(s: World, w: nat, before: int, ids: set<Id>, s1: World)
    requires w in s.workers && s.workers[w] == Listed(before, ids) && s1 == DoDeactivate(s, w, before, ids)
    ensures Next(s, Deactivate(w)) == s1
  {
  }

  lemma ScrubNext(s: World, w: nat, before: int, s1: World)
    requires w in s.workers && s.workers[w] == Deactivated(before) && s1 == DoScrub(s, w, before)
    ensures Next(s, Scrub(w)) == s1
  {
  }

  lemma SweepRuns(s: World, w: nat, before: int)
    requires w in s.workers && s.workers[w] == Cutoff(before)
    ensures SweptBy(s, Run(s, Sweeping(w, [])), w, before)
  {
    var ids := StaleIds(s.rows, before);
    var s1 := DoList(s, w, before);
    ListNext(s, w, before, s1);
    StepTo(s, List(w), s1, [Deactivate(w)] + ([Scrub(w)] + []));
    if ids == {} {
      IdleStays(s1, w, Deactivate(w), [Scrub(w)] + []);
      IdleStays(s1, w, Scrub(w), []);
      NothingStale(s.rows, before);
    } else {
      var s2 := DoDeactivate(s1, w, before, ids);
      DeactivateNext(s1, w, before, ids, s2);
      StepTo(s1, Deactivate(w), s2, [Scrub(w)] + []);
      ScrubNext(s2, w, before, DoScrub(s2, w, before));
      StepTo(s2, Scrub(w), DoScrub(s2, w, before), []);
    }
  }

  /** MAIN: from every state, a sweep that runs alone leaves what `Table.ExpireUnredeemed` leaves. */
  lemma MachineAloneIsExpiry(s: World, w: nat)
    requires w !in s.workers
    ensures var s' := Run(s, [BeginSweep(w)] + Sweeping(w, []));
            IsExpiry(s.rows, s.dead, s.now, s.ttl, s'.rows, s'.dead) && Idle(s', w)
  {
    var s1 := Goto(s, w, Cutoff(s.now - s.ttl));
    StepTo(s, BeginSweep(w), s1, Sweeping(w, []));
    SweepRuns(s1, w, s.now - s.ttl);
  }

  // ---- a request ----

  lemma CheckNext(s: World, w: nat, id: Id, row: Code, shown: Presented, s1: World)
    requires w in s.workers && s.workers[w] == Loaded(id, row, shown) && s1 == DoCheck(s, w, id, row, shown)
    ensures Next(s, Check(w)) == s1
  {
  }

  lemma PassedNext(s: World, w: nat, id: Id, key: string, s1: World, s2: World)
    requires w in s.workers && s.workers[w] == Passed(id, key) && id in s.story
    requires s1 == Goto(s, w, Stamped(id, key, s.now)) && s2 == DoUpdate(s1, w, id, key, s.now)
    ensures Next(s, Stamp(w)) == s1 && Next(s1, Update(w)) == s2
  {
  }

  lemma AnswerNext(s: World, w: nat, id: Id, key: string, s1: World)
    requires w in s.workers && s.workers[w] == Claimed(id, key) && id in s.story && s1 == DoAnswer(s, w, id, key)
    ensures Next(s, Answer(w)) == s1
    ensures s1.rows == s.rows && s1.dead == s.dead && Idle(s1, w)
    ensures Answers(s1, id) == Answers(s, id) + if key == "" then [] else [key]
  {
  }

  /** A request whose checks pass claims the code and answers with its key, if it still waits. */
  lemma PassedRuns(s: World, w: nat, id: Id, key: string)
    requires w in s.workers && s.workers[w] == Passed(id, key)
    requires id in s.rows && s.rows[id].used.None? && id in s.story
    ensures var s' := Run(s, [Stamp(w)] + ([Update(w)] + ([Answer(w)] + Sweeping(w, []))));
            && s'.rows == s.rows[id := s.rows[id].(used := Some(s.now), key := "")] && s'.dead == s.dead
            && Answers(s', id) == Answers(s, id) + (if key == "" then [] else [key]) && Idle(s', w)
  {
    var s1 := Goto(s, w, Stamped(id, key, s.now));
    var s2 := DoUpdate(s1, w, id, key, s.now);
    var s3 := DoAnswer(s2, w, id, key);
    PassedNext(s, w, id, key, s1, s2);
    StepTo(s, Stamp(w), s1, [Update(w)] + ([Answer(w)] + Sweeping(w, [])));
    StepTo(s1, Update(w), s2, [Answer(w)] + Sweeping(w, []));
    AnswerNext(s2, w, id, key, s3);
    StepTo(s2, Answer(w), s3, Sweeping(w, []));
    IdleSweeps(s3, w);
  }

  lemma CutoffRuns(s: World, w: nat, before: int)
    requires w in s.workers && s.workers[w] == Cutoff(before)
    ensures SweptBy(s, Run(s, [Stamp(w)] + ([Update(w)] + ([Answer(w)] + Sweeping(w, [])))), w, before)
  {
    StepTo(s, Stamp(w), s, [Update(w)] + ([Answer(w)] + Sweeping(w, [])));
    StepTo(s, Update(w), s, [Answer(w)] + Sweeping(w, []));
    StepTo(s, Answer(w), s, Sweeping(w, []));
    SweepRuns(s, w, before);
  }

  /** The request is through, and has sent what it answered. */
  ghost predicate Replied(s: World, s': World, w: nat, id: Id, shown: Presented, reply: Reply) {
    && IsToken(s.rows, s.dead, s.now, s.ttl, id, shown, reply, s'.rows, s'.dead)
    && Answers(s', id) == Answers(s, id) + Sent(reply) && Idle(s', w)
  }

  lemma LoadedRuns(s: World, s0: World, w: nat, id: Id, shown: Presented) returns (reply: Reply)
    requires id in s.rows && id in s.story && s0 == DoLoad(s, w, id, shown)
    ensures Replied(s, Run(s0, [Check(w)] + ([Stamp(w)] + ([Update(w)] + ([Answer(w)] + Sweeping(w, []))))), w, id,
                    shown, reply)
  {
    var row := s.rows[id];
    var s1 := DoCheck(s0, w, id, row, shown);
    CheckNext(s0, w, id, row, shown, s1);
    StepTo(s0, Check(w), s1, [Stamp(w)] + ([Update(w)] + ([Answer(w)] + Sweeping(w, []))));
    if !RedirectOk(row, shown) {
      reply := RedirectMismatch;
      IdleRuns(s1, w);
    } else if row.used.Some? {
      reply := CodeUsed;
      IdleRuns(s1, w);
    } else if s.now - row.created > s.ttl {
      reply := CodeExpired;
      CutoffRuns(s1, w, s.now - s.ttl);
    } else if !PkceOk(row, shown) {
      reply := PkceFailed;
      IdleRuns(s1, w);
    } else {
      reply := if row.key == "" then KeyRevealed else Issued(row.key);
      PassedRuns(s1, w, id, row.key);
    }
  }

  /** MAIN: in every state the machine can reach, a request that runs alone writes and answers what `Table.Token`
      does, whether the code is unknown, used, expired, wrongly presented or good. */
  lemma MachineAloneIsToken(ttl: nat, start: int, steps: seq<Step>, w: nat, id: Id, shown: Presented)
    returns (reply: Reply)
    requires w !in Run(Start(ttl, start), steps).workers
    ensures var s := Run(Start(ttl, start), steps);
            Replied(s, Run(s, Alone(w, id, shown)), w, id, shown, reply)
  {
    var s := Run(Start(ttl, start), steps);
    RunKeeps(Start(ttl, start), steps);
    var rest := [Stamp(w)] + ([Update(w)] + ([Answer(w)] + Sweeping(w, [])));
    if id in s.rows {
      assert RowSound(s, id);
      var s0 := DoLoad(s, w, id, shown);
      StepTo(s, Load(w, id, shown), s0, [Check(w)] + rest);
      reply := LoadedRuns(s, s0, w, id, shown);
    } else {
      reply := UnknownCode;
      StepTo(s, Load(w, id, shown), s, [Check(w)] + rest);
      IdleStays(s, w, Check(w), rest);
      IdleRuns(s, w);
    }
  }
}
