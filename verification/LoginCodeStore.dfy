/** The login codes as an object: the `verify` action as one request runs it. */
module LoginCodeStore {
  import opened Common
  import opened LoginCodes

  /** No unconsumed code. */
  ghost predicate NoneLeft(rows: map<Id, LoginCode>, user: int) {
    forall o :: o in rows ==> rows[o].user != user || rows[o].consumed
  }

  /** One whole request: `id` is the code it looked at, if there was one to look at: the user's latest unconsumed one.
      With fewer than five attempts and before it expires, it takes an attempt and signs in iff the guess is right. */
  ghost predicate IsVerify(before: map<Id, LoginCode>, user: int, guess: string, now: int,
                           id: Option<Id>, signedIn: bool, after: map<Id, LoginCode>) {
    match id
    case None =>
      && !signedIn && after == before
      && (guess == "" || NoneLeft(before, user))
    case Some(c) =>
      && guess != "" && c in before && before[c].user == user && !before[c].consumed
      && (forall o :: o in before && before[o].user == user && !before[o].consumed ==>
            before[o].created <= before[c].created)
      && var row := before[c];
         if row.attempts >= 5 || row.expires <= now then !signedIn && after == before
         else
           && (signedIn <==> guess == row.secret)
           && after == before[c := LoginCode(row.user, row.secret, row.created, row.expires, row.attempts + 1,
                                             guess == row.secret)]
  }

  class Table {
    var now: int
    var rows: map<Id, LoginCode>

    constructor (now: int)
      ensures this.now == now && rows == map[]
    {
      this.now, rows := now, map[];
    }

    /** `filter(consumed=False).order_by("-created_at").first()`. */
    method Newest(user: int) returns (id: Option<Id>)
      ensures id.Some? ==> IsNewest(rows, user, id.value)
      ensures id.None? ==> NoneLeft(rows, user)
    {
      id := None;
      var rest := rows.Keys;
      while rest != {}
        invariant rest <= rows.Keys
        invariant id.Some? ==> id.value in rows && rows[id.value].user == user && !rows[id.value].consumed
        invariant forall o :: o in rows && o !in rest && rows[o].user == user && !rows[o].consumed ==>
            id.Some? && rows[o].created <= rows[id.value].created
        decreases rest
      {
        var o :| o in rest;
        rest := rest - {o};
        if rows[o].user == user && !rows[o].consumed && (id.None? || rows[o].created > rows[id.value].created) {
          id := Some(o);
        }
      }
    }

    /** `UPDATE ... SET attempts = attempts + 1 WHERE pk AND NOT consumed AND attempts < MAX AND expires_at > now`. */
    method Spend(id: Id) returns (spent: bool)
      modifies `rows
      ensures spent <==> id in old(rows) && IsLive(old(rows)[id], now)
      ensures rows == if spent then old(rows)[id := old(rows)[id].(attempts := old(rows)[id].attempts + 1)]
              else old(rows)
    {
      spent := id in rows && IsLive(rows[id], now);
      if spent { rows := rows[id := rows[id].(attempts := rows[id].attempts + 1)]; }
    }

    /** `UPDATE ... SET consumed WHERE pk AND NOT consumed`. */
    method Consume(id: Id) returns (consumed: bool)
      modifies `rows
      ensures consumed <==> id in old(rows) && !old(rows)[id].consumed
      ensures rows == if consumed then old(rows)[id := old(rows)[id].(consumed := true)] else old(rows)
    {
      consumed := id in rows && !rows[id].consumed;
      if consumed { rows := rows[id := rows[id].(consumed := true)]; }
    }

    /** `verify`: signed in exactly when the newest unconsumed code is live and the guess is right; an
        attempt is spent on every live code, right or wrong. */
    method Verify(user: int, guess: string) returns (signedIn: bool, id: Option<Id>)
      modifies `rows
      ensures IsVerify(old(rows), user, guess, now, id, signedIn, rows)
    {
      if guess == "" { return false, None; }
      id := Newest(user);
      if id.None? { return false, None; }
      var lc := rows[id.value];
      signedIn := false;
      if IsLive(lc, now) {
        var spent := Spend(id.value);
        if spent && guess == lc.secret {
          signedIn := Consume(id.value);
        }
      }
    }
  }

  /** What the request looks at: the newest unconsumed code of the user, unless nothing was submitted. */
  ghost predicate LooksAt(rows: map<Id, LoginCode>, user: int, guess: string, id: Option<Id>) {
    match id
    case None => guess == "" || NoneLeft(rows, user)
    case Some(c) => guess != "" && IsNewest(rows, user, c)
  }

  /** The step names a row to look at, also when there is none to be found. */
  function Named(id: Option<Id>): Id { if id.Some? then id.value else Id(0) }

  /** The interleaved machine, left to one request, writes and answers what the method does: with a live
      code, with one out of time or attempts, and with none. */
  lemma MachineAloneIsVerify(start: int, steps: seq<Step>, w: nat, user: int, guess: string, id: Option<Id>)
    requires w !in Run(Start(start), steps).workers && LooksAt(Run(Start(start), steps).rows, user, guess, id)
    ensures var s := Run(Start(start), steps);
            var s' := Run(s, Alone(w, user, guess, Named(id)));
            IsVerify(s.rows, user, guess, s.now, id, SignedIn(s', id, w, user), s'.rows)
  {
    RunKeeps(Start(start), steps);
    var s := Run(Start(start), steps);
    if id.None? {
      AloneFindsNothing(s, w, user, guess, Named(id));
    } else {
      assert RowSound(s, id.value);
      NewcomerHasNoLogin(s, w, id.value);
      AloneOnCode(s, w, user, guess, id.value);
    }
  }

  lemma AloneOnCode(s: World, w: nat, user: int, guess: string, c: Id)
    requires w !in s.workers && guess != "" && IsNewest(s.rows, user, c) && c in s.story
    requires s.story[c].logins == {} || !IsLive(s.rows[c], s.now)
    requires forall l :: l in s.story[c].logins ==> l.w != w
    ensures var s' := Run(s, Alone(w, user, guess, c));
            IsVerify(s.rows, user, guess, s.now, Some(c), SignedIn(s', Some(c), w, user), s'.rows)
  {
    if IsLive(s.rows[c], s.now) {
      AloneInState(s, w, user, guess, c);
    } else {
      AloneOnShutCode(s, w, user, guess, c);
    }
  }

  predicate SignedIn(s: World, id: Option<Id>, w: nat, user: int) {
    id.Some? && id.value in s.story && Login(w, user) in s.story[id.value].logins
  }

  lemma NewcomerHasNoLogin(s: World, w: nat, id: Id)
    requires id in s.rows && RowSound(s, id) && w !in s.workers
    ensures forall l :: l in s.story[id].logins ==> l.w != w
  {
  }
}
