/** Login sessions: a session is accepted only while recorded interactions keep coming less
    than thirty minutes apart, and never again once revoked. */
module Sessions {
  import opened Common

  const IDLE: int := 30 * 60 * SECOND

  datatype Session = Session(user: nat, last: int, revoked: Option<int>)

  type Table = map<nat, Session>

  /** What a request presents is taken: `id` is None when it is no identifier at all. */
  predicate Accepts(t: Table, user: nat, id: Option<nat>, now: int) {
    && id.Some? && id.value in t && t[id.value].user == user
    && t[id.value].revoked.None? && t[id.value].last > now - IDLE
  }

  function Revoke(t: Table, id: nat, now: int): Table {
    if id in t && t[id].revoked.None? then t[id := t[id].(revoked := Some(now))] else t
  }

  /** A request is checked: an idle session is revoked on the spot. */
  function Check(t: Table, user: nat, id: Option<nat>, now: int): Table {
    if id.Some? && id.value in t && t[id.value].user == user && t[id.value].last <= now - IDLE
    then Revoke(t, id.value, now) else t
  }

  predicate Touchable(t: Table, id: nat, now: int) {
    id in t && t[id].revoked.None? && t[id].last > now - IDLE
  }

  function Touch(t: Table, id: nat, now: int): Table {
    if Touchable(t, id, now) then t[id := t[id].(last := now)] else t
  }

  class SessionTable {
    var rows: Table

    method IssueSession(id: nat, user: nat, now: int)
      requires id !in rows
      modifies this
      ensures rows == old(rows)[id := Session(user, now, None)]
    {
      rows := rows[id := Session(user, now, None)];
    }

    method ActiveSession(user: nat, id: Option<nat>, now: int) returns (accepted: bool)
      modifies this
      ensures rows == Check(old(rows), user, id, now)
      ensures accepted <==> Accepts(old(rows), user, id, now)
      ensures accepted ==> rows == old(rows)
    {
      if id.None? {
        return false;
      }
      if id.value !in rows || rows[id.value].user != user || rows[id.value].revoked.Some? {
        return false;
      }
      if rows[id.value].last <= now - IDLE {
        RevokeSession(id, now);
        return false;
      }
      accepted := true;
    }

    /** Move the deadline; `now` and `later` are the clock at the check and at the write. */
    method RecordInteraction(user: nat, id: Option<nat>, now: int, later: int) returns (recorded: bool)
      modifies this
      ensures recorded <==> Accepts(old(rows), user, id, now) && Touchable(old(rows), id.value, later)
      ensures rows == if Accepts(old(rows), user, id, now) then Touch(old(rows), id.value, later)
                      else Check(old(rows), user, id, now)
    {
      var accepted := ActiveSession(user, id, now);
      if !accepted {
        return false;
      }
      var row := rows[id.value];
      if row.revoked.None? && row.last > later - IDLE {
        rows := rows[id.value := row.(last := later)];
        return true;
      }
      recorded := false;
    }

    method RevokeSession(id: Option<nat>, now: int)
      modifies this
      ensures rows == if id.Some? then Revoke(old(rows), id.value, now) else old(rows)
      ensures id.Some? && id.value in rows ==> rows[id.value].revoked.Some?
    {
      if id.None? {
        return;
      }
      if id.value in rows && rows[id.value].revoked.None? {
        rows := rows[id.value := rows[id.value].(revoked := Some(now))];
      }
    }
  }

  // ---- Runs ----

  /** The table under a clock that never goes back. `captured` holds the clock readings of
      writes under way; `recorded`, for each session, its login and every write made. */
  datatype State = State(clock: int, rows: Table, captured: set<(nat, int)>,
                         login: map<nat, int>, recorded: map<nat, set<int>>)

  datatype Event =
    | Tick(elapsed: nat)
    | Login(id: nat, user: nat)
    | Request(user: nat, presented: Option<nat>)
    | Capture(id: nat)
    | Write(id: nat, at: int)
    | Logout(id: nat)

  function Start(clock: int): State {
    State(clock, map[], {}, map[], map[])
  }

  /** One step. A write uses the reading its request took, however long ago. */
  function Step(s: State, e: Event): State {
    match e
    case Tick(elapsed) => s.(clock := s.clock + elapsed)
    case Login(id, user) =>
      if id in s.rows then s
      else s.(rows := s.rows[id := Session(user, s.clock, None)], login := s.login[id := s.clock],
              recorded := s.recorded[id := {s.clock}])
    case Request(user, presented) => s.(rows := Check(s.rows, user, presented, s.clock))
    case Capture(id) => if id in s.rows then s.(captured := s.captured + {(id, s.clock)}) else s
    case Write(id, at) =>
      if (id, at) in s.captured && id in s.recorded && Touchable(s.rows, id, at) then
        s.(rows := Touch(s.rows, id, at), captured := s.captured - {(id, at)},
        recorded := s.recorded[id := s.recorded[id] + {at}])
      else s.(captured := s.captured - {(id, at)})
    case Logout(id) => s.(rows := Revoke(s.rows, id, s.clock))
  }

  function Run(s: State, run: seq<Event>): State
    decreases |run|
  {
    if run == [] then s else Run(Step(s, run[0]), run[1..])
  }

  /** At u some interaction of the session was less than the idle time ago. */
  predicate Fresh(interactions: set<int>, u: int) {
    exists r :: r in interactions && r <= u < r + IDLE
  }

  predicate Unbroken(interactions: set<int>, from: int, to: int) {
    forall u :: from <= u <= to ==> Fresh(interactions, u)
  }

  predicate Sound(s: State) {
    && s.rows.Keys == s.login.Keys == s.recorded.Keys
    && (forall id :: id in s.rows ==>
          && s.login[id] <= s.rows[id].last <= s.clock
          && s.rows[id].last in s.recorded[id]
          && (forall r :: r in s.recorded[id] ==> s.login[id] <= r <= s.clock)
          && Unbroken(s.recorded[id], s.login[id], s.rows[id].last))
    && (forall c :: c in s.captured ==> c.0 in s.rows && s.login[c.0] <= c.1 <= s.clock)
  }

  lemma Extend(interactions: set<int>, from: int, to: int, last: int, at: int)
    requires Unbroken(interactions, from, last) && last in interactions && last > at - IDLE
    requires to <= Max(at, last)
    ensures Unbroken(interactions + {at}, from, to)
  {
    forall u | from <= u <= to ensures Fresh(interactions + {at}, u) {
      if u <= last {
        assert Fresh(interactions, u);
        var r :| r in interactions && r <= u < r + IDLE;
        assert r in interactions + {at};
      } else if u < at {
        assert last in interactions + {at};
      } else {
        assert at in interactions + {at};
      }
    }
  }

  lemma WriteKeeps(s: State, id: nat, at: int)
    requires Sound(s)
    ensures Sound(Step(s, Write(id, at)))
  {
    if (id, at) in s.captured && Touchable(s.rows, id, at) {
      Extend(s.recorded[id], s.login[id], at, s.rows[id].last, at);
    }
  }

  lemma LoginKeeps(s: State, id: nat, user: nat)
    requires Sound(s)
    ensures Sound(Step(s, Login(id, user)))
  {
    assert s.clock in {s.clock};
    assert Fresh({s.clock}, s.clock);
  }

  lemma StepKeeps(s: State, e: Event)
    requires Sound(s)
    ensures Sound(Step(s, e))
  {
    match e
    case Write(id, at) => WriteKeeps(s, id, at);
    case Login(id, user) => LoginKeeps(s, id, user);
    case _ =>
  }

  lemma {:induction false} RunKeeps(s: State, run: seq<Event>)
    requires Sound(s)
    ensures Sound(Run(s, run))
    decreases |run|
  {
    if run != [] {
      StepKeeps(s, run[0]);
      RunKeeps(Step(s, run[0]), run[1..]);
    }
  }

  /** A request is accepted only at the end of an unbroken chain: at every moment from the
      login to now, some recorded interaction was less than thirty minutes old. */
  lemma AcceptanceIsEarned(clock: int, run: seq<Event>, user: nat, id: nat)
    requires var s := Run(Start(clock), run); Accepts(s.rows, user, Some(id), s.clock)
    ensures var s := Run(Start(clock), run);
            id in s.login && id in s.recorded && Unbroken(s.recorded[id], s.login[id], s.clock)
  {
    var s := Run(Start(clock), run);
    RunKeeps(Start(clock), run);
    forall u | s.login[id] <= u <= s.clock ensures Fresh(s.recorded[id], u) {
      if u > s.rows[id].last {
        assert s.rows[id].last in s.recorded[id];
      }
    }
  }

  /** Once revoked, whatever happens next, no request is accepted for the session. */
  lemma {:induction false} RevokedForGood(s: State, run: seq<Event>, user: nat, id: nat)
    requires id in s.rows && s.rows[id].revoked.Some?
    ensures var v := Run(s, run);
            && id in v.rows && v.rows[id] == s.rows[id]
            && !Accepts(v.rows, user, Some(id), v.clock)
    decreases |run|
  {
    if run != [] {
      RevokedForGood(Step(s, run[0]), run[1..], user, id);
    }
  }

  /** A rejected request of the session's own user ends the session for good. */
  lemma RejectionIsFinal(s: State, run: seq<Event>, id: nat, user: nat)
    requires id in s.rows && !Accepts(s.rows, s.rows[id].user, Some(id), s.clock)
    ensures var v := Run(Step(s, Request(s.rows[id].user, Some(id))), run);
            !Accepts(v.rows, user, Some(id), v.clock)
  {
    RevokedForGood(Step(s, Request(s.rows[id].user, Some(id))), run, user, id);
  }

  // ---- Thirty minutes ----

  /** A request of the session's own user is accepted up to the last tick before thirty
      minutes have passed since the last interaction, and revokes the session from then on. */
  lemma AcceptedForHalfAnHour(s: State, id: nat)
    requires id in s.rows && s.rows[id].revoked.None?
    ensures var row := s.rows[id];
            var v := Step(s, Request(row.user, Some(id)));
            if s.clock - row.last < 1800 * SECOND
            then Accepts(s.rows, row.user, Some(id), s.clock) && v == s
            else !Accepts(s.rows, row.user, Some(id), s.clock) &&
                 v.rows == s.rows[id := Session(row.user, row.last, Some(s.clock))]
  {
  }

  /** Somebody else's session, no session and a revoked one are refused and left alone. */
  lemma StrangersRefused(s: State, user: nat, presented: Option<nat>)
    requires presented.None? || presented.value !in s.rows || s.rows[presented.value].user != user ||
             s.rows[presented.value].revoked.Some?
    ensures !Accepts(s.rows, user, presented, s.clock) && Step(s, Request(user, presented)) == s
  {
  }
}
