/** The durable GePG inbox: callbacks are claimed under a five-minute lease and
    retried with backoff until they are processed or given up. */
module Inbox {
  import opened Common
  import opened Backoff

  datatype Kind = Payment | Bill | Cancellation | Reconciliation

  /** A callback is unique on its kind and the gateway's correlation id. */
  datatype Key = Key(kind: Kind, eventId: string)

  datatype Status = Pending | Processing | Processed | Failed

  datatype Row = Row(status: Status, attempts: nat, nextAttempt: Option<int>, createdAt: int,
                     updatedAt: int, processedAt: Option<int>)
  {
    predicate Terminal() { status == Processed || status == Failed }
  }

  /** What the handler's acknowledgement means for the row. */
  datatype Outcome = Acknowledged | Rejected | Raised

  /** A row as the webhook first stores it. */
  function Arrived(now: int): Row {
    Row(Pending, 0, None, now, now, None)
  }

  predicate Due(row: Row, now: int) {
    || (row.status == Pending && (row.nextAttempt.None? || row.nextAttempt.value <= now))
    || (row.status == Processing && row.updatedAt < now - STALE_PROCESSING_AFTER)
  }

  function Claimed(row: Row, now: int): Row {
    row.(status := Processing, attempts := row.attempts + 1, nextAttempt := None, updatedAt := now)
  }

  /** `reply` is the acknowledgement code, or None when the handler raised. */
  function Judge(kind: Kind, reply: Option<string>): Outcome {
    if kind == Cancellation || reply.None? then Raised
    else if reply.value == "7101" then Acknowledged else Rejected
  }

  /** The final save of a worker that read `attempts` when it claimed. Only the
      saved columns change; nothing checks that the claim still stands. */
  function Settled(cfg: Settings, row: Row, attempts: nat, outcome: Outcome, now: int): Row
    requires attempts >= 1
  {
    match outcome
    case Acknowledged =>
      row.(status := Processed, processedAt := Some(now), nextAttempt := None, updatedAt := now)
    case Rejected => row.(status := Failed, nextAttempt := None, updatedAt := now)
    case Raised =>
      if now - row.createdAt >= cfg.maxAge * SECOND then
        row.(status := Failed, nextAttempt := None, updatedAt := now)
      else
        row.(status := Pending, updatedAt := now,
        nextAttempt := Some(now + RetryDelay(cfg, attempts) * SECOND))
  }

  /** One worker's view of the callback table. */
  class CallbackTable {
    var rows: map<Key, Row>

    constructor ()
      ensures rows == map[]
    {
      rows := map[];
    }

    /** The webhook: storing the same event twice leaves the first row alone. */
    method Receive(key: Key, now: int)
      modifies this
      ensures key in rows && rows - {key} == old(rows) - {key}
      ensures rows[key] == if key in old(rows) then old(rows)[key] else Arrived(now)
    {
      if key !in rows {
        rows := rows[key := Arrived(now)];
      }
    }

    /** The conditional update that takes the lease, then the read that follows it. */
    method Claim(key: Key, now: int) returns (held: Option<Row>)
      modifies this
      ensures held.Some? <==> key in old(rows) && Due(old(rows)[key], now)
      ensures held.None? ==> rows == old(rows)
      ensures held.Some? ==>
                && held.value.attempts == old(rows)[key].attempts + 1
                && rows == old(rows)[key := held.value]
                && held.value == Claimed(old(rows)[key], now)
    {
      held := None;
      if key in rows && Due(rows[key], now) {
        rows := rows[key := Claimed(rows[key], now)];
        held := Some(rows[key]);
      }
    }

    /** Claim, handle and settle one callback. The handler's reply and the two
        moments the clock is read are the environment's. */
    method ProcessCallback(cfg: Settings, key: Key, now: int, reply: Option<string>, later: int)
      returns (worked: bool)
      requires now <= later
      modifies this
      ensures worked <==> key in old(rows) && Due(old(rows)[key], now)
      ensures !worked ==> rows == old(rows)
      ensures worked ==>
                && rows.Keys == old(rows).Keys
                && rows - {key} == old(rows) - {key}
                && rows[key].attempts == old(rows)[key].attempts + 1
                && rows[key] == Settled(cfg, Claimed(old(rows)[key], now), rows[key].attempts,
                                        Judge(key.kind, reply), later)
      ensures worked && cfg.initial > 0 && cfg.max > 0 ==> !Due(rows[key], later)
      ensures worked ==> rows[key].createdAt == old(rows)[key].createdAt && rows[key].updatedAt == later
      ensures worked && (key.kind == Cancellation || reply.None?) && later >= old(rows)[key].createdAt + cfg.maxAge * SECOND ==>
                rows[key].status == Failed
      ensures worked && (key.kind == Cancellation || reply.None?) && later < old(rows)[key].createdAt + cfg.maxAge * SECOND ==>
                && rows[key].status == Pending
                && rows[key].nextAttempt == Some(later + RetryDelay(cfg, old(rows)[key].attempts + 1) * SECOND)
      ensures worked && key.kind != Cancellation && reply.Some? ==>
                rows[key].status == if reply.value == "7101" then Processed else Failed
    {
      var held := Claim(key, now);
      if held.None? {
        return false;
      }
      var callback := held.value;
      var outcome := Judge(key.kind, reply);
      DelayBounds(cfg, callback.attempts);
      if outcome == Rejected {
        callback := callback.(status := Failed, nextAttempt := None, updatedAt := later);
      } else if outcome == Raised {
        if later - callback.createdAt >= cfg.maxAge * SECOND {
          callback := callback.(status := Failed, nextAttempt := None, updatedAt := later);
        } else {
          var delay := RetryDelay(cfg, callback.attempts);
          callback := callback.(status := Pending, nextAttempt := Some(later + delay * SECOND),
          updatedAt := later);
        }
      } else {
        callback := callback.(status := Processed, processedAt := Some(later), nextAttempt := None,
        updatedAt := later);
      }
      rows := rows[key := callback];
      worked := true;
    }
  }

  /** How a settled row reads: success and rejection end it, an exception reschedules
      it strictly later, within the cap, until the row is too old. */
  lemma SettledMeaning(cfg: Settings, row: Row, attempts: nat, outcome: Outcome, now: int)
    requires attempts >= 1 && row.status == Processing
    ensures var r := Settled(cfg, row, attempts, outcome, now);
            && (r.status == Processed <==> outcome == Acknowledged)
            && (r.status == Failed <==>
                outcome == Rejected || (outcome == Raised && now >= row.createdAt + cfg.maxAge * SECOND))
            && (r.status == Pending ==>
                  && Due(r, now + cfg.max * SECOND)
                  && forall t :: Due(r, t) ==> t >= now + Min(cfg.initial, cfg.max) * SECOND)
            && r.status != Processing
            && r.attempts == row.attempts && r.createdAt == row.createdAt && r.updatedAt == now
            && r.processedAt == (if outcome == Acknowledged then Some(now) else row.processedAt)
            && (r.nextAttempt.Some? <==> r.status == Pending)
  {
    DelayBounds(cfg, attempts);
  }

  /** How long a row waits after its handler raised, when it is not too old. */
  function Wait(cfg: Settings, row: Row, attempts: nat, now: int): int
    requires attempts >= 1 && now < row.createdAt + cfg.maxAge * SECOND
  {
    Settled(cfg, row, attempts, Raised, now).nextAttempt.value - now
  }

  /** Failed callbacks back off: the first wait is the initial one, each next one twice the one
      before up to the cap, and from the eleventh on they stay alike. */
  lemma WaitDoubles(cfg: Settings, row: Row, attempts: nat, now: int)
    requires attempts >= 1 && now < row.createdAt + cfg.maxAge * SECOND
    ensures Wait(cfg, row, 1, now) == Min(cfg.initial, cfg.max) * SECOND
    ensures attempts <= 10 ==>
              Wait(cfg, row, attempts + 1, now) == Min(2 * Wait(cfg, row, attempts, now), cfg.max * SECOND)
    ensures attempts >= 11 ==> Wait(cfg, row, attempts + 1, now) == Wait(cfg, row, attempts, now)
  {
    DelayDoubles(cfg, attempts);
  }

  /** The waits of the default settings: 60, 120, 240, 480, 960 and then 1800 seconds. */
  lemma DefaultWaits(row: Row, attempts: nat, now: int)
    requires attempts >= 1 && now < row.createdAt + 86400 * SECOND
    ensures Settled(DEFAULTS, row, attempts, Raised, now).nextAttempt ==
            Some(now + SECOND * if attempts == 1 then 60 else if attempts == 2 then 120
                                else if attempts == 3 then 240 else if attempts == 4 then 480
                                else if attempts == 5 then 960 else 1800)
  {
    DefaultSchedule(attempts);
  }

  /** A callback is due from its arrival, or from the end of its wait, or once abandoned for
      more than five minutes. */
  lemma DueMeaning(row: Row, now: int)
    ensures Due(row, now) <==>
            || (row.status == Pending && row.nextAttempt.None?)
            || (row.status == Pending && row.nextAttempt.Some? && now >= row.nextAttempt.value)
            || (row.status == Processing && now > row.updatedAt + 300 * SECOND)
    ensures Due(Arrived(now), now) && Arrived(now).attempts == 0 && Arrived(now).createdAt == now
  {
  }

  // ---- Many workers, crashes and the clock ----

  /** A live worker: what it claimed, the timestamp it wrote, the count it read. */
  datatype Holding = Holding(key: Key, stamp: int, attempts: nat)

  datatype State = State(clock: int, rows: map<Key, Row>, workers: map<nat, Holding>)

  /** `seen` is the moment the claiming worker read the clock, possibly earlier than now. */
  datatype Event =
    | Tick(d: nat)
    | Arrive(key: Key)
    | Claim(worker: nat, key: Key, seen: int)
    | Finish(worker: nat, reply: Option<string>)
    | Crash(worker: nat)

  predicate ClaimSucceeds(s: State, e: Event) {
    e.Claim? && e.worker !in s.workers && e.seen <= s.clock && e.key in s.rows &&
    Due(s.rows[e.key], e.seen)
  }

  predicate FinishHappens(s: State, e: Event) {
    e.Finish? && e.worker in s.workers && s.workers[e.worker].key in s.rows &&
    s.workers[e.worker].attempts >= 1
  }

  function Step(cfg: Settings, s: State, e: Event): State {
    match e
    case Tick(d) => s.(clock := s.clock + d)
    case Arrive(key) => if key in s.rows then s else s.(rows := s.rows[key := Arrived(s.clock)])
    case Claim(w, key, seen) =>
      if ClaimSucceeds(s, e) then
        var row := Claimed(s.rows[key], seen);
        s.(rows := s.rows[key := row], workers := s.workers[w := Holding(key, seen, row.attempts)])
      else s
    case Finish(w, reply) =>
      if FinishHappens(s, e) then
        var h := s.workers[w];
        var row := Settled(cfg, s.rows[h.key], h.attempts, Judge(h.key.kind, reply), s.clock);
        s.(rows := s.rows[h.key := row], workers := s.workers - {w})
      else s
    case Crash(w) => s.(workers := s.workers - {w})
  }

  function Run(cfg: Settings, s: State, run: seq<Event>): State
    decreases |run|
  {
    if run == [] then s else Run(cfg, Step(cfg, s, run[0]), run[1..])
  }

  /** No live worker has outlasted its lease. */
  ghost predicate OnTime(s: State) {
    forall w <- s.workers :: s.clock <= s.workers[w].stamp + STALE_PROCESSING_AFTER
  }

  ghost predicate AlwaysOnTime(cfg: Settings, s: State, run: seq<Event>)
    decreases |run|
  {
    OnTime(s) && (run != [] ==> AlwaysOnTime(cfg, Step(cfg, s, run[0]), run[1..]))
  }

  /** Each live worker's row still carries its claim, and no two share a row. */
  ghost predicate Leased(s: State) {
    && (forall w <- s.workers ::
          var h := s.workers[w];
          && h.key in s.rows && s.rows[h.key].status == Processing
          && s.rows[h.key].updatedAt == h.stamp
          && s.rows[h.key].attempts == h.attempts && h.attempts >= 1)
    && (forall v, w :: v in s.workers && w in s.workers && v != w ==>
                         s.workers[v].key != s.workers[w].key)
  }

  ghost predicate TerminalKept(s: State, t: State) {
    forall k <- s.rows :: k in t.rows && (s.rows[k].Terminal() ==> t.rows[k] == s.rows[k])
  }

  lemma StepKeepsLease(cfg: Settings, s: State, e: Event)
    requires Leased(s) && OnTime(s)
    ensures Leased(Step(cfg, s, e)) && TerminalKept(s, Step(cfg, s, e))
  {
  }

  /** Mutual exclusion and the finality of PROCESSED and FAILED, over every interleaving
      in which live workers finish within the stale window. */
  lemma {:induction false} LeaseHolds(cfg: Settings, s: State, run: seq<Event>)
    requires Leased(s) && AlwaysOnTime(cfg, s, run)
    ensures Leased(Run(cfg, s, run)) && TerminalKept(s, Run(cfg, s, run))
    decreases |run|
  {
    if run != [] {
      StepKeepsLease(cfg, s, run[0]);
      LeaseHolds(cfg, Step(cfg, s, run[0]), run[1..]);
    }
  }

  /** From a quiet table, whatever the rows, the lease protocol is safe. */
  lemma MutualExclusion(cfg: Settings, s: State, run: seq<Event>, v: nat, w: nat)
    requires s.workers == map[] && AlwaysOnTime(cfg, s, run)
    requires v in Run(cfg, s, run).workers && w in Run(cfg, s, run).workers
    ensures var t := Run(cfg, s, run);
            && (t.workers[v].key == t.workers[w].key ==> v == w)
            && t.workers[v].key in t.rows
            && t.rows[t.workers[v].key].status == Processing
            && t.rows[t.workers[v].key].updatedAt == t.workers[v].stamp
  {
    LeaseHolds(cfg, s, run);
  }

  /** Whether some idle worker, reading the clock now or earlier, could take over. */
  ghost predicate CanBeStolen(cfg: Settings, s: State, w: nat)
    requires w in s.workers
  {
    exists v: nat, seen: int ::
      var e := Claim(v, s.workers[w].key, seen);
      v != w && e.worker !in s.workers && v in Step(cfg, s, e).workers
  }

  lemma FreshWorker(ws: set<nat>) returns (v: nat)
    ensures v !in ws && forall w <- ws :: w < v
  {
    v := 0;
    var rest := ws;
    while rest != {}
      invariant rest <= ws && forall w <- ws :: w in rest || w < v
      decreases rest
    {
      var w :| w in rest;
      v := if w < v then v else w + 1;
      rest := rest - {w};
    }
  }

  /** The time assumption is exact: a held row can be claimed by somebody else
      if and only if its holder has outlasted the stale window. */
  lemma StealableIffOverdue(cfg: Settings, s: State, w: nat)
    requires Leased(s) && w in s.workers
    ensures CanBeStolen(cfg, s, w) <==> s.clock > s.workers[w].stamp + 300 * SECOND
  {
    if s.clock > s.workers[w].stamp + STALE_PROCESSING_AFTER {
      var v := FreshWorker(s.workers.Keys);
      var e := Claim(v, s.workers[w].key, s.clock);
      assert ClaimSucceeds(s, e);
      assert v in Step(cfg, s, e).workers;
    }
  }

  /** Another worker's claim and success, both before the holder's own save. */
  function Overtaken(cfg: Settings, s: State, w: nat, v: nat, seen: int): State
    requires w in s.workers
  {
    Step(cfg, Step(cfg, s, Claim(v, s.workers[w].key, seen)), Finish(v, Some("7101")))
  }

  /** Whether a live worker's save can take its callback back out of PROCESSED. */
  ghost predicate CanBeUndone(cfg: Settings, s: State, w: nat)
    requires w in s.workers
  {
    exists v: nat, seen: int, reply: Option<string> ::
      var key, done := s.workers[w].key, Overtaken(cfg, s, w, v, seen);
      var undone := Step(cfg, done, Finish(w, reply));
      && v != w && v !in s.workers
      && key in done.rows && done.rows[key].status == Processed
      && key in undone.rows && undone.rows[key].status != Processed
  }

  /** An overdue holder's failing save: a callback within the age limit goes back to waiting,
      an older one fails. */
  lemma OverdueUndoes(cfg: Settings, s: State, w: nat, v: nat)
    requires Leased(s) && w in s.workers && v !in s.workers && s.workers[w].key.kind != Cancellation
    requires s.clock > s.workers[w].stamp + STALE_PROCESSING_AFTER
    ensures var key, done := s.workers[w].key, Overtaken(cfg, s, w, v, s.clock);
            var undone := Step(cfg, done, Finish(w, None));
            && key in done.rows && done.rows[key].status == Processed
            && key in undone.rows
            && undone.rows[key].status == if s.clock < s.rows[key].createdAt + cfg.maxAge * SECOND then Pending else Failed
  {
    var key := s.workers[w].key;
    var claimed := Step(cfg, s, Claim(v, key, s.clock));
    assert ClaimSucceeds(s, Claim(v, key, s.clock));
    assert FinishHappens(claimed, Finish(v, Some("7101")));
    assert Overtaken(cfg, s, w, v, s.clock).workers == s.workers;
  }

  /** In every leased state: the callback can be processed by another worker and then taken out
      of PROCESSED by the holder if and only if the holder is overdue, except for cancellations,
      which are never processed here. */
  lemma UndoableIffOverdue(cfg: Settings, s: State, w: nat)
    requires Leased(s) && w in s.workers
    ensures CanBeUndone(cfg, s, w) <==>
            s.clock > s.workers[w].stamp + STALE_PROCESSING_AFTER && s.workers[w].key.kind != Cancellation
  {
    var key := s.workers[w].key;
    if s.clock > s.workers[w].stamp + STALE_PROCESSING_AFTER && key.kind != Cancellation {
      var v := FreshWorker(s.workers.Keys);
      OverdueUndoes(cfg, s, w, v);
      var undone := Step(cfg, Overtaken(cfg, s, w, v, s.clock), Finish(w, None));
      assert undone.rows[key].status != Processed;
    }
    if CanBeUndone(cfg, s, w) {
      var v: nat, seen: int, reply: Option<string> :|
        var done := Overtaken(cfg, s, w, v, seen);
        var undone := Step(cfg, done, Finish(w, reply));
        && v != w && v !in s.workers
        && key in done.rows && done.rows[key].status == Processed
        && key in undone.rows && undone.rows[key].status != Processed;
      NotOvertaken(cfg, s, w, v, seen);
    }
  }

  lemma NotOvertaken(cfg: Settings, s: State, w: nat, v: nat, seen: int)
    requires Leased(s) && w in s.workers && v !in s.workers
    ensures var key, done := s.workers[w].key, Overtaken(cfg, s, w, v, seen);
            key in done.rows && done.rows[key].status == Processed ==>
              s.clock > s.workers[w].stamp + STALE_PROCESSING_AFTER && key.kind != Cancellation
  {
    var e := Claim(v, s.workers[w].key, seen);
    if !ClaimSucceeds(s, e) {
      assert Overtaken(cfg, s, w, v, seen) == s;
    }
  }

  /** A run in which a worker oversleeps: two live workers hold one callback, and the
      sleeper's save takes it out of PROCESSED. */
  lemma OversleepingUndoesProcessed(key: Key)
    requires key.kind == Payment
    ensures var s0 := State(0, map[key := Arrived(0)], map[]);
            var shared := Run(DEFAULTS, s0, [Claim(1, key, 0), Tick(301 * SECOND), Claim(2, key, 301 * SECOND)]);
            var done := Run(DEFAULTS, shared, [Finish(2, Some("7101"))]);
            var undone := Run(DEFAULTS, done, [Finish(1, None)]);
            && 1 in shared.workers && 2 in shared.workers
            && shared.workers[1].key == shared.workers[2].key
            && key in done.rows && done.rows[key].status == Processed
            && key in undone.rows && undone.rows[key].status == Pending
  {
    var s0 := State(0, map[key := Arrived(0)], map[]);
    var e1, e2, e3 := Claim(1, key, 0), Tick(301 * SECOND), Claim(2, key, 301 * SECOND);
    var s1 := Step(DEFAULTS, s0, e1);
    var s2 := Step(DEFAULTS, s1, e2);
    var s3 := Step(DEFAULTS, s2, e3);
    RunThree(DEFAULTS, s0, e1, e2, e3);
    var f2: Event := Finish(2, Some("7101"));
    var f1: Event := Finish(1, None);
    RunOne(DEFAULTS, s3, f2);
    var s4 := Step(DEFAULTS, s3, f2);
    RunOne(DEFAULTS, s4, f1);
    assert s3.rows[key].status == Processing && s4.rows[key].status == Processed;
  }

  lemma RunOne(cfg: Settings, s: State, e: Event)
    ensures Run(cfg, s, [e]) == Step(cfg, s, e)
  {
    assert [e][1..] == [];
    assert Run(cfg, Step(cfg, s, e), []) == Step(cfg, s, e);
  }

  lemma RunThree(cfg: Settings, s: State, a: Event, b: Event, c: Event)
    ensures Run(cfg, s, [a, b, c]) == Step(cfg, Step(cfg, Step(cfg, s, a), b), c)
  {
    assert [a, b, c][1..] == [b, c] && [b, c][1..] == [c];
    RunOne(cfg, Step(cfg, Step(cfg, s, a), b), c);
  }

  // ---- The age limit counts from arrival ----

  /** Rows stay, and their arrival times with them. */
  lemma {:induction false} ArrivalsKept(cfg: Settings, s: State, run: seq<Event>, key: Key)
    requires key in s.rows
    ensures key in Run(cfg, s, run).rows && Run(cfg, s, run).rows[key].createdAt == s.rows[key].createdAt
    decreases |run|
  {
    if run != [] {
      ArrivalsKept(cfg, Step(cfg, s, run[0]), run[1..], key);
    }
  }

  /** However often a callback was claimed, crashed over and retried since it arrived, the first
      error at the age limit or later ends it. */
  lemma GivenUpByAge(cfg: Settings, s: State, run: seq<Event>, key: Key, w: nat)
    requires key !in s.rows
    requires var t := Run(cfg, Step(cfg, s, Arrive(key)), run);
             && w in t.workers && t.workers[w].key == key && t.workers[w].attempts >= 1
             && t.clock >= s.clock + cfg.maxAge * SECOND
    ensures var t := Step(cfg, Run(cfg, Step(cfg, s, Arrive(key)), run), Finish(w, None));
            key in t.rows && t.rows[key].status == Failed
  {
    ArrivalsKept(cfg, Step(cfg, s, Arrive(key)), run, key);
  }

  // ---- Counting claims and successes ----

  function ClaimsOf(cfg: Settings, s: State, run: seq<Event>, key: Key): nat
    decreases |run|
  {
    if run == [] then 0
    else (if ClaimSucceeds(s, run[0]) && run[0].key == key then 1 else 0) +
         ClaimsOf(cfg, Step(cfg, s, run[0]), run[1..], key)
  }

  function Attempts(s: State, key: Key): nat {
    if key in s.rows then s.rows[key].attempts else 0
  }

  /** `attempts` is exactly the number of claims granted, however workers interleave or crash. */
  lemma {:induction false} AttemptsCountClaims(cfg: Settings, s: State, run: seq<Event>, key: Key)
    ensures Attempts(Run(cfg, s, run), key) == Attempts(s, key) + ClaimsOf(cfg, s, run, key)
    decreases |run|
  {
    if run != [] {
      AttemptsCountClaims(cfg, Step(cfg, s, run[0]), run[1..], key);
    }
  }

  predicate Succeeds(s: State, e: Event, key: Key) {
    FinishHappens(s, e) && s.workers[e.worker].key == key &&
    Judge(key.kind, e.reply) == Acknowledged
  }

  function SuccessesOf(cfg: Settings, s: State, run: seq<Event>, key: Key): nat
    decreases |run|
  {
    if run == [] then 0
    else (if Succeeds(s, run[0], key) then 1 else 0) +
         SuccessesOf(cfg, Step(cfg, s, run[0]), run[1..], key)
  }

  function IsProcessed(s: State, key: Key): nat {
    if key in s.rows && s.rows[key].status == Processed then 1 else 0
  }

  /** Under the lease a callback is completed at most once, and PROCESSED records exactly that. */
  lemma {:induction false} CompletedAtMostOnce(cfg: Settings, s: State, run: seq<Event>, key: Key)
    requires Leased(s) && AlwaysOnTime(cfg, s, run)
    ensures IsProcessed(s, key) + SuccessesOf(cfg, s, run, key) == IsProcessed(Run(cfg, s, run), key)
    decreases |run|
  {
    if run != [] {
      StepKeepsLease(cfg, s, run[0]);
      CompletedAtMostOnce(cfg, Step(cfg, s, run[0]), run[1..], key);
    }
  }

  // ---- No callback is stranded ----

  /** An unfinished row becomes claimable within a fixed time of its last write. */
  ghost predicate Recoverable(cfg: Settings, s: State) {
    forall k <- s.rows :: !s.rows[k].Terminal() ==>
      forall t :: t >= s.rows[k].updatedAt + Max(STALE_PROCESSING_AFTER + 1, cfg.max * SECOND) ==>
                    Due(s.rows[k], t)
  }

  lemma StepKeepsRecoverable(cfg: Settings, s: State, e: Event)
    requires Recoverable(cfg, s)
    ensures Recoverable(cfg, Step(cfg, s, e))
  {
    if FinishHappens(s, e) {
      DelayBounds(cfg, s.workers[e.worker].attempts);
    }
  }

  /** Crashes lose no callback: in every run each row that is not final comes due again. */
  lemma {:induction false} NoCallbackIsStranded(cfg: Settings, s: State, run: seq<Event>)
    requires Recoverable(cfg, s)
    ensures Recoverable(cfg, Run(cfg, s, run))
    decreases |run|
  {
    if run != [] {
      StepKeepsRecoverable(cfg, s, run[0]);
      NoCallbackIsStranded(cfg, Step(cfg, s, run[0]), run[1..]);
    }
  }
}
