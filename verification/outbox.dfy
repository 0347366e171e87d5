/** The durable GePG outbox: one signed request, sent until the gateway answers,
    refuses, or the retry window closes. */
module Outbox {
  import opened Common
  import opened Backoff

  datatype Status = Sending | Retry | Accepted | Rejected | Exhausted

  datatype Row = Row(status: Status, attempts: nat, firstAttempt: Option<int>,
                     nextAttempt: Option<int>, updatedAt: int)
  {
    predicate Terminal() { status.Accepted? || status.Rejected? || status.Exhausted? }
  }

  /** What the HTTP post did; a failure carries the response code when there was a response. */
  datatype Reply = Delivered | Failure(code: Option<int>)

  predicate Retryable(code: Option<int>) {
    code.None? || code.value >= 500
  }

  function Fresh(now: int): Row {
    Row(Sending, 0, None, None, now)
  }

  predicate Due(row: Row, now: int) {
    row.status == Retry && (row.nextAttempt.None? || row.nextAttempt.value <= now)
  }

  predicate Abandoned(row: Row, now: int) {
    row.status == Sending && row.updatedAt < now - STALE_PROCESSING_AFTER
  }

  function Claimed(row: Row, now: int): Row {
    row.(status := Sending, nextAttempt := None, updatedAt := now)
  }

  function Recovered(row: Row, now: int): Row {
    row.(status := Retry, nextAttempt := Some(now), updatedAt := now)
  }

  /** The save before the post: the attempt is counted before anything is sent. */
  function Started(row: Row, now: int): Row {
    row.(attempts := row.attempts + 1, status := Sending, nextAttempt := None, updatedAt := now,
    firstAttempt := if row.firstAttempt.None? then Some(now) else row.firstAttempt)
  }

  /** The save after a failed post that started at `now`. */
  function Failed(cfg: Settings, row: Row, now: int, code: Option<int>, later: int): Row
    requires row.attempts >= 1 && row.firstAttempt.Some?
  {
    if !Retryable(code) then row.(status := Rejected, updatedAt := later)
    else if now - row.firstAttempt.value >= cfg.maxAge * SECOND then
      row.(status := Exhausted, updatedAt := later)
    else
      row.(status := Retry, updatedAt := later,
      nextAttempt := Some(now + RetryDelay(cfg, row.attempts) * SECOND))
  }

  function Finished(row: Row, accepted: bool, now: int): Row {
    row.(status := if accepted then Accepted else Rejected, nextAttempt := None, updatedAt := now)
  }

  class GepgRequest {
    var status: Status
    var attempts: nat
    var firstAttempt: Option<int>
    var nextAttempt: Option<int>
    var updatedAt: int

    ghost function Record(): Row
      reads this
    {
      Row(status, attempts, firstAttempt, nextAttempt, updatedAt)
    }

    constructor (now: int)
      ensures Record() == Fresh(now)
    {
      status, attempts, firstAttempt, nextAttempt, updatedAt := Sending, 0, None, None, now;
    }

    /** Post once. The first save lands even if the post never returns. */
    method Attempt(cfg: Settings, now: int, reply: Reply, later: int) returns (answered: bool)
      requires now <= later
      modifies this
      ensures answered <==> reply == Delivered
      ensures attempts == old(attempts) + 1
      ensures firstAttempt == if old(firstAttempt).None? then Some(now) else old(firstAttempt)
      ensures Record() ==
              var row := Started(old(Record()), now);
              if reply == Delivered then row.(updatedAt := later)
              else Failed(cfg, row, now, reply.code, later)
      ensures status == Retry ==> !answered && nextAttempt.Some? &&
                                  nextAttempt.value >= now + Min(cfg.initial, cfg.max) * SECOND
    {
      attempts := attempts + 1;
      if firstAttempt.None? {
        firstAttempt := Some(now);
      }
      status, nextAttempt, updatedAt := Sending, None, now;
      if reply == Delivered {
        updatedAt := later;
        return true;
      }
      DelayBounds(cfg, attempts);
      var age := now - firstAttempt.value;
      if !Retryable(reply.code) {
        status := Rejected;
      } else if age >= cfg.maxAge * SECOND {
        status := Exhausted;
      } else {
        status := Retry;
        nextAttempt := Some(now + RetryDelay(cfg, attempts) * SECOND);
      }
      updatedAt := later;
      return false;
    }

    method Finish(accepted: bool, now: int)
      modifies this
      ensures Record() == Finished(old(Record()), accepted, now)
      ensures Record().Terminal() && (status == Accepted <==> accepted)
    {
      status := if accepted then Accepted else Rejected;
      nextAttempt, updatedAt := None, now;
    }
  }

  /** What a failed post makes of the row: a response below 500 rejects it, an old request is
      exhausted, any other waits; its attempts and first attempt stay. */
  lemma FailedMeaning(cfg: Settings, row: Row, now: int, code: Option<int>, later: int)
    requires row.attempts >= 1 && row.firstAttempt.Some?
    ensures var r := Failed(cfg, row, now, code, later);
            && (r.status == Rejected <==> code.Some? && code.value <= 499)
            && (r.status == Exhausted <==>
                (code.None? || code.value >= 500) && now >= row.firstAttempt.value + cfg.maxAge * SECOND)
            && (r.status == Retry <==>
                (code.None? || code.value >= 500) && now < row.firstAttempt.value + cfg.maxAge * SECOND)
            && r.attempts == row.attempts && r.firstAttempt == row.firstAttempt && r.updatedAt == later
  {
  }

  function Wait(cfg: Settings, row: Row, now: int, later: int): int
    requires row.attempts >= 1 && row.firstAttempt.Some? && now < row.firstAttempt.value + cfg.maxAge * SECOND
  {
    Failed(cfg, row, now, None, later).nextAttempt.value - now
  }

  /** Failed posts back off as callbacks do, counted from the start of the post. */
  lemma WaitDoubles(cfg: Settings, row: Row, next: Row, now: int, later: int)
    requires row.attempts >= 1 && row.firstAttempt.Some? && now < row.firstAttempt.value + cfg.maxAge * SECOND
    requires next == row.(attempts := row.attempts + 1)
    ensures row.attempts == 1 ==> Wait(cfg, row, now, later) == Min(cfg.initial, cfg.max) * SECOND
    ensures row.attempts <= 10 ==>
              Wait(cfg, next, now, later) == Min(2 * Wait(cfg, row, now, later), cfg.max * SECOND)
    ensures row.attempts >= 11 ==> Wait(cfg, next, now, later) == Wait(cfg, row, now, later)
  {
    DelayDoubles(cfg, row.attempts);
  }

  /** The saves around a post: a claim or a recovery keeps the count and the first attempt; the
      start of a post counts it, and dates the first one. */
  lemma SavesMeaning(row: Row, now: int)
    ensures Abandoned(row, now) <==> row.status == Sending && now > row.updatedAt + 300 * SECOND
    ensures Due(row, now) <==> row.status == Retry && (row.nextAttempt.Some? ==> now >= row.nextAttempt.value)
    ensures Recovered(row, now) == Row(Retry, row.attempts, row.firstAttempt, Some(now), now)
    ensures Claimed(row, now) == Row(Sending, row.attempts, row.firstAttempt, None, now)
    ensures Started(row, now) ==
            Row(Sending, row.attempts + 1, Some(row.firstAttempt.GetOr(now)), None, now)
    ensures Fresh(now) == Row(Sending, 0, None, None, now)
  {
  }

  // ---- One request, many senders, crashes and recovery ----

  /** Where a live sender is: claimed, posting since a moment, answered, or closing. */
  datatype Phase = Holding | Posting(since: int) | Answered | Closing

  /** `lastStart` observes the start of the latest attempt; no code reads it. */
  datatype State = State(clock: int, row: Row, senders: map<nat, Phase>, lastStart: int)

  datatype Event =
    | Tick(d: nat)
    | Recover
    | Claim(sender: nat)
    | Start(sender: nat)
    | Reply(sender: nat, reply: Reply)
    | Finish(sender: nat, accepted: bool)
    | Unprocessable(sender: nat)
    | Leave(sender: nat)
    | Crash(sender: nat)

  predicate At(s: State, sender: nat, phase: Phase) {
    sender in s.senders && s.senders[sender] == phase
  }

  function Step(cfg: Settings, s: State, e: Event): State {
    match e
    case Tick(d) => s.(clock := s.clock + d)
    case Recover => if Abandoned(s.row, s.clock) then s.(row := Recovered(s.row, s.clock)) else s
    case Claim(w) =>
      if w !in s.senders && Due(s.row, s.clock) then
        s.(row := Claimed(s.row, s.clock), senders := s.senders[w := Holding])
      else s
    case Start(w) =>
      if At(s, w, Holding) then
        s.(row := Started(s.row, s.clock), senders := s.senders[w := Posting(s.clock)],
        lastStart := s.clock)
      else s
    case Reply(w, reply) =>
      if w in s.senders && s.senders[w].Posting? && s.row.attempts >= 1 && s.row.firstAttempt.Some? then
        if reply == Delivered then
          s.(row := s.row.(updatedAt := s.clock), senders := s.senders[w := Answered])
        else
          s.(row := Failed(cfg, s.row, s.senders[w].since, reply.code, s.clock), senders := s.senders - {w})
      else s
    case Finish(w, accepted) =>
      if At(s, w, Answered) then
        s.(row := Finished(s.row, accepted, s.clock), senders := s.senders[w := Closing])
      else s
    case Unprocessable(w) =>
      if At(s, w, Answered) || At(s, w, Closing) then
        s.(row := Finished(s.row, false, s.clock), senders := s.senders - {w})
      else s
    case Leave(w) => if At(s, w, Closing) then s.(senders := s.senders - {w}) else s
    case Crash(w) => s.(senders := s.senders - {w})
  }

  function Run(cfg: Settings, s: State, run: seq<Event>): State
    decreases |run|
  {
    if run == [] then s else Run(cfg, Step(cfg, s, run[0]), run[1..])
  }

  /** Live senders of an unfinished row are within the stale window of its last save. */
  ghost predicate AlwaysOnTime(cfg: Settings, s: State, run: seq<Event>)
    decreases |run|
  {
    && (s.senders != map[] && s.row.status == Sending ==>
          s.clock <= s.row.updatedAt + STALE_PROCESSING_AFTER)
    && (run != [] ==> AlwaysOnTime(cfg, Step(cfg, s, run[0]), run[1..]))
  }

  predicate NoCrash(run: seq<Event>) {
    forall e <- run :: !e.Crash?
  }

  /** A new request, with its creator about to send it. */
  function Initial(now: int, sender: nat): State {
    State(now, Fresh(now), map[sender := Holding], now)
  }

  /** The shortest time between the starts of attempts k and k+1: the backoff, or the
      stale window when a crash may have skipped the backoff. */
  function Gap(cfg: Settings, k: nat, crashes: bool): nat
    requires k >= 1
  {
    if crashes then Min(RetryDelay(cfg, k) * SECOND, STALE_PROCESSING_AFTER)
    else RetryDelay(cfg, k) * SECOND
  }

  /** The least possible age of a request when its n-th attempt starts. */
  function MinAge(cfg: Settings, n: nat, crashes: bool): nat {
    if n <= 1 then 0 else MinAge(cfg, n - 1, crashes) + Gap(cfg, n - 1, crashes)
  }

  /** The schedule every run keeps: at most one live sender, and attempts that start no
      closer together than the gaps. Without crashes a waiting request is also young. */
  ghost predicate Scheduled(cfg: Settings, s: State, crashes: bool) {
    var row := s.row;
    var ready := s.clock >= s.lastStart + if row.attempts == 0 then 0 else Gap(cfg, row.attempts, crashes);
    && s.lastStart <= s.clock && row.updatedAt <= s.clock
    && (row.attempts == 0 <==> row.firstAttempt.None?)
    && (row.attempts >= 1 ==> s.lastStart - row.firstAttempt.value >= MinAge(cfg, row.attempts, crashes))
    && (row.status == Sending ==> row.updatedAt >= s.lastStart)
    && (row.status == Retry ==> s.senders == map[] && row.nextAttempt.Some?)
    && (row.status == Retry && row.attempts >= 1 ==>
          row.nextAttempt.value >= s.lastStart + Gap(cfg, row.attempts, crashes))
    && (forall v, w :: v in s.senders && w in s.senders ==> v == w)
    && (forall w <- s.senders ::
          match s.senders[w]
          case Holding => row.status == Sending && ready
          case Posting(since) => row.status == Sending && row.attempts >= 1 && since == s.lastStart
          case Answered => row.status == Sending
          case Closing => row.Terminal())
    && (!crashes ==>
          && (row.status == Sending ==> s.senders != map[])
          && (row.attempts >= 2 ==> MinAge(cfg, row.attempts - 1, false) < cfg.maxAge * SECOND)
          && (row.attempts >= 1 && (row.status == Retry || exists w <- s.senders :: s.senders[w] == Holding) ==>
                MinAge(cfg, row.attempts, false) < cfg.maxAge * SECOND))
  }

  lemma StepKeepsSchedule(cfg: Settings, s: State, e: Event, crashes: bool)
    requires Scheduled(cfg, s, crashes)
    requires s.senders != map[] && s.row.status == Sending ==> s.clock <= s.row.updatedAt + STALE_PROCESSING_AFTER
    requires e.Crash? ==> crashes
    ensures Scheduled(cfg, Step(cfg, s, e), crashes)
    ensures s.row.Terminal() && s.senders == map[] ==> Step(cfg, s, e).(clock := s.clock) == s
  {
    match e
    case Start(w) => StartKeepsSchedule(cfg, s, w, crashes);
    case Reply(w, reply) => ReplyKeepsSchedule(cfg, s, w, reply, crashes);
    case Claim(w) => ClaimKeepsSchedule(cfg, s, w, crashes);
    case _ =>
  }

  lemma StartKeepsSchedule(cfg: Settings, s: State, w: nat, crashes: bool)
    requires Scheduled(cfg, s, crashes)
    ensures Scheduled(cfg, Step(cfg, s, Start(w)), crashes)
  {
    if At(s, w, Holding) {
      assert s.row.status == Sending;
    }
  }

  lemma ReplyKeepsSchedule(cfg: Settings, s: State, w: nat, reply: Reply, crashes: bool)
    requires Scheduled(cfg, s, crashes)
    ensures Scheduled(cfg, Step(cfg, s, Reply(w, reply)), crashes)
  {
    if w in s.senders && s.senders[w].Posting? {
      assert s.senders - {w} == map[];
    }
  }

  lemma ClaimKeepsSchedule(cfg: Settings, s: State, w: nat, crashes: bool)
    requires Scheduled(cfg, s, crashes)
    ensures Scheduled(cfg, Step(cfg, s, Claim(w)), crashes)
  {
    if w !in s.senders && Due(s.row, s.clock) {
      assert s.senders == map[];
    }
  }

  /** In every timely run there is at most one live sender, a settled request never changes
      again, and the ages of attempts obey the schedule. */
  lemma {:induction false} ScheduleHolds(cfg: Settings, s: State, run: seq<Event>, crashes: bool)
    requires Scheduled(cfg, s, crashes) && AlwaysOnTime(cfg, s, run) && (crashes || NoCrash(run))
    ensures Scheduled(cfg, Run(cfg, s, run), crashes)
    ensures s.row.Terminal() && s.senders == map[] ==> Run(cfg, s, run).row == s.row
    decreases |run|
  {
    if run != [] {
      StepKeepsSchedule(cfg, s, run[0], crashes);
      ScheduleHolds(cfg, Step(cfg, s, run[0]), run[1..], crashes);
    }
  }

  /** A retryable failure at an attempt whose least age reaches the limit ends the request. */
  lemma LateFailureExhausts(cfg: Settings, s: State, w: nat, code: Option<int>, crashes: bool)
    requires Scheduled(cfg, s, crashes) && w in s.senders && s.senders[w].Posting?
    requires Retryable(code) && MinAge(cfg, s.row.attempts, crashes) >= cfg.maxAge * SECOND
    ensures Step(cfg, s, Reply(w, Failure(code))).row.status == Exhausted
  {
  }

  lemma {:induction false} MinAgeGrows(cfg: Settings, m: nat, n: nat, crashes: bool)
    requires m <= n
    ensures MinAge(cfg, m, crashes) <= MinAge(cfg, n, crashes)
    decreases n
  {
    if m < n {
      MinAgeGrows(cfg, m, n - 1, crashes);
    }
  }

  /** With positive settings attempts are at least a second apart, so any age limit is
      reached after finitely many of them. */
  lemma {:induction false} AttemptsTakeTime(cfg: Settings, n: nat, crashes: bool)
    requires n >= 1 && cfg.initial > 0 && cfg.max > 0
    ensures MinAge(cfg, n, crashes) >= (n - 1) * SECOND
  {
    if n > 1 {
      AttemptsTakeTime(cfg, n - 1, crashes);
      DelayBounds(cfg, n - 1);
    }
  }

  /** An uninterrupted request makes at most one attempt more than the age limit has seconds. */
  lemma AttemptsAreBounded(cfg: Settings, now: int, sender: nat, run: seq<Event>)
    requires cfg.initial > 0 && cfg.max > 0
    requires AlwaysOnTime(cfg, Initial(now, sender), run) && NoCrash(run)
    ensures Run(cfg, Initial(now, sender), run).row.attempts <= cfg.maxAge + 1
  {
    InitialScheduled(cfg, now, sender, false);
    ScheduleHolds(cfg, Initial(now, sender), run, false);
    var n := Run(cfg, Initial(now, sender), run).row.attempts;
    if n >= 2 {
      AttemptsTakeTime(cfg, n - 1, false);
    }
  }

  lemma InitialScheduled(cfg: Settings, now: int, sender: nat, crashes: bool)
    ensures Scheduled(cfg, Initial(now, sender), crashes)
  {
    assert sender in Initial(now, sender).senders;
  }

  lemma {:induction false} DefaultAges(n: nat)
    requires n >= 1
    ensures n >= 6 ==> MinAge(DEFAULTS, n, false) == (1860 + 1800 * (n - 6)) * SECOND
    ensures n < 6 ==> MinAge(DEFAULTS, n, false) <= 900 * SECOND
    ensures n >= 4 ==> MinAge(DEFAULTS, n, true) == (420 + 300 * (n - 4)) * SECOND
    ensures n < 4 ==> MinAge(DEFAULTS, n, true) <= 180 * SECOND
    ensures n == 5 ==> MinAge(DEFAULTS, n, false) == 900 * SECOND
    ensures n == 4 ==> MinAge(DEFAULTS, n, false) == 420 * SECOND
    ensures n == 3 ==> MinAge(DEFAULTS, n, false) == MinAge(DEFAULTS, n, true) == 180 * SECOND
    ensures n == 2 ==> MinAge(DEFAULTS, n, false) == MinAge(DEFAULTS, n, true) == 60 * SECOND
  {
    if n > 1 {
      DefaultAges(n - 1);
      DefaultSchedule(n - 1);
    }
  }

  /** A retryable failure of a sender that is posting exhausts the request. */
  predicate FailureExhausts(s: State, w: nat, code: Option<int>) {
    w in s.senders && s.senders[w].Posting? && Retryable(code) ==>
      Step(DEFAULTS, s, Reply(w, Failure(code))).row.status == Exhausted
  }

  /** At the default settings a request that is never interrupted makes at most 53
      attempts, and it waits for a retry only after at most 52 of them. */
  lemma AtMost53Attempts(now: int, sender: nat, run: seq<Event>)
    requires AlwaysOnTime(DEFAULTS, Initial(now, sender), run) && NoCrash(run)
    ensures var s := Run(DEFAULTS, Initial(now, sender), run);
            && s.row.attempts <= 53
            && (s.row.status == Retry ==> s.row.attempts <= 52)
            && (forall w, code :: s.row.attempts == 53 ==> FailureExhausts(s, w, code))
  {
    InitialScheduled(DEFAULTS, now, sender, false);
    ScheduleHolds(DEFAULTS, Initial(now, sender), run, false);
    LastAttempt(Run(DEFAULTS, Initial(now, sender), run));
  }

  lemma LastAttempt(s: State)
    requires Scheduled(DEFAULTS, s, false)
    ensures s.row.attempts <= 53 && (s.row.status == Retry ==> s.row.attempts <= 52)
    ensures forall w, code :: s.row.attempts == 53 ==> FailureExhausts(s, w, code)
  {
    MostAttempts(s);
    forall w, code | s.row.attempts == 53 ensures FailureExhausts(s, w, code) {
      LastFailure(s, w, code);
    }
  }

  lemma LastFailure(s: State, w: nat, code: Option<int>)
    requires Scheduled(DEFAULTS, s, false) && s.row.attempts == 53
    ensures FailureExhausts(s, w, code)
  {
    MostAttempts(s);
    if w in s.senders && s.senders[w].Posting? && Retryable(code) {
      LateFailureExhausts(DEFAULTS, s, w, code, false);
    }
  }

  lemma MostAttempts(s: State)
    requires Scheduled(DEFAULTS, s, false)
    ensures s.row.attempts <= 53
    ensures s.row.status == Retry ==> s.row.attempts <= 52
    ensures s.row.attempts == 53 ==> MinAge(DEFAULTS, s.row.attempts, false) >= DEFAULTS.maxAge * SECOND
  {
    if s.row.attempts >= 53 {
      DefaultAges(s.row.attempts);
      DefaultAges(s.row.attempts - 1);
    }
  }

  /** Crashes can shorten the backoff to the stale window, so the same guarantee starts
      at attempt 291 of any run. */
  lemma FailureAfter291Exhausts(now: int, sender: nat, run: seq<Event>, w: nat, code: Option<int>)
    requires AlwaysOnTime(DEFAULTS, Initial(now, sender), run)
    requires var s := Run(DEFAULTS, Initial(now, sender), run);
             w in s.senders && s.senders[w].Posting? && s.row.attempts >= 291 && Retryable(code)
    ensures Step(DEFAULTS, Run(DEFAULTS, Initial(now, sender), run), Reply(w, Failure(code))).row.status == Exhausted
  {
    InitialScheduled(DEFAULTS, now, sender, true);
    ScheduleHolds(DEFAULTS, Initial(now, sender), run, true);
    DefaultAges(Run(DEFAULTS, Initial(now, sender), run).row.attempts);
  }

  // ---- Attempts against crashes ----

  function Crashes(run: seq<Event>): nat {
    if run == [] then 0 else (if run[0].Crash? then 1 else 0) + Crashes(run[1..])
  }

  /** One more attempt is on its way: the request waits, was abandoned, or is held for sending. */
  ghost predicate Upcoming(s: State) {
    || s.row.status == Retry
    || (s.row.status == Sending && (s.senders == map[] || exists w <- s.senders :: s.senders[w] == Holding))
  }

  /** Until the n-th attempt nothing is said; from then on every attempt, made or upcoming, is
      paid for by a crash. */
  ghost predicate Counted(s: State, n: nat, crashes: nat) {
    s.row.attempts < n || s.row.attempts + (if Upcoming(s) then 1 else 0) <= n + crashes
  }

  /** A failure at the n-th attempt or later leaves nothing upcoming. */
  lemma ReplyCounts(cfg: Settings, s: State, w: nat, reply: Reply, n: nat, crashes: nat)
    requires Scheduled(cfg, s, true) && Counted(s, n, crashes)
    requires MinAge(cfg, n, true) >= cfg.maxAge * SECOND
    ensures Counted(Step(cfg, s, Reply(w, reply)), n, crashes)
  {
    var t := Step(cfg, s, Reply(w, reply));
    if w in s.senders && s.senders[w].Posting? && s.row.attempts >= n {
      if reply.Failure? && Retryable(reply.code) {
        MinAgeGrows(cfg, n, s.row.attempts, true);
        LateFailureExhausts(cfg, s, w, reply.code, true);
      }
      assert !Upcoming(t);
    }
  }

  lemma StartCounts(cfg: Settings, s: State, w: nat, n: nat, crashes: nat)
    requires Scheduled(cfg, s, true) && Counted(s, n, crashes)
    ensures Counted(Step(cfg, s, Start(w)), n, crashes)
  {
    if At(s, w, Holding) {
      assert Upcoming(s);
      assert !Upcoming(Step(cfg, s, Start(w)));
    }
  }

  lemma CrashCounts(cfg: Settings, s: State, w: nat, n: nat, crashes: nat)
    requires Counted(s, n, crashes)
    ensures Counted(Step(cfg, s, Crash(w)), n, crashes + 1)
  {
  }

  lemma OthersCount(cfg: Settings, s: State, e: Event, n: nat, crashes: nat)
    requires Scheduled(cfg, s, true) && Counted(s, n, crashes)
    requires s.senders != map[] && s.row.status == Sending ==> s.clock <= s.row.updatedAt + STALE_PROCESSING_AFTER
    requires !e.Reply? && !e.Start? && !e.Crash?
    ensures Counted(Step(cfg, s, e), n, crashes)
  {
    assert Upcoming(Step(cfg, s, e)) ==> Upcoming(s);
  }

  lemma StepCounts(cfg: Settings, s: State, e: Event, n: nat, crashes: nat)
    requires Scheduled(cfg, s, true) && Counted(s, n, crashes)
    requires s.senders != map[] && s.row.status == Sending ==> s.clock <= s.row.updatedAt + STALE_PROCESSING_AFTER
    requires MinAge(cfg, n, true) >= cfg.maxAge * SECOND
    ensures Counted(Step(cfg, s, e), n, crashes + if e.Crash? then 1 else 0)
  {
    match e
    case Reply(w, reply) => ReplyCounts(cfg, s, w, reply, n, crashes);
    case Start(w) => StartCounts(cfg, s, w, n, crashes);
    case Crash(w) => CrashCounts(cfg, s, w, n, crashes);
    case _ => OthersCount(cfg, s, e, n, crashes);
  }

  lemma {:induction false} RunCounts(cfg: Settings, s: State, run: seq<Event>, n: nat, crashes: nat)
    requires Scheduled(cfg, s, true) && AlwaysOnTime(cfg, s, run) && Counted(s, n, crashes)
    requires MinAge(cfg, n, true) >= cfg.maxAge * SECOND
    ensures Counted(Run(cfg, s, run), n, crashes + Crashes(run))
    decreases |run|
  {
    if run != [] {
      StepKeepsSchedule(cfg, s, run[0], true);
      StepCounts(cfg, s, run[0], n, crashes);
      RunCounts(cfg, Step(cfg, s, run[0]), run[1..], n, crashes + if run[0].Crash? then 1 else 0);
    }
  }

  /** A request that can age out by its n-th attempt makes at most n attempts and one for each
      crash. */
  lemma AttemptsPaidByCrashes(cfg: Settings, now: int, sender: nat, run: seq<Event>, n: nat)
    requires AlwaysOnTime(cfg, Initial(now, sender), run) && n >= 1 && MinAge(cfg, n, true) >= cfg.maxAge * SECOND
    ensures Run(cfg, Initial(now, sender), run).row.attempts <= n + Crashes(run)
  {
    InitialScheduled(cfg, now, sender, true);
    RunCounts(cfg, Initial(now, sender), run, n, 0);
  }

  /** For all positive settings the attempts of any timely run are bounded by its crashes. */
  lemma CrashesBoundAttempts(cfg: Settings, now: int, sender: nat, run: seq<Event>)
    requires cfg.initial > 0 && cfg.max > 0 && AlwaysOnTime(cfg, Initial(now, sender), run)
    ensures Run(cfg, Initial(now, sender), run).row.attempts <= cfg.maxAge + 1 + Crashes(run)
  {
    AttemptsTakeTime(cfg, cfg.maxAge + 1, true);
    AttemptsPaidByCrashes(cfg, now, sender, run, cfg.maxAge + 1);
  }

  /** At the default settings: 291 attempts, and one more for each crash. */
  lemma DefaultAttempts(now: int, sender: nat, run: seq<Event>)
    requires AlwaysOnTime(DEFAULTS, Initial(now, sender), run)
    ensures Run(DEFAULTS, Initial(now, sender), run).row.attempts <= 291 + Crashes(run)
  {
    var n: nat :| n == 291;
    DefaultAges(n);
    AttemptsPaidByCrashes(DEFAULTS, now, sender, run, n);
  }

  // ---- The bounds are met, and what escapes them ----

  /** The n-th punctual round: wait out the backoff, claim, post, fail with no response. */
  function Round(cfg: Settings, n: nat, sender: nat): seq<Event> {
    (if n == 0 then [] else [Tick(RetryDelay(cfg, n) * SECOND), Claim(sender)]) +
    [Start(sender), Reply(sender, Failure(None))]
  }

  function Rounds(cfg: Settings, n: nat, sender: nat): seq<Event> {
    if n == 0 then [] else Rounds(cfg, n - 1, sender) + Round(cfg, n - 1, sender)
  }

  lemma {:induction false} RunAppend(cfg: Settings, s: State, a: seq<Event>, b: seq<Event>)
    ensures Run(cfg, s, a + b) == Run(cfg, Run(cfg, s, a), b)
    ensures AlwaysOnTime(cfg, s, a) && AlwaysOnTime(cfg, Run(cfg, s, a), b) ==> AlwaysOnTime(cfg, s, a + b)
    decreases |a|
  {
    if a == [] {
      assert a + b == b;
    } else {
      assert (a + b)[1..] == a[1..] + b;
      RunAppend(cfg, Step(cfg, s, a[0]), a[1..], b);
    }
  }

  /** The state after n punctual failures: exactly as old as the schedule says. */
  function Punctual(cfg: Settings, n: nat): State
    requires n >= 1
  {
    var age := MinAge(cfg, n, false);
    var over := age >= cfg.maxAge * SECOND;
    State(age,
          Row(if over then Exhausted else Retry, n, Some(0),
              if over then None else Some(age + RetryDelay(cfg, n) * SECOND), age),
          map[], age)
  }

  lemma FirstFailure(cfg: Settings, sender: nat)
    ensures Run(cfg, Initial(0, sender), Round(cfg, 0, sender)) == Punctual(cfg, 1)
    ensures AlwaysOnTime(cfg, Initial(0, sender), Round(cfg, 0, sender))
  {
    var start, fail: Event := Start(sender), Reply(sender, Failure(None));
    assert Round(cfg, 0, sender) == [start, fail];
    UnfoldTwo(cfg, Initial(0, sender), start, fail);
    assert Step(cfg, Step(cfg, Initial(0, sender), start), fail).senders == map[];
  }

  lemma NextFailure(cfg: Settings, n: nat, sender: nat)
    requires n >= 1 && MinAge(cfg, n, false) < cfg.maxAge * SECOND
    ensures Run(cfg, Punctual(cfg, n), Round(cfg, n, sender)) == Punctual(cfg, n + 1)
    ensures AlwaysOnTime(cfg, Punctual(cfg, n), Round(cfg, n, sender))
  {
    var s := Punctual(cfg, n);
    var tick, claim: Event := Tick(RetryDelay(cfg, n) * SECOND), Claim(sender);
    var start, fail: Event := Start(sender), Reply(sender, Failure(None));
    var s1 := Step(cfg, s, tick);
    var s2 := Step(cfg, s1, claim);
    var s3 := Step(cfg, s2, start);
    var s4 := Step(cfg, s3, fail);
    assert s4.senders == map[];
    assert s4 == Punctual(cfg, n + 1);
    assert Round(cfg, n, sender) == [tick, claim] + [start, fail];
    UnfoldTwo(cfg, s, tick, claim);
    UnfoldTwo(cfg, s2, start, fail);
    RunAppend(cfg, s, [tick, claim], [start, fail]);
  }

  lemma {:induction false} PunctualFailures(cfg: Settings, n: nat, sender: nat)
    requires n >= 1 && (n >= 2 ==> MinAge(cfg, n - 1, false) < cfg.maxAge * SECOND)
    ensures Run(cfg, Initial(0, sender), Rounds(cfg, n, sender)) == Punctual(cfg, n)
    ensures AlwaysOnTime(cfg, Initial(0, sender), Rounds(cfg, n, sender))
  {
    if n == 1 {
      assert Rounds(cfg, 0, sender) == [];
      assert Rounds(cfg, 1, sender) == Round(cfg, 0, sender);
      FirstFailure(cfg, sender);
    } else {
      MinAgeGrows(cfg, n - 2, n - 1, false);
      PunctualFailures(cfg, n - 1, sender);
      NextFailure(cfg, n - 1, sender);
      RunAppend(cfg, Initial(0, sender), Rounds(cfg, n - 1, sender), Round(cfg, n - 1, sender));
    }
  }

  lemma UnfoldTwo(cfg: Settings, s: State, a: Event, b: Event)
    ensures Run(cfg, s, [a, b]) == Step(cfg, Step(cfg, s, a), b)
    ensures AlwaysOnTime(cfg, s, [a, b]) <==>
            AlwaysOnTime(cfg, s, []) && AlwaysOnTime(cfg, Step(cfg, s, a), []) &&
            AlwaysOnTime(cfg, Step(cfg, Step(cfg, s, a), b), [])
  {
    assert [a, b][1..] == [b] && [b][1..] == [];
    assert Run(cfg, Step(cfg, s, a), [b]) == Run(cfg, Step(cfg, Step(cfg, s, a), b), []);
  }

  /** The bound of 53 is met: a punctual, always failing request is still waiting after its
      52nd attempt and exhausted by its 53rd. */
  lemma PunctuallyExhausted(n: nat, sender: nat)
    requires 6 < n <= 53
    ensures var s := Run(DEFAULTS, Initial(0, sender), Rounds(DEFAULTS, n, sender));
            && s.row.attempts == n
            && (s.row.status == Exhausted <==> n == 53) && (s.row.status == Retry <==> n < 53)
  {
    DefaultAges(n);
    DefaultAges(n - 1);
    PunctualFailures(DEFAULTS, n, sender);
  }

  /** A sender that dies while posting, and the recovery that follows. */
  function CrashRound(sender: nat): seq<Event> {
    [Start(sender), Crash(sender)] + [Tick(301 * SECOND), Recover] + [Claim(sender)]
  }

  function CrashRounds(n: nat, sender: nat): seq<Event> {
    if n == 0 then [] else CrashRounds(n - 1, sender) + CrashRound(sender)
  }

  lemma {:induction false} CrashesOfParts(a: seq<Event>, b: seq<Event>)
    ensures Crashes(a + b) == Crashes(a) + Crashes(b)
  {
    if a == [] {
      assert a + b == b;
    } else {
      assert (a + b)[1..] == a[1..] + b;
      CrashesOfParts(a[1..], b);
    }
  }

  /** The bound by crashes has the right slope: these runs make an attempt for every crash. */
  lemma {:induction false} CrashRoundsCrash(n: nat, sender: nat)
    ensures Crashes(CrashRounds(n, sender)) == n
  {
    if n > 0 {
      CrashRoundsCrash(n - 1, sender);
      CrashesOfParts(CrashRounds(n - 1, sender), CrashRound(sender));
      OneCrash(sender);
    }
  }

  lemma OneCrash(sender: nat)
    ensures Crashes(CrashRound(sender)) == 1
  {
    var start, crash, tick, claim: Event := Start(sender), Crash(sender), Tick(301 * SECOND), Claim(sender);
    var run := CrashRound(sender);
    assert run == [start, crash, tick, Recover, claim];
    assert run[1..] == [crash, tick, Recover, claim] && run[1..][1..] == [tick, Recover, claim];
    assert Crashes([claim]) == 0 by { assert [claim][1..] == []; }
    assert Crashes([Recover, claim]) == 0 by { assert [Recover, claim][1..] == [claim]; }
    assert Crashes([tick, Recover, claim]) == 0 by { assert [tick, Recover, claim][1..] == [Recover, claim]; }
  }

  /** Exhaustion is only ever decided by a post that fails: a request whose sender dies
      each time is resent without end, however old it is. */
  lemma {:induction false} CrashesEscapeTheLimit(cfg: Settings, n: nat, sender: nat)
    ensures var s := Run(cfg, Initial(0, sender), CrashRounds(n, sender));
            && s.row.attempts == n && s.row.status == Sending && s.senders == map[sender := Holding]
            && s.clock == s.row.updatedAt == n * 301 * SECOND
    ensures AlwaysOnTime(cfg, Initial(0, sender), CrashRounds(n, sender))
  {
    var s0 := Initial(0, sender);
    if n == 0 {
      assert AlwaysOnTime(cfg, s0, []);
    } else {
      CrashesEscapeTheLimit(cfg, n - 1, sender);
      var s := Run(cfg, s0, CrashRounds(n - 1, sender));
      var start, crash, tick, claim: Event := Start(sender), Crash(sender), Tick(301 * SECOND), Claim(sender);
      var s1 := Step(cfg, s, start);
      var s2 := Step(cfg, s1, crash);
      assert s2.senders == map[];
      var s3 := Step(cfg, s2, tick);
      var s4 := Step(cfg, s3, Recover);
      var s5 := Step(cfg, s4, claim);
      UnfoldTwo(cfg, s, start, crash);
      UnfoldTwo(cfg, s2, tick, Recover);
      assert [claim][1..] == [];
      assert Run(cfg, s4, [claim]) == Run(cfg, s5, []) && AlwaysOnTime(cfg, s5, []);
      assert AlwaysOnTime(cfg, s4, [claim]);
      RunAppend(cfg, s2, [tick, Recover], [claim]);
      RunAppend(cfg, s, [start, crash], [tick, Recover] + [claim]);
      assert CrashRound(sender) == [start, crash] + ([tick, Recover] + [claim]);
      RunAppend(cfg, s0, CrashRounds(n - 1, sender), CrashRound(sender));
    }
  }
}
