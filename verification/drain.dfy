/** One timer invocation: drain both GePG queues within a time budget. */
module Drain {
  import opened Common
  import opened Backoff
  import Inbox
  import Outbox

  const MAX_PROCESSING_ITEM: int := 35 * SECOND

  type Callbacks = map<Inbox.Key, Inbox.Row>
  type Requests = map<nat, Outbox.Row>

  ghost function DueCallbacks(rows: Callbacks, now: int): set<Inbox.Key> {
    set k | k in rows && Inbox.Due(rows[k], now)
  }

  ghost function DueRequests(rows: Requests, now: int): set<nat> {
    set k | k in rows && Outbox.Due(rows[k], now)
  }

  /** What others may do while time passes: callbacks arrive, and senders outside the
      timer add requests and update their own, never lowering a count of attempts, but nobody
      else touches a waiting row. */
  ghost predicate Undisturbed(cs: Callbacks, rs: Requests, cs': Callbacks, rs': Requests) {
    && (forall k <- cs :: k in cs' && cs'[k] == cs[k])
    && (forall k <- rs :: k in rs' && rs[k].attempts <= rs'[k].attempts && (rs[k].status == Outbox.Retry ==> rs'[k] == rs[k]))
  }

  /** How many rows are due. */
  ghost function Backlog(cs: Callbacks, rs: Requests, now: int): nat {
    |DueCallbacks(cs, now)| + |DueRequests(rs, now)|
  }

  /** Each row has been attempted as often as the list says, and nobody else attempts callbacks. */
  ghost predicate CallbacksWorked(cs: Callbacks, cs': Callbacks, worked: seq<Inbox.Key>) {
    forall k <- cs :: k in cs' && cs'[k].attempts == cs[k].attempts + multiset(worked)[k]
  }

  /** Each request has been attempted at least as often; other senders may attempt it too. */
  ghost predicate RequestsWorked(rs: Requests, rs': Requests, posted: seq<nat>) {
    forall k <- rs :: k in rs' && rs'[k].attempts >= rs[k].attempts + multiset(posted)[k]
  }

  /** A waiting request still waits as it was, or has been attempted since. */
  ghost predicate WaitedOrTried(rs: Requests, rs': Requests) {
    forall k <- rs :: rs[k].status == Outbox.Retry ==>
                        k in rs' && (rs'[k] == rs[k] || rs'[k].attempts > rs[k].attempts)
  }

  lemma SeenThen(rs: Requests, rs1: Requests, seen: Requests)
    requires WaitedOrTried(rs, rs1) && WaitedOrTried(rs1, seen)
    requires forall k <- rs1 :: k in seen && rs1[k].attempts <= seen[k].attempts
    ensures WaitedOrTried(rs, seen)
  {
  }

  lemma TriedThen(rs: Requests, rs1: Requests, rs2: Requests, posted: seq<nat>)
    requires WaitedOrTried(rs, rs1) && WaitedOrTried(rs1, rs2) && RequestsWorked(rs1, rs2, posted)
    ensures WaitedOrTried(rs, rs2)
  {
  }

  /** What recovery sets to retry: waiting, due at once, with its attempts and first attempt kept. */
  ghost predicate Recovery(before: Requests, rs: Requests, began: int) {
    forall k <- before :: Outbox.Abandoned(before[k], began) ==> k in rs && rs[k] == Outbox.Recovered(before[k], began)
  }

  /** Every abandoned request has been attempted again, or waits. */
  ghost predicate Resumed(before: Requests, rs: Requests, began: int) {
    forall k <- before :: Outbox.Abandoned(before[k], began) ==>
      k in rs && (rs[k].attempts > before[k].attempts || rs[k].status == Outbox.Retry)
  }

  ghost predicate Resent(before: Requests, rs: Requests, began: int) {
    forall k <- before :: Outbox.Abandoned(before[k], began) ==> k in rs && rs[k].attempts > before[k].attempts
  }

  lemma RecoveredResume(before: Requests, rs: Requests, rs': Requests, began: int)
    requires Recovery(before, rs, began) && WaitedOrTried(rs, rs')
    ensures Resumed(before, rs', began)
  {
  }

  /** If a later look at the queue finds nothing due, all that was recovered has been sent. */
  lemma RecoveredAreSent(before: Requests, rs: Requests, seen: Requests, rs': Requests, began: int, r: int)
    requires Recovery(before, rs, began) && WaitedOrTried(rs, seen) && began <= r && DueRequests(seen, r) == {}
    requires forall k <- seen :: k in rs' && seen[k].attempts <= rs'[k].attempts
    ensures Resent(before, rs', began)
  {
    forall k | k in before && Outbox.Abandoned(before[k], began)
      ensures k in rs' && rs'[k].attempts > before[k].attempts
    {
      assert k !in DueRequests(seen, r);
    }
  }

  lemma WorkedThen(cs: Callbacks, cs1: Callbacks, cs2: Callbacks, a: seq<Inbox.Key>, b: seq<Inbox.Key>)
    requires CallbacksWorked(cs, cs1, a) && CallbacksWorked(cs1, cs2, b)
    ensures CallbacksWorked(cs, cs2, a + b) && |a + b| == |a| + |b|
  {
    assert multiset(a + b) == multiset(a) + multiset(b);
  }

  lemma PostedThen(rs: Requests, rs1: Requests, rs2: Requests, a: seq<nat>, b: seq<nat>)
    requires RequestsWorked(rs, rs1, a) && RequestsWorked(rs1, rs2, b)
    ensures RequestsWorked(rs, rs2, a + b) && |a + b| == |a| + |b|
  {
    assert multiset(a + b) == multiset(a) + multiset(b);
  }

  lemma OneCallback(cs: Callbacks, rs: Requests, cs': Callbacks, rs': Requests, key: Inbox.Key)
    requires Undisturbed(cs - {key}, rs, cs' - {key}, rs') && key in cs && key in cs'
    requires cs'[key].attempts == cs[key].attempts + 1
    ensures CallbacksWorked(cs, cs', [key]) && RequestsWorked(rs, rs', [])
  {
    forall k | k in cs ensures k in cs' && cs'[k].attempts == cs[k].attempts + multiset([key])[k] {
      if k != key {
        assert k in cs - {key} && (cs - {key})[k] == cs[k];
      }
    }
  }

  lemma OneRequest(cs: Callbacks, rs: Requests, cs': Callbacks, rs': Requests, id: nat)
    requires Undisturbed(cs, rs - {id}, cs', rs' - {id}) && id in rs && id in rs'
    requires rs'[id].attempts == rs[id].attempts + 1
    ensures CallbacksWorked(cs, cs', []) && RequestsWorked(rs, rs', [id])
  {
    forall k | k in rs ensures k in rs' && rs'[k].attempts >= rs[k].attempts + multiset([id])[k] {
      if k != id {
        assert k in rs - {id} && (rs - {id})[k] == rs[k];
      }
    }
  }

  lemma OthersWaited(rs: Requests, rs': Requests, id: nat)
    requires Undisturbed(map[], rs - {id}, map[], rs' - {id}) && id in rs && id in rs'
    requires rs'[id].attempts == rs[id].attempts + 1
    ensures WaitedOrTried(rs, rs')
  {
    forall k | k in rs && k != id && rs[k].status == Outbox.Retry ensures k in rs' && rs'[k] == rs[k] {
      assert k in rs - {id} && (rs - {id})[k] == rs[k];
    }
  }

  /** Time passing works nothing. */
  lemma WorkedStill(cs: Callbacks, rs: Requests, cs1: Callbacks, rs1: Requests, cs2: Callbacks, rs2: Requests,
                    worked: seq<Inbox.Key>, posted: seq<nat>)
    requires CallbacksWorked(cs, cs1, worked) && RequestsWorked(rs, rs1, posted) && Undisturbed(cs1, rs1, cs2, rs2)
    ensures CallbacksWorked(cs, cs2, worked) && RequestsWorked(rs, rs2, posted)
  {
  }

  lemma {:induction false} EarliestExists<K>(keys: set<K>, at: map<K, int>)
    requires keys != {} && keys <= at.Keys
    ensures exists k <- keys :: forall j <- keys :: at[k] <= at[j]
  {
    var k :| k in keys;
    var rest := keys - {k};
    if rest != {} {
      EarliestExists(rest, at);
      var m :| m in rest && forall j <- rest :: at[m] <= at[j];
      var least := if at[k] <= at[m] then k else m;
      assert forall j <- keys :: j == k || j in rest;
      assert least in keys && forall j <- keys :: at[least] <= at[j];
    } else {
      assert forall j <- keys :: j !in rest;
    }
  }

  class Worker {
    var callbacks: Callbacks
    var requests: Requests
    var clock: int

    /** The clock never runs backwards, and others act only while it moves. */
    method Read() returns (t: int)
      modifies this
      ensures t == clock >= old(clock)
      ensures Undisturbed(old(callbacks), old(requests), callbacks, requests)
      ensures clock == old(clock) ==> callbacks == old(callbacks) && requests == old(requests)
    {
      var d: nat := *;
      if d > 0 {
        var arriving: Callbacks := *;
        var sending: Requests := *;
        callbacks := arriving + callbacks;
        requests := map k | k in requests.Keys + sending.Keys ::
          if k in requests && (requests[k].status == Outbox.Retry || k !in sending ||
                               sending[k].attempts < requests[k].attempts) then requests[k]
          else sending[k];
        clock := clock + d;
      }
      t := clock;
    }

    /** Return requests abandoned mid-send to the retry queue, as one bulk update. */
    method RecoverStale(now: int) returns (recovered: nat)
      modifies this`requests
      ensures requests.Keys == old(requests).Keys
      ensures forall k <- requests ::
                if Outbox.Abandoned(old(requests)[k], now)
                then requests[k] == Outbox.Recovered(old(requests)[k], now) && Outbox.Due(requests[k], now)
                else requests[k] == old(requests)[k]
      ensures recovered == |set k | k in old(requests) && Outbox.Abandoned(old(requests)[k], now)|
    {
      var abandoned := set k | k in requests && Outbox.Abandoned(requests[k], now);
      requests := map k | k in requests ::
        if k in abandoned then Outbox.Recovered(requests[k], now) else requests[k];
      recovered := |abandoned|;
    }

    /** The oldest due callback, if there is one. */
    method NextDueCallback(now: int) returns (key: Option<Inbox.Key>)
      ensures key.None? <==> DueCallbacks(callbacks, now) == {}
      ensures key.Some? ==>
                && key.value in DueCallbacks(callbacks, now)
                && forall j <- DueCallbacks(callbacks, now) ::
                     callbacks[key.value].createdAt <= callbacks[j].createdAt
    {
      var due := set k | k in callbacks && Inbox.Due(callbacks[k], now);
      if due == {} {
        return None;
      }
      ghost var at := map k | k in callbacks :: callbacks[k].createdAt;
      EarliestExists(due, at);
      assert exists k <- due :: forall j <- due :: at[k] <= at[j];
      var k :| k in due && forall j <- due :: callbacks[k].createdAt <= callbacks[j].createdAt;
      key := Some(k);
    }

    /** The due request whose retry time comes first; rows without one come last. */
    method NextDueRequest(now: int) returns (id: Option<nat>)
      ensures id.None? <==> DueRequests(requests, now) == {}
      ensures id.Some? ==>
                && id.value in DueRequests(requests, now)
                && (requests[id.value].nextAttempt.Some? ==>
                      forall j <- DueRequests(requests, now) :: requests[j].nextAttempt.Some? ==>
                        requests[id.value].nextAttempt.value <= requests[j].nextAttempt.value)
                && (requests[id.value].nextAttempt.None? ==>
                      forall j <- DueRequests(requests, now) :: requests[j].nextAttempt.None?)
    {
      var due := set k | k in requests && Outbox.Due(requests[k], now);
      var timed := set k | k in due && requests[k].nextAttempt.Some?;
      if due == {} {
        return None;
      }
      if timed == {} {
        var k :| k in due;
        forall j <- due ensures requests[j].nextAttempt.None? {
          assert j !in timed;
        }
        return Some(k);
      }
      ghost var at := map k | k in timed :: requests[k].nextAttempt.value;
      EarliestExists(timed, at);
      assert exists k <- timed :: forall j <- timed :: at[k] <= at[j];
      var k :| k in timed && forall j <- timed ::
                 requests[k].nextAttempt.value <= requests[j].nextAttempt.value;
      id := Some(k);
    }

    /** Claim and settle one callback; the reply and the time it takes are the gateway's
        and the database's. */
    method ProcessCallback(cfg: Settings, key: Inbox.Key)
      returns (worked: bool, ghost claimed: int, ghost answer: Option<string>)
      requires cfg.initial > 0 && cfg.max > 0
      requires key in DueCallbacks(callbacks, clock)
      modifies this
      ensures worked && clock >= old(clock)
      ensures old(callbacks).Keys <= callbacks.Keys && old(requests).Keys <= requests.Keys
      ensures Undisturbed(old(callbacks) - {key}, old(requests), callbacks - {key}, requests)
      ensures key in callbacks && callbacks[key].attempts == old(callbacks)[key].attempts + 1
      ensures old(clock) <= claimed <= clock
      ensures callbacks[key] == Inbox.Settled(cfg, Inbox.Claimed(old(callbacks)[key], claimed), callbacks[key].attempts,
                                              Inbox.Judge(key.kind, answer), clock)
      ensures !Inbox.Due(callbacks[key], clock)
      ensures clock == old(clock) ==>
                && requests == old(requests) && callbacks == old(callbacks)[key := callbacks[key]]
    {
      var now := Read();
      claimed, answer := now, None;
      worked := Inbox.Due(callbacks[key], now);
      if worked {
        callbacks := callbacks[key := Inbox.Claimed(callbacks[key], now)];
        var reply: Option<string> := *;
        answer := reply;
        var later := Read();
        var row := callbacks[key];
        DelayBounds(cfg, row.attempts);
        callbacks := callbacks[key := Inbox.Settled(cfg, row, row.attempts, Inbox.Judge(key.kind, reply), later)];
      }
    }

    /** Claim one request, send it once, and record the gateway's answer. */
    method ProcessRequest(cfg: Settings, id: nat)
      returns (worked: bool, ghost started: int, ghost answer: Outbox.Reply, ghost verdict: bool)
      requires cfg.initial > 0 && cfg.max > 0
      requires id in DueRequests(requests, clock)
      modifies this
      ensures worked && clock >= old(clock)
      ensures old(callbacks).Keys <= callbacks.Keys && old(requests).Keys <= requests.Keys
      ensures Undisturbed(old(callbacks), old(requests) - {id}, callbacks, requests - {id})
      ensures id in requests && requests[id].attempts == old(requests)[id].attempts + 1
      ensures requests[id].Terminal() || requests[id].status == Outbox.Retry
      ensures old(clock) <= started <= clock
      ensures var row := Outbox.Started(old(requests)[id], started);
              requests[id] == if answer == Outbox.Delivered then Outbox.Finished(row, verdict, clock)
                              else Outbox.Failed(cfg, row, started, answer.code, clock)
      ensures clock == old(clock) ==>
                && callbacks == old(callbacks) && requests == old(requests)[id := requests[id]]
                && !Outbox.Due(requests[id], clock)
    {
      var now := Read();
      started, answer, verdict := now, Outbox.Delivered, false;
      worked := Outbox.Due(requests[id], now);
      if worked {
        requests := requests[id := Outbox.Claimed(requests[id], now)];
        var row := requests[id];
        var start := Read();
        row := Outbox.Started(row, start);
        var reply: Outbox.Reply := *;
        started, answer := start, reply;
        var later := Read();
        DelayBounds(cfg, row.attempts);
        if reply == Outbox.Delivered {
          var accepted: bool := *;
          verdict := accepted;
          row := Outbox.Finished(row, accepted, later);
        } else {
          row := Outbox.Failed(cfg, row, start, reply.code, later);
        }
        requests := requests[id := row];
      }
    }

    /** The inbox half of one pass. `check` is the last budget check before the item. */
    method CallbackTurn(cfg: Settings, deadline: int)
      returns (did: bool, ghost asked: int, ghost seen: Callbacks, ghost check: int, ghost item: seq<Inbox.Key>)
      requires cfg.initial > 0 && cfg.max > 0
      modifies this
      ensures clock >= old(clock)
      ensures old(callbacks).Keys <= callbacks.Keys && old(requests).Keys <= requests.Keys
      ensures did ==> check <= clock && deadline - check >= MAX_PROCESSING_ITEM
      ensures !did ==>
                || deadline - clock < MAX_PROCESSING_ITEM
                || (old(clock) <= asked <= clock && DueCallbacks(seen, asked) == {} &&
                    old(callbacks).Keys <= seen.Keys && Undisturbed(seen, map[], callbacks, requests))
      ensures !did ==> Undisturbed(old(callbacks), old(requests), callbacks, requests)
      ensures WaitedOrTried(old(requests), requests)
      ensures |item| == (if did then 1 else 0)
      ensures CallbacksWorked(old(callbacks), callbacks, item) && RequestsWorked(old(requests), requests, [])
      ensures clock == old(clock) ==>
                && requests == old(requests)
                && |DueCallbacks(callbacks, clock)| == |DueCallbacks(old(callbacks), clock)| - if did then 1 else 0
    {
      var now := Read();
      var key := NextDueCallback(now);
      asked, seen, did, check, item := now, callbacks, false, now, [];
      if key.Some? {
        now := Read();
        check := now;
        if deadline - now >= MAX_PROCESSING_ITEM {
          ghost var cs, rs, t := callbacks, requests, clock;
          ghost var claimed, answer;
          did, claimed, answer := ProcessCallback(cfg, key.value);
          item := [key.value];
          OneCallback(cs, rs, callbacks, requests, key.value);
          Shrinks(cs, rs, callbacks, requests, t, clock, key, None);
        }
      }
    }

    /** The outbox half of one pass, which checks the budget before it asks. */
    method RequestTurn(cfg: Settings, deadline: int)
      returns (did: bool, ghost asked: int, ghost seen: Requests, ghost check: int, ghost item: seq<nat>)
      requires cfg.initial > 0 && cfg.max > 0
      modifies this
      ensures clock >= old(clock)
      ensures old(callbacks).Keys <= callbacks.Keys && old(requests).Keys <= requests.Keys
      ensures did ==> check <= clock && deadline - check >= MAX_PROCESSING_ITEM
      ensures !did ==>
                || deadline - clock < MAX_PROCESSING_ITEM
                || (old(clock) <= asked <= clock && DueRequests(seen, asked) == {} &&
                    old(requests).Keys <= seen.Keys && Undisturbed(map[], seen, callbacks, requests) &&
                    WaitedOrTried(old(requests), seen) && RequestsWorked(old(requests), seen, []))
      ensures WaitedOrTried(old(requests), requests)
      ensures Undisturbed(old(callbacks), map[], callbacks, requests)
      ensures |item| == (if did then 1 else 0)
      ensures CallbacksWorked(old(callbacks), callbacks, []) && RequestsWorked(old(requests), requests, item)
      ensures clock == old(clock) ==>
                && callbacks == old(callbacks)
                && |DueRequests(requests, clock)| == |DueRequests(old(requests), clock)| - if did then 1 else 0
    {
      var now := Read();
      asked, seen, did, check, item := now, requests, false, now, [];
      if deadline - now >= MAX_PROCESSING_ITEM {
        now := Read();
        asked := now;
        var id := NextDueRequest(now);
        seen := requests;
        if id.Some? {
          now := Read();
          check := now;
          if deadline - now >= MAX_PROCESSING_ITEM {
            ghost var cs, rs, t := callbacks, requests, clock;
            ghost var started, answer, verdict;
            did, started, answer, verdict := ProcessRequest(cfg, id.value);
            item := [id.value];
            OneRequest(cs, rs, callbacks, requests, id.value);
            OthersWaited(rs, requests, id.value);
            if clock == t {
              Shrinks(cs, rs, callbacks, requests, t, clock, None, id);
            }
          }
        }
      }
    }

    /** One pass over both queues, and the clock read for the next if it worked anything.
        `lastEnd` and `longest` are about the items it worked. */
    method Pass(cfg: Settings, deadline: int)
      returns (handled: nat, sent: nat, next: int, ghost lastEnd: int, ghost longest: int, ghost cs: Callbacks, ghost rs: Requests,
               ghost c: int, ghost r: int, ghost worked: seq<Inbox.Key>, ghost posted: seq<nat>)
      requires cfg.initial > 0 && cfg.max > 0
      modifies this
      ensures next == clock >= old(clock) && handled == |worked| <= 1 && sent == |posted| <= 1
      ensures old(callbacks).Keys <= callbacks.Keys && old(requests).Keys <= requests.Keys
      ensures CallbacksWorked(old(callbacks), callbacks, worked) && RequestsWorked(old(requests), requests, posted)
      ensures handled + sent > 0 && longest <= MAX_PROCESSING_ITEM ==> lastEnd <= deadline
      ensures handled + sent > 0 && clock == old(clock) ==>
                Backlog(callbacks, requests, clock) < Backlog(old(callbacks), old(requests), clock)
      ensures handled + sent == 0 ==>
                || deadline - clock < MAX_PROCESSING_ITEM
                || (&& old(clock) <= c <= r <= clock && DueCallbacks(cs, c) == {} && DueRequests(rs, r) == {}
                    && old(callbacks).Keys <= cs.Keys && old(requests).Keys <= rs.Keys
                    && Undisturbed(cs, rs, callbacks, requests) && WaitedOrTried(old(requests), rs) && RequestsWorked(old(requests), rs, []))
      ensures WaitedOrTried(old(requests), requests)
    {
      handled, sent, lastEnd, longest := 0, 0, clock, 0;
      ghost var check;
      var did;
      did, c, cs, check, worked := CallbackTurn(cfg, deadline);
      if did {
        handled, lastEnd, longest := 1, clock, clock - check;
      }
      did, r, rs, check, posted := RequestTurn(cfg, deadline);
      if did {
        sent, lastEnd, longest := 1, clock, Max(longest, clock - check);
      }
      next := clock;
      if handled + sent > 0 {
        ghost var cs0, rs0 := callbacks, requests;
        next := Read();
        WorkedStill(old(callbacks), old(requests), cs0, rs0, callbacks, requests, worked, posted);
      }
    }

    /** Set the deadline and recover what was abandoned. */
    method Begin(budget: int) returns (due: int, recovered: nat, ghost before: Requests, ghost began: int)
      modifies this
      ensures due >= old(clock) + budget && old(clock) <= began <= clock
      ensures old(callbacks).Keys <= callbacks.Keys && old(requests).Keys <= requests.Keys
      ensures CallbacksWorked(old(callbacks), callbacks, []) && RequestsWorked(old(requests), requests, [])
      ensures due - clock <= budget
      ensures Undisturbed(map[], old(requests), map[], before)
      ensures recovered == |set k | k in before && Outbox.Abandoned(before[k], began)|
      ensures Recovery(before, requests, began)
    {
      var startedAt := Read();
      due := startedAt + budget;
      var now := Read();
      before, began := requests, now;
      recovered := RecoverStale(now);
    }

    /** Pass over both queues until the time left no longer covers an item or nothing is due. */
    method Passes(cfg: Settings, due: int)
      returns (handled: nat, sent: nat, ghost lastEnd: int, ghost longest: int, ghost cs: Callbacks, ghost rs: Requests,
               ghost c: int, ghost r: int, ghost worked: seq<Inbox.Key>, ghost posted: seq<nat>)
      requires cfg.initial > 0 && cfg.max > 0
      modifies this
      ensures clock >= old(clock) && handled == |worked| && sent == |posted|
      ensures handled + sent > 0 && longest <= MAX_PROCESSING_ITEM ==> lastEnd <= due
      ensures due - old(clock) < MAX_PROCESSING_ITEM ==> handled + sent == 0
      ensures due - clock < MAX_PROCESSING_ITEM ||
              (&& old(clock) <= c <= r <= clock && DueCallbacks(cs, c) == {} && DueRequests(rs, r) == {}
               && old(callbacks).Keys <= cs.Keys && old(requests).Keys <= rs.Keys
               && Undisturbed(cs, rs, callbacks, requests) && WaitedOrTried(old(requests), rs))
      ensures old(callbacks).Keys <= callbacks.Keys && old(requests).Keys <= requests.Keys
      ensures CallbacksWorked(old(callbacks), callbacks, worked) && RequestsWorked(old(requests), requests, posted)
      ensures WaitedOrTried(old(requests), requests)
    {
      lastEnd, longest, handled, sent := clock, 0, 0, 0;
      cs, rs, c, r, worked, posted := map[], map[], 0, 0, [], [];
      var t := Read();
      while due - t >= MAX_PROCESSING_ITEM
        invariant t == clock >= old(clock)
        invariant old(callbacks).Keys <= callbacks.Keys && old(requests).Keys <= requests.Keys
        invariant handled == |worked| && sent == |posted|
        invariant CallbacksWorked(old(callbacks), callbacks, worked) && RequestsWorked(old(requests), requests, posted)
        invariant WaitedOrTried(old(requests), requests)
        invariant handled + sent > 0 && longest <= MAX_PROCESSING_ITEM ==> lastEnd <= due
        invariant due - old(clock) < MAX_PROCESSING_ITEM ==> handled + sent == 0
        decreases due - t, Backlog(callbacks, requests, t)
      {
        ghost var cs0, rs0, end, span, items, posts := callbacks, requests, lastEnd, 0, [], [];
        var callbackCount, requestCount, next;
        callbackCount, requestCount, next, end, span, cs, rs, c, r, items, posts := Pass(cfg, due);
        WorkedThen(old(callbacks), cs0, callbacks, worked, items);
        PostedThen(old(requests), rs0, requests, posted, posts);
        TriedThen(old(requests), rs0, requests, posts);
        if callbackCount + requestCount == 0 && due - clock >= MAX_PROCESSING_ITEM {
          SeenThen(old(requests), rs0, rs);
        }
        handled, sent, worked, posted := handled + callbackCount, sent + requestCount, worked + items, posted + posts;
        t := next;
        if callbackCount + requestCount == 0 {
          break;
        }
        lastEnd, longest := end, Max(longest, span);
      }
    }

    /** Drain both queues until the budget no longer covers an item or nothing is due.
        The ghost results observe the run: when the last item ended, the longest item, what
        the last check of each queue saw, the rows worked, one for each count, and the
        requests among which the abandoned ones were counted. */
    method Drain(cfg: Settings, budget: int)
      returns (handled: nat, sent: nat, recovered: nat, ghost deadline: int, ghost lastEnd: int,
               ghost longest: int, ghost cs: Callbacks, ghost rs: Requests, ghost c: int, ghost r: int,
               ghost worked: seq<Inbox.Key>, ghost posted: seq<nat>, ghost before: Requests, ghost began: int)
      requires cfg.initial > 0 && cfg.max > 0
      modifies this
      ensures deadline >= old(clock) + budget
      ensures handled + sent > 0 && longest <= 35 * SECOND ==> lastEnd <= deadline
      ensures budget < 35 * SECOND ==> handled + sent == 0
      ensures deadline - clock < 35 * SECOND ||
              (&& old(clock) <= c <= r <= clock && DueCallbacks(cs, c) == {} && DueRequests(rs, r) == {}
               && old(callbacks).Keys <= cs.Keys && old(requests).Keys <= rs.Keys
               && Undisturbed(cs, rs, callbacks, requests))
      ensures old(callbacks).Keys <= callbacks.Keys && old(requests).Keys <= requests.Keys
      ensures handled == |worked| && sent == |posted|
      ensures CallbacksWorked(old(callbacks), callbacks, worked) && RequestsWorked(old(requests), requests, posted)
      ensures old(clock) <= began <= clock && Undisturbed(map[], old(requests), map[], before)
      ensures recovered == |set k | k in before && Outbox.Abandoned(before[k], began)|
      ensures Resumed(before, requests, began)
      ensures deadline - clock >= 35 * SECOND ==> Resent(before, requests, began)
    {
      var due;
      due, recovered, before, began := Begin(budget);
      deadline := due;
      ghost var cs0, rs0 := callbacks, requests;
      handled, sent, lastEnd, longest, cs, rs, c, r, worked, posted := Passes(cfg, due);
      WorkedThen(old(callbacks), cs0, callbacks, [], worked);
      PostedThen(old(requests), rs0, requests, [], posted);
      assert [] + worked == worked && [] + posted == posted;
      RecoveredResume(before, rs0, requests, began);
      if deadline - clock >= MAX_PROCESSING_ITEM {
        RecoveredAreSent(before, rs0, rs, requests, began, r);
      }
    }
  }

  /** Working one due row at an unmoving clock leaves strictly fewer due rows. */
  lemma Shrinks(cs: Callbacks, rs: Requests, cs': Callbacks, rs': Requests, t: int, t': int,
                key: Option<Inbox.Key>, id: Option<nat>)
    requires t == t' ==>
               && (key.Some? ==> key.value in DueCallbacks(cs, t) && key.value in cs' &&
                                 !Inbox.Due(cs'[key.value], t) && cs' == cs[key.value := cs'[key.value]])
               && (key.None? ==> cs' == cs)
               && (id.Some? ==> id.value in DueRequests(rs, t) && id.value in rs' &&
                                !Outbox.Due(rs'[id.value], t) && rs' == rs[id.value := rs'[id.value]])
               && (id.None? ==> rs' == rs)
    ensures t == t' ==>
              && |DueCallbacks(cs', t)| == |DueCallbacks(cs, t)| - (if key.Some? then 1 else 0)
              && |DueRequests(rs', t)| == |DueRequests(rs, t)| - (if id.Some? then 1 else 0)
  {
    if t == t' {
      if key.Some? {
        assert DueCallbacks(cs', t) == DueCallbacks(cs, t) - {key.value};
      }
      if id.Some? {
        assert DueRequests(rs', t) == DueRequests(rs, t) - {id.value};
      }
    }
  }
}
