/** The inbox, its workers and the laboratory together: callbacks are claimed, applied
    transaction by transaction, crashed over, reclaimed after the stale window and finished,
    while everything else in the laboratory goes on. */
module Pipeline {
  import opened Common
  import opened Backoff
  import opened Records
  import opened Channels
  import Settlement
  import Delivery
  import Inbox
  import Laboratory

  /** What a callback carries; a message that does not parse is None. */
  datatype Payload =
    | Notification(txns: Option<seq<Txn>>)
    | Batch(request: string, statement: Option<Statement>)
    | Other

  /** How far a live worker has come: transactions applied, and the answer once it has one. */
  datatype Work = Work(done: nat, ack: Option<Ack>)

  datatype State = State(inbox: Inbox.State, world: World, payloads: map<Inbox.Key, Payload>,
                         requests: set<string>, works: map<nat, Work>)

  datatype Event =
    | Tick(d: nat)
    | Arrive(key: Inbox.Key, payload: Payload)
    | Claim(worker: nat, key: Inbox.Key, seen: int)
    | ApplyNext(worker: nat)
    | Fault(worker: nat)
    | ApplyBatch(worker: nat, fault: Option<nat>)
    | Finish(worker: nat, raised: bool, code: string)
    | Crash(worker: nat)
    | Open(request: string)
    | Elsewhere(event: Records.Event)

  predicate Fits(kind: Inbox.Kind, payload: Payload) {
    match payload
    case Notification(_) => kind == Inbox.Payment
    case Batch(_, _) => kind == Inbox.Reconciliation
    case Other => kind == Inbox.Bill || kind == Inbox.Cancellation
  }

  predicate Busy(s: State, worker: nat) {
    && worker in s.works && worker in s.inbox.workers && s.inbox.workers[worker].key in s.payloads
    && s.works[worker].ack.None?
  }

  function PayloadOf(s: State, worker: nat): Payload
    requires worker in s.inbox.workers && s.inbox.workers[worker].key in s.payloads
  {
    s.payloads[s.inbox.workers[worker].key]
  }

  /** The transactions of a notification that parsed. */
  function TxnsOf(payload: Payload): seq<Txn> {
    match payload
    case Notification(txns) => txns.GetOr([])
    case Batch(_, statement) => if statement.Some? then Transactions(statement.value.details) else []
    case Other => []
  }

  predicate MayApply(s: State, worker: nat) {
    Busy(s, worker) && PayloadOf(s, worker).Notification? && s.works[worker].done < |TxnsOf(PayloadOf(s, worker))|
  }

  /** The answer a worker finishes with, once its handler has reached the end. */
  function Verdict(s: State, worker: nat): Option<Ack>
    requires worker in s.works && worker in s.inbox.workers && s.inbox.workers[worker].key in s.payloads
  {
    var work := s.works[worker];
    match PayloadOf(s, worker)
    case Notification(txns) =>
      if work.ack.Some? then work.ack
      else if txns.None? then Some(Malformed)
      else if work.done >= |txns.value| then Some(Accepted) else None
    case _ => work.ack
  }

  /** The inbox's own part of a step. */
  function InboxEvents(s: State, e: Event): seq<Inbox.Event> {
    match e
    case Tick(d) => [Inbox.Tick(d)]
    case Arrive(key, payload) => if Fits(key.kind, payload) then [Inbox.Arrive(key)] else []
    case Claim(w, key, seen) => [Inbox.Claim(w, key, seen)]
    case Finish(w, raised, code) =>
      if w in s.works && w in s.inbox.workers && s.inbox.workers[w].key in s.payloads then
        if raised then [Inbox.Finish(w, None)]
        else if PayloadOf(s, w).Other? then [Inbox.Finish(w, Some(code))]
        else if Verdict(s, w).Some? then [Inbox.Finish(w, Some(Code(Verdict(s, w).value)))] else []
      else []
    case Crash(w) => [Inbox.Crash(w)]
    case _ => []
  }

  /** The laboratory's own part of a step. */
  function WorldEvents(s: State, e: Event): seq<Records.Event> {
    match e
    case ApplyNext(w) =>
      if MayApply(s, w) && Resolve(s.world, NextTxn(s, w)).Some? then [Pay(NextTxn(s, w))] else []
    case ApplyBatch(w, fault) =>
      if Busy(s, w) && PayloadOf(s, w).Batch? then BatchPays(s, PayloadOf(s, w), fault) else []
    case Elsewhere(event) => if event.Pay? then [] else [event]
    case _ => []
  }

  function NextTxn(s: State, worker: nat): Txn
    requires MayApply(s, worker)
  {
    TxnsOf(PayloadOf(s, worker))[s.works[worker].done]
  }

  /** What a batch pays: nothing unless its request is known, it parses and it is settled. */
  function BatchPays(s: State, payload: Payload, fault: Option<nat>): seq<Records.Event>
    requires payload.Batch?
  {
    if payload.request in s.requests && payload.statement.Some? && payload.statement.value.settled then
      var txns := TxnsOf(payload);
      Pays(txns[..StopAt(s.world, txns, true, fault, 0)])
    else []
  }

  function BatchAnswer(s: State, payload: Payload, fault: Option<nat>): Ack
    requires payload.Batch?
  {
    if payload.statement.None? then Malformed
    else if payload.request !in s.requests then Failed
    else
      var m, txns := payload.statement.value, TxnsOf(payload);
      BatchAck(StopAt(s.world, txns, m.settled, fault, 0), |txns|, |m.details|)
  }

  /** A worker's progress after a step; only its own steps move it. */
  function Progress(s: State, e: Event): map<nat, Work> {
    match e
    case Claim(w, key, seen) =>
      if Inbox.ClaimSucceeds(s.inbox, Inbox.Claim(w, key, seen)) then s.works[w := Work(0, None)] else s.works
    case ApplyNext(w) =>
      if !MayApply(s, w) then s.works
      else if Resolve(s.world, NextTxn(s, w)).Some? then s.works[w := Work(s.works[w].done + 1, None)]
      else s.works[w := s.works[w].(ack := Some(UnknownBill))]
    case Fault(w) => if MayApply(s, w) then s.works[w := s.works[w].(ack := Some(Failed))] else s.works
    case ApplyBatch(w, fault) =>
      if Busy(s, w) && PayloadOf(s, w).Batch? then
        s.works[w := s.works[w].(ack := Some(BatchAnswer(s, PayloadOf(s, w), fault)))]
      else s.works
    case Finish(w, _, _) => if InboxEvents(s, e) != [] then s.works - {w} else s.works
    case Crash(w) => s.works - {w}
    case _ => s.works
  }

  function Step(cfg: Settings, s: State, e: Event): State {
    State(Inbox.Run(cfg, s.inbox, InboxEvents(s, e)), Records.Run(s.world, WorldEvents(s, e)),
          if e.Arrive? && Fits(e.key.kind, e.payload) && e.key !in s.payloads then s.payloads[e.key := e.payload] else s.payloads,
          if e.Open? then s.requests + {e.request} else s.requests,
          Progress(s, e))
  }

  function Run(cfg: Settings, s: State, run: seq<Event>): State
    decreases |run|
  {
    if run == [] then s else Run(cfg, Step(cfg, s, run[0]), run[1..])
  }

  // ---- The run as the inbox and as the laboratory see it ----

  function InboxTrace(cfg: Settings, s: State, run: seq<Event>): seq<Inbox.Event>
    decreases |run|
  {
    if run == [] then [] else InboxEvents(s, run[0]) + InboxTrace(cfg, Step(cfg, s, run[0]), run[1..])
  }

  function WorldTrace(cfg: Settings, s: State, run: seq<Event>): seq<Records.Event>
    decreases |run|
  {
    if run == [] then [] else WorldEvents(s, run[0]) + WorldTrace(cfg, Step(cfg, s, run[0]), run[1..])
  }

  lemma {:induction false} WorldRuns(cfg: Settings, s: State, run: seq<Event>)
    ensures Run(cfg, s, run).world == Records.Run(s.world, WorldTrace(cfg, s, run))
    decreases |run|
  {
    if run != [] {
      var t := Step(cfg, s, run[0]);
      WorldRuns(cfg, t, run[1..]);
      RunAppend(s.world, WorldEvents(s, run[0]), WorldTrace(cfg, t, run[1..]));
    }
  }

  lemma {:induction false} InboxAppend(cfg: Settings, s: Inbox.State, a: seq<Inbox.Event>, b: seq<Inbox.Event>)
    ensures Inbox.Run(cfg, s, a + b) == Inbox.Run(cfg, Inbox.Run(cfg, s, a), b)
    decreases |a|
  {
    if a == [] {
      assert a + b == b;
    } else {
      assert (a + b)[1..] == a[1..] + b;
      InboxAppend(cfg, Inbox.Step(cfg, s, a[0]), a[1..], b);
    }
  }

  lemma {:induction false} InboxRuns(cfg: Settings, s: State, run: seq<Event>)
    ensures Run(cfg, s, run).inbox == Inbox.Run(cfg, s.inbox, InboxTrace(cfg, s, run))
    decreases |run|
  {
    if run != [] {
      var t := Step(cfg, s, run[0]);
      InboxRuns(cfg, t, run[1..]);
      InboxAppend(cfg, s.inbox, InboxEvents(s, run[0]), InboxTrace(cfg, t, run[1..]));
    }
  }

  /** The lease protects handlers too: while live workers finish in time, no two of them work
      one callback, whatever the laboratory does meanwhile. */
  lemma HandlersExclude(cfg: Settings, s: State, run: seq<Event>, v: nat, w: nat)
    requires s.inbox.workers == map[] && Inbox.AlwaysOnTime(cfg, s.inbox, InboxTrace(cfg, s, run))
    requires var t := Run(cfg, s, run);
             v in t.inbox.workers && w in t.inbox.workers && t.inbox.workers[v].key == t.inbox.workers[w].key
    ensures v == w
  {
    InboxRuns(cfg, s, run);
    Inbox.MutualExclusion(cfg, s.inbox, InboxTrace(cfg, s, run), v, w);
  }

  // ---- The steps are the handlers' ----

  /** What one step leaves when its worker alone has moved. */
  predicate OnlyWorker(s: State, t: State, w: nat) {
    && t.inbox == s.inbox && t.payloads == s.payloads && t.requests == s.requests
    && t.works.Keys == s.works.Keys && (forall v <- s.works :: v != w ==> t.works[v] == s.works[v])
  }

  /** A batch pays nothing unless its request is known, it parses and it is settled; then it
      delivers what comes before the point where it stops. */
  lemma BatchStep(cfg: Settings, s: State, w: nat, fault: Option<nat>)
    requires Busy(s, w) && PayloadOf(s, w).Batch?
    ensures var t, p := Step(cfg, s, ApplyBatch(w, fault)), PayloadOf(s, w);
            && OnlyWorker(s, t, w)
            && (p.statement.None? || p.request !in s.requests || !p.statement.value.settled ==> t.world == s.world)
            && (p.statement.Some? && p.request in s.requests ==>
                  var m, txns := p.statement.value, Transactions(p.statement.value.details);
                  && t.world == Reached(s.world, txns, StopAt(s.world, txns, m.settled, fault, 0), m.settled)
                  && t.works[w].ack == Some(BatchAck(StopAt(s.world, txns, m.settled, fault, 0), |txns|, |m.details|)))
            && (p.statement.None? ==> t.works[w].ack == Some(Malformed))
            && (p.statement.Some? && p.request !in s.requests ==> t.works[w].ack == Some(Failed))
  {
  }

  /** The handler of a batch, run on the tables, is that step. `request` is the record the batch
      names, null when there is none. */
  method HandleBatch(lab: Laboratory.Services, request: Reconciliation?, fault: Option<nat>, early: bool,
                     cfg: Settings, ghost s: State, ghost w: nat, message: Option<Statement>) returns (ack: Ack)
    requires Busy(s, w) && PayloadOf(s, w).Batch? && PayloadOf(s, w).statement == message
    requires lab.State() == s.world && (request == null <==> PayloadOf(s, w).request !in s.requests)
    modifies request, lab`payments, lab`bills, lab`stones
    ensures lab.State() == Step(cfg, s, ApplyBatch(w, fault)).world
    ensures Step(cfg, s, ApplyBatch(w, fault)).works[w].ack == Some(ack)
  {
    var applied;
    ack, applied := HandleReconciliation(lab, request, message, fault, early);
    BatchStep(cfg, s, w, fault);
  }

  /** A worker applying n transactions, one step each. */
  function Applications(w: nat, n: nat): seq<Event> {
    if n == 0 then [] else Applications(w, n - 1) + [ApplyNext(w)]
  }

  /** Just claimed, with a notification that parsed. */
  predicate Begun(s: State, w: nat, txns: seq<Txn>) {
    Busy(s, w) && s.works[w] == Work(0, None) && PayloadOf(s, w) == Notification(Some(txns))
  }

  lemma {:induction false} RunOfParts(cfg: Settings, s: State, a: seq<Event>, b: seq<Event>)
    ensures Run(cfg, s, a + b) == Run(cfg, Run(cfg, s, a), b)
    decreases |a|
  {
    if a == [] {
      assert a + b == b;
    } else {
      assert (a + b)[1..] == a[1..] + b;
      RunOfParts(cfg, Step(cfg, s, a[0]), a[1..], b);
    }
  }

  lemma StepLast(cfg: Settings, s: State, a: seq<Event>, e: Event)
    ensures Run(cfg, s, a + [e]) == Step(cfg, Run(cfg, s, a), e)
  {
    RunOfParts(cfg, s, a, [e]);
    assert [e][1..] == [];
    assert Run(cfg, Step(cfg, Run(cfg, s, a), e), []) == Step(cfg, Run(cfg, s, a), e);
  }

  /** One application: the next transaction delivered and counted, or the answer that its bill
      is unknown. */
  lemma ApplicationStep(cfg: Settings, s: State, w: nat)
    requires MayApply(s, w)
    ensures var t, txn := Step(cfg, s, ApplyNext(w)), TxnsOf(PayloadOf(s, w))[s.works[w].done];
            && OnlyWorker(s, t, w)
            && (Resolve(s.world, txn).Some? ==>
                  t.world == Deliver(s.world, txn) && t.works[w] == Work(s.works[w].done + 1, None))
            && (Resolve(s.world, txn).None? ==> t.world == s.world && t.works[w].ack == Some(UnknownBill))
  {
    ApplyShape(cfg, s, w);
  }

  /** What the worker's first n applications leave. */
  predicate Applied(s: State, t: State, w: nat, txns: seq<Txn>, n: nat)
    requires n <= |txns|
  {
    OnlyWorker(s, t, w) && w in t.works && t.works[w] == Work(n, None) && t.world == After(s.world, txns, n)
  }

  lemma StillBegun(s: State, t: State, w: nat, txns: seq<Txn>, n: nat)
    requires Begun(s, w, txns) && n < |txns| && Applied(s, t, w, txns, n)
    ensures MayApply(t, w) && TxnsOf(PayloadOf(t, w)) == txns
  {
  }

  lemma OneMore(cfg: Settings, s: State, t: State, w: nat, txns: seq<Txn>, n: nat)
    requires Begun(s, w, txns) && n < |txns| && Applied(s, t, w, txns, n) && Resolve(s.world, txns[n]).Some?
    ensures Applied(s, Step(cfg, t, ApplyNext(w)), w, txns, n + 1)
  {
    StillBegun(s, t, w, txns, n);
    Applying(s.world, txns, n);
    ApplicationStep(cfg, t, w);
  }

  lemma {:induction false} ApplicationsRun(cfg: Settings, s: State, w: nat, txns: seq<Txn>, n: nat)
    requires Begun(s, w, txns) && n <= |txns| && AllNamed(s.world, txns, n)
    ensures Applied(s, Run(cfg, s, Applications(w, n)), w, txns, n)
  {
    if n == 0 {
      AfterNone(s.world, txns);
    } else {
      ApplicationsRun(cfg, s, w, txns, n - 1);
      StepLast(cfg, s, Applications(w, n - 1), ApplyNext(w));
      OneMore(cfg, s, Run(cfg, s, Applications(w, n - 1)), w, txns, n - 1);
    }
  }

  /** The steps of a worker that handles a notification without interruption: n transactions,
      and the one that stops it, if it does not reach the end. */
  function Handling(w: nat, n: nat, ack: Ack): seq<Event> {
    if ack == Failed then Applications(w, n) + [Fault(w)]
    else if ack == UnknownBill then Applications(w, n) + [ApplyNext(w)] else Applications(w, n)
  }

  lemma HandlingEnds(cfg: Settings, s: State, w: nat, txns: seq<Txn>, n: nat, ack: Ack)
    requires Begun(s, w, txns) && n <= |txns| && AllNamed(s.world, txns, n) && ack != Malformed
    requires ack == Accepted <==> n == |txns|
    requires ack == UnknownBill ==> Resolve(s.world, txns[n]).None?
    ensures var t := Run(cfg, s, Handling(w, n, ack));
            t.world == After(s.world, txns, n) && OnlyWorker(s, t, w) && w in t.works && Verdict(t, w) == Some(ack)
  {
    ApplicationsRun(cfg, s, w, txns, n);
    var t := Run(cfg, s, Applications(w, n));
    if ack == Failed {
      StepLast(cfg, s, Applications(w, n), Fault(w));
    } else if ack == UnknownBill {
      StepLast(cfg, s, Applications(w, n), ApplyNext(w));
      Applying(s.world, txns, n);
      ApplicationStep(cfg, t, w);
    }
  }

  /** The handler of a notification, run on the tables, takes exactly those steps, and answers
      what its worker will finish with. */
  method HandleNotification(lab: Laboratory.Services, txns: seq<Txn>, fault: Option<nat>,
                            cfg: Settings, ghost s: State, ghost w: nat) returns (ack: Ack, applied: nat)
    requires Begun(s, w, txns) && lab.State() == s.world
    modifies lab`payments, lab`bills, lab`stones
    ensures lab.State() == Run(cfg, s, Handling(w, applied, ack)).world
    ensures var t := Run(cfg, s, Handling(w, applied, ack)); OnlyWorker(s, t, w) && w in t.works && Verdict(t, w) == Some(ack)
  {
    ack, applied := ProcessNotification(lab, Some(txns), fault);
    HandlingEnds(cfg, s, w, txns, applied, ack);
  }

  /** A message that does not parse is answered as such, without a step. */
  lemma MalformedAnswer(s: State, w: nat)
    requires Busy(s, w) && PayloadOf(s, w) == Notification(None)
    ensures Verdict(s, w) == Some(Malformed) && !MayApply(s, w)
  {
  }

  /** And what a worker has to answer is what the inbox settles its callback by. */
  lemma FinishAnswers(cfg: Settings, s: State, w: nat, raised: bool, code: string)
    requires w in s.works && w in s.inbox.workers && s.inbox.workers[w].key in s.payloads
    requires raised || PayloadOf(s, w).Other? || Verdict(s, w).Some?
    ensures Step(cfg, s, Finish(w, raised, code)).inbox ==
            Inbox.Step(cfg, s.inbox, Inbox.Finish(w, if raised then None
                                                     else if PayloadOf(s, w).Other? then Some(code)
                                                     else Some(Code(Verdict(s, w).value))))
    ensures Step(cfg, s, Finish(w, raised, code)).world == s.world && w !in Step(cfg, s, Finish(w, raised, code)).works
  {
    var events := InboxEvents(s, Finish(w, raised, code));
    Inbox.RunOne(cfg, s.inbox, events[0]);
    assert events == [events[0]];
  }

  // ---- What PROCESSED means ----

  predicate AllRecorded(w: World, txns: seq<Txn>, n: nat)
    requires n <= |txns|
  {
    forall k :: 0 <= k < n ==> Settlement.Recorded(w, txns[k].trx)
  }

  /** Everything the payload asks to be paid is on record, and it parsed to the end. */
  predicate Paid(w: World, payload: Payload) {
    match payload
    case Notification(txns) => txns.Some? && AllRecorded(w, txns.value, |txns.value|)
    case Batch(_, statement) =>
      && statement.Some? && Parsed(statement.value.details) == |statement.value.details|
      && (statement.value.settled ==> AllRecorded(w, TxnsOf(payload), |TxnsOf(payload)|))
    case Other => true
  }

  /** Ids on record stay on record. */
  ghost predicate RecordGrows(w: World, v: World) {
    forall trx :: Settlement.Recorded(w, trx) ==> Settlement.Recorded(v, trx)
  }

  lemma {:induction false} RunGrows(w: World, run: seq<Records.Event>)
    ensures RecordGrows(w, Records.Run(w, run))
    decreases |run|
  {
    if run != [] {
      var v := Records.Step(w, run[0]);
      forall trx | Settlement.Recorded(w, trx) ensures Settlement.Recorded(v, trx) {
        if run[0].Pay? {
          RecordedStays(w, run[0].txn, trx);
        } else {
          Delivery.OthersKeepPayments(w, run[0]);
        }
      }
      RunGrows(v, run[1..]);
    }
  }

  lemma {:induction false} AfterRecords(w: World, txns: seq<Txn>, n: nat)
    requires n <= |txns| && AllNamed(w, txns, n)
    ensures AllRecorded(After(w, txns, n), txns, n)
  {
    if n > 0 {
      var u := After(w, txns, n - 1);
      AfterRecords(w, txns, n - 1);
      Applying(w, txns, n - 1);
      DeliveredIsRecorded(u, txns[n - 1]);
      forall k | 0 <= k < n - 1 ensures Settlement.Recorded(After(w, txns, n), txns[k].trx) {
        RecordedStays(u, txns[n - 1], txns[k].trx);
      }
    }
  }

  lemma PaidStays(w: World, v: World, payload: Payload)
    requires RecordGrows(w, v) && Paid(w, payload)
    ensures Paid(v, payload)
  {
  }

  /** A worker's progress is backed by the records: what it has passed is recorded, and a batch
      it has accepted is paid. */
  predicate WorkSound(s: State, worker: nat)
    requires worker in s.works
  {
    && worker in s.inbox.workers && s.inbox.workers[worker].key in s.payloads
    && s.inbox.workers[worker].key in s.inbox.rows && s.inbox.workers[worker].attempts >= 1
    && (PayloadOf(s, worker).Notification? ==>
          && s.works[worker].done <= |TxnsOf(PayloadOf(s, worker))|
          && AllRecorded(s.world, TxnsOf(PayloadOf(s, worker)), s.works[worker].done))
    && (s.works[worker].ack == Some(Accepted) ==> Paid(s.world, PayloadOf(s, worker)))
  }

  predicate RowSound(s: State, key: Inbox.Key)
    requires key in s.inbox.rows
  {
    key in s.payloads && Fits(key.kind, s.payloads[key]) &&
    (s.inbox.rows[key].status == Inbox.Processed ==> Paid(s.world, s.payloads[key]))
  }

  ghost predicate Sound(s: State) {
    && s.works.Keys == s.inbox.workers.Keys && s.payloads.Keys == s.inbox.rows.Keys
    && (forall w <- s.works :: WorkSound(s, w))
    && (forall key <- s.inbox.rows :: RowSound(s, key))
  }

  predicate SameWorker(s: State, t: State, w: nat) {
    w in s.works && w in t.works && t.works[w] == s.works[w] &&
    w in s.inbox.workers && w in t.inbox.workers && t.inbox.workers[w] == s.inbox.workers[w]
  }

  predicate NotNewlyProcessed(s: State, t: State, key: Inbox.Key) {
    key in s.inbox.rows && key in t.inbox.rows &&
    (t.inbox.rows[key].status == Inbox.Processed ==> s.inbox.rows[key].status == Inbox.Processed)
  }

  /** Nothing recorded is forgotten: callbacks and their payloads stay, and so do payment ids. */
  ghost predicate Grows(s: State, t: State) {
    && RecordGrows(s.world, t.world)
    && (forall key <- s.payloads :: key in t.payloads && t.payloads[key] == s.payloads[key])
    && (forall key <- s.inbox.rows :: key in t.inbox.rows)
  }

  /** Workers and rows that a step leaves alone stay sound. */
  lemma WorkerUntouched(s: State, t: State, w: nat)
    requires Sound(s) && Grows(s, t) && SameWorker(s, t, w)
    ensures WorkSound(t, w)
  {
    assert WorkSound(s, w);
    if s.works[w].ack == Some(Accepted) {
      PaidStays(s.world, t.world, PayloadOf(s, w));
    }
  }

  lemma RowUntouched(s: State, t: State, key: Inbox.Key)
    requires Sound(s) && Grows(s, t) && NotNewlyProcessed(s, t, key)
    ensures RowSound(t, key)
  {
    assert RowSound(s, key);
    if t.inbox.rows[key].status == Inbox.Processed {
      PaidStays(s.world, t.world, s.payloads[key]);
    }
  }

  /** It is enough to look at the workers and rows a step has changed. */
  lemma SoundAgain(s: State, t: State)
    requires Sound(s) && Grows(s, t)
    requires t.works.Keys == t.inbox.workers.Keys && t.payloads.Keys == t.inbox.rows.Keys
    requires forall w <- t.works :: SameWorker(s, t, w) || WorkSound(t, w)
    requires forall key <- t.inbox.rows :: NotNewlyProcessed(s, t, key) || RowSound(t, key)
    ensures Sound(t)
  {
    forall w | w in t.works ensures WorkSound(t, w) {
      if SameWorker(s, t, w) {
        WorkerUntouched(s, t, w);
      }
    }
    forall key | key in t.inbox.rows ensures RowSound(t, key) {
      if NotNewlyProcessed(s, t, key) {
        RowUntouched(s, t, key);
      }
    }
  }

  lemma InboxStep(cfg: Settings, s: State, e: Event)
    ensures var t := Step(cfg, s, e);
            && (InboxEvents(s, e) == [] ==> t.inbox == s.inbox)
            && (InboxEvents(s, e) != [] ==> |InboxEvents(s, e)| == 1 && t.inbox == Inbox.Step(cfg, s.inbox, InboxEvents(s, e)[0]))
            && RecordGrows(s.world, t.world)
  {
    var events := InboxEvents(s, e);
    if events != [] {
      assert events == [events[0]];
      Inbox.RunOne(cfg, s.inbox, events[0]);
    }
    RunGrows(s.world, WorldEvents(s, e));
  }

  lemma StepGrows(cfg: Settings, s: State, e: Event)
    requires Sound(s)
    ensures Grows(s, Step(cfg, s, e))
  {
    InboxStep(cfg, s, e);
  }

  /** Steps that leave rows and workers alone. */
  lemma QuietKeeps(cfg: Settings, s: State, e: Event)
    requires Sound(s) && (e.Tick? || e.Open? || e.Elsewhere?)
    ensures Sound(Step(cfg, s, e))
  {
    InboxStep(cfg, s, e);
    StepGrows(cfg, s, e);
    SoundAgain(s, Step(cfg, s, e));
  }

  lemma ArriveKeeps(cfg: Settings, s: State, key: Inbox.Key, payload: Payload)
    requires Sound(s)
    ensures Sound(Step(cfg, s, Arrive(key, payload)))
  {
    var t := Step(cfg, s, Arrive(key, payload));
    InboxStep(cfg, s, Arrive(key, payload));
    StepGrows(cfg, s, Arrive(key, payload));
    SoundAgain(s, t);
  }

  lemma ClaimKeeps(cfg: Settings, s: State, w: nat, key: Inbox.Key, seen: int)
    requires Sound(s)
    ensures Sound(Step(cfg, s, Claim(w, key, seen)))
  {
    var t := Step(cfg, s, Claim(w, key, seen));
    InboxStep(cfg, s, Claim(w, key, seen));
    StepGrows(cfg, s, Claim(w, key, seen));
    if Inbox.ClaimSucceeds(s.inbox, Inbox.Claim(w, key, seen)) {
      assert WorkSound(t, w);
    }
    SoundAgain(s, t);
  }

  /** Applying a transaction records it, beside those the worker has passed. */
  lemma NextIsRecorded(w: World, v: World, txns: seq<Txn>, n: nat)
    requires n < |txns| && AllRecorded(w, txns, n) && RecordGrows(w, v) && Settlement.Recorded(v, txns[n].trx)
    ensures AllRecorded(v, txns, n + 1)
  {
  }

  lemma ApplyShape(cfg: Settings, s: State, w: nat)
    requires MayApply(s, w)
    ensures var t, txn := Step(cfg, s, ApplyNext(w)), NextTxn(s, w);
            && t.inbox == s.inbox && t.payloads == s.payloads
            && t.world == (if Resolve(s.world, txn).Some? then Deliver(s.world, txn) else s.world)
            && t.works == s.works[w := if Resolve(s.world, txn).Some? then Work(s.works[w].done + 1, None)
                                       else s.works[w].(ack := Some(UnknownBill))]
  {
    RunOfOne(s.world, Pay(NextTxn(s, w)));
  }

  lemma Progressed(s: State, t: State, w: nat)
    requires Sound(s) && MayApply(s, w) && t.inbox == s.inbox && t.payloads == s.payloads
    requires RecordGrows(s.world, t.world) && w in t.works
    requires t.works[w] == s.works[w].(ack := Some(UnknownBill)) ||
             (t.works[w] == Work(s.works[w].done + 1, None) && Settlement.Recorded(t.world, NextTxn(s, w).trx))
    ensures WorkSound(t, w)
  {
    assert WorkSound(s, w);
    if t.works[w].done > s.works[w].done {
      NextIsRecorded(s.world, t.world, TxnsOf(PayloadOf(s, w)), s.works[w].done);
    }
  }

  lemma ApplyWorks(cfg: Settings, s: State, w: nat)
    requires Sound(s) && MayApply(s, w)
    ensures w in Step(cfg, s, ApplyNext(w)).works && WorkSound(Step(cfg, s, ApplyNext(w)), w)
  {
    InboxStep(cfg, s, ApplyNext(w));
    ApplyShape(cfg, s, w);
    if Resolve(s.world, NextTxn(s, w)).Some? {
      DeliveredIsRecorded(s.world, NextTxn(s, w));
    }
    Progressed(s, Step(cfg, s, ApplyNext(w)), w);
  }

  lemma ApplyKeeps(cfg: Settings, s: State, w: nat)
    requires Sound(s)
    ensures Sound(Step(cfg, s, ApplyNext(w)))
  {
    InboxStep(cfg, s, ApplyNext(w));
    StepGrows(cfg, s, ApplyNext(w));
    if MayApply(s, w) {
      ApplyWorks(cfg, s, w);
    }
    SoundAgain(s, Step(cfg, s, ApplyNext(w)));
  }

  lemma RunOfOne(w: World, e: Records.Event)
    ensures Records.Run(w, [e]) == Records.Step(w, e)
  {
    assert [e][1..] == [];
    assert Records.Run(Records.Step(w, e), []) == Records.Step(w, e);
  }

  lemma FaultKeeps(cfg: Settings, s: State, w: nat)
    requires Sound(s)
    ensures Sound(Step(cfg, s, Fault(w)))
  {
    var t := Step(cfg, s, Fault(w));
    InboxStep(cfg, s, Fault(w));
    StepGrows(cfg, s, Fault(w));
    if MayApply(s, w) {
      assert WorkSound(s, w);
      assert WorkSound(t, w);
    }
    SoundAgain(s, t);
  }

  /** An accepted batch came to its end. */
  lemma AcceptedBatch(s: State, payload: Payload, fault: Option<nat>)
    requires payload.Batch? && BatchAnswer(s, payload, fault) == Accepted
    ensures payload.statement.Some? && Parsed(payload.statement.value.details) == |payload.statement.value.details|
    ensures payload.statement.value.settled ==>
              && AllNamed(s.world, TxnsOf(payload), |TxnsOf(payload)|)
              && Records.Run(s.world, BatchPays(s, payload, fault)) == After(s.world, TxnsOf(payload), |TxnsOf(payload)|)
  {
    var m, txns := payload.statement.value, TxnsOf(payload);
    StopMeaning(s.world, txns, m.settled, fault, 0);
    assert StopAt(s.world, txns, m.settled, fault, 0) == |txns|;
  }

  /** A batch that is accepted is paid. */
  lemma BatchIsPaid(s: State, payload: Payload, fault: Option<nat>)
    requires payload.Batch? && BatchAnswer(s, payload, fault) == Accepted
    ensures Paid(Records.Run(s.world, BatchPays(s, payload, fault)), payload)
  {
    AcceptedBatch(s, payload, fault);
    if payload.statement.value.settled {
      AfterRecords(s.world, TxnsOf(payload), |TxnsOf(payload)|);
    }
  }

  lemma BatchKeeps(cfg: Settings, s: State, w: nat, fault: Option<nat>)
    requires Sound(s)
    ensures Sound(Step(cfg, s, ApplyBatch(w, fault)))
  {
    var t := Step(cfg, s, ApplyBatch(w, fault));
    InboxStep(cfg, s, ApplyBatch(w, fault));
    StepGrows(cfg, s, ApplyBatch(w, fault));
    if Busy(s, w) && PayloadOf(s, w).Batch? {
      assert WorkSound(s, w);
      if BatchAnswer(s, PayloadOf(s, w), fault) == Accepted {
        BatchIsPaid(s, PayloadOf(s, w), fault);
      }
      assert WorkSound(t, w);
    }
    SoundAgain(s, t);
  }

  lemma CrashKeeps(cfg: Settings, s: State, w: nat)
    requires Sound(s)
    ensures Sound(Step(cfg, s, Crash(w)))
  {
    InboxStep(cfg, s, Crash(w));
    StepGrows(cfg, s, Crash(w));
    SoundAgain(s, Step(cfg, s, Crash(w)));
  }

  /** Whoever finishes with full success has its payload on record. */
  lemma AcceptedIsPaid(s: State, w: nat)
    requires Sound(s) && w in s.works && w in s.inbox.workers && s.inbox.workers[w].key in s.payloads
    requires Verdict(s, w) == Some(Accepted)
    ensures Paid(s.world, PayloadOf(s, w))
  {
    assert WorkSound(s, w);
  }

  lemma FinishSettles(cfg: Settings, s: State, w: nat, raised: bool, code: string)
    requires Sound(s) && InboxEvents(s, Finish(w, raised, code)) != []
    ensures var t, key := Step(cfg, s, Finish(w, raised, code)), s.inbox.workers[w].key;
            key in t.inbox.rows && (RowSound(t, key) || NotNewlyProcessed(s, t, key))
  {
    var e, key := Finish(w, raised, code), s.inbox.workers[w].key;
    InboxStep(cfg, s, e);
    assert WorkSound(s, w) && RowSound(s, key);
    if Inbox.Judge(key.kind, InboxEvents(s, e)[0].reply) == Inbox.Acknowledged && !PayloadOf(s, w).Other? {
      AcceptedIsPaid(s, w);
    }
  }

  lemma FinishShape(cfg: Settings, s: State, w: nat, raised: bool, code: string)
    requires Sound(s)
    ensures var e := Finish(w, raised, code);
            var t := Step(cfg, s, e);
            && t.payloads == s.payloads
            && (InboxEvents(s, e) == [] ==> t.works == s.works && t.inbox == s.inbox)
            && (InboxEvents(s, e) != [] ==>
                  && w in s.works && t.works == s.works - {w} && t.inbox.workers == s.inbox.workers - {w}
                  && t.inbox.rows.Keys == s.inbox.rows.Keys
                  && t.inbox.rows - {s.inbox.workers[w].key} == s.inbox.rows - {s.inbox.workers[w].key})
  {
    InboxStep(cfg, s, Finish(w, raised, code));
    if InboxEvents(s, Finish(w, raised, code)) != [] {
      assert WorkSound(s, w);
    }
  }

  lemma FinishKeeps(cfg: Settings, s: State, w: nat, raised: bool, code: string)
    requires Sound(s)
    ensures Sound(Step(cfg, s, Finish(w, raised, code)))
  {
    var e := Finish(w, raised, code);
    var t := Step(cfg, s, e);
    FinishShape(cfg, s, w, raised, code);
    StepGrows(cfg, s, e);
    if InboxEvents(s, e) != [] {
      FinishSettles(cfg, s, w, raised, code);
      forall key | key in t.inbox.rows && key != s.inbox.workers[w].key ensures NotNewlyProcessed(s, t, key) {
        assert key in t.inbox.rows - {s.inbox.workers[w].key};
        assert t.inbox.rows[key] == (t.inbox.rows - {s.inbox.workers[w].key})[key];
      }
    }
    SoundAgain(s, t);
  }

  lemma StepKeepsSound(cfg: Settings, s: State, e: Event)
    requires Sound(s)
    ensures Sound(Step(cfg, s, e))
  {
    match e
    case Arrive(key, payload) => ArriveKeeps(cfg, s, key, payload);
    case Claim(w, key, seen) => ClaimKeeps(cfg, s, w, key, seen);
    case ApplyNext(w) => ApplyKeeps(cfg, s, w);
    case Fault(w) => FaultKeeps(cfg, s, w);
    case ApplyBatch(w, fault) => BatchKeeps(cfg, s, w, fault);
    case Finish(w, raised, code) => FinishKeeps(cfg, s, w, raised, code);
    case Crash(w) => CrashKeeps(cfg, s, w);
    case Tick(_) => QuietKeeps(cfg, s, e);
    case Open(_) => QuietKeeps(cfg, s, e);
    case Elsewhere(_) => QuietKeeps(cfg, s, e);
  }

  lemma {:induction false} RunKeepsSound(cfg: Settings, s: State, run: seq<Event>)
    requires Sound(s)
    ensures Sound(Run(cfg, s, run))
    decreases |run|
  {
    if run != [] {
      StepKeepsSound(cfg, s, run[0]);
      RunKeepsSound(cfg, Step(cfg, s, run[0]), run[1..]);
    }
  }

  /** An empty inbox without workers, over any laboratory. */
  predicate Idle(s: State) {
    s.inbox.rows == map[] && s.inbox.workers == map[] && s.payloads == map[] && s.works == map[]
  }

  /** PROCESSED means paid: in every run, workers that crash or oversleep included, a callback
      that stands as PROCESSED has every transaction of its notification, or of its settled
      batch, on record. */
  lemma ProcessedIsRecorded(cfg: Settings, s: State, run: seq<Event>, key: Inbox.Key)
    requires Idle(s)
    requires var t := Run(cfg, s, run); key in t.inbox.rows && t.inbox.rows[key].status == Inbox.Processed
    ensures var t := Run(cfg, s, run);
            key in t.payloads && Fits(key.kind, t.payloads[key]) && Paid(t.world, t.payloads[key])
  {
    RunKeepsSound(cfg, s, run);
    assert RowSound(Run(cfg, s, run), key);
  }

  // ---- Each transaction once ----

  /** Equal ids mean equal messages. */
  predicate Coherent(messages: set<Txn>) {
    forall a, b :: a in messages && b in messages && a.trx == b.trx ==> a == b
  }

  predicate From(messages: set<Txn>, payload: Payload) {
    forall k :: 0 <= k < |TxnsOf(payload)| ==> TxnsOf(payload)[k] in messages
  }

  ghost predicate AllFrom(messages: set<Txn>, s: State, run: seq<Event>) {
    && (forall key <- s.payloads :: From(messages, s.payloads[key]))
    && (forall e <- run :: e.Arrive? ==> From(messages, e.payload))
  }

  /** The run's first payment of each id not seen before, and everything that is no payment. */
  function Once(run: seq<Records.Event>, seen: set<string>): seq<Records.Event>
    decreases |run|
  {
    if run == [] then []
    else if run[0].Pay? then
      if run[0].txn.trx in seen then Once(run[1..], seen)
      else [run[0]] + Once(run[1..], seen + {run[0].txn.trx})
    else [run[0]] + Once(run[1..], seen)
  }

  /** Every payment of the run names a bill when it comes. */
  predicate AllResolve(w: World, run: seq<Records.Event>)
    decreases |run|
  {
    run == [] || ((run[0].Pay? ==> Resolve(w, run[0].txn).Some?) && AllResolve(Records.Step(w, run[0]), run[1..]))
  }

  /** The ids on record. */
  predicate Seen(w: World, seen: set<string>) {
    forall k :: 0 <= k < |w.payments| ==> w.payments[k].trx in seen
  }

  predicate OnlySeen(w: World, seen: set<string>) {
    forall trx <- seen :: Settlement.Recorded(w, trx)
  }

  lemma SeenAfterPayment(w: World, txn: Txn, seen: set<string>)
    requires Seen(w, seen) && OnlySeen(w, seen) && Resolve(w, txn).Some?
    ensures Seen(Deliver(w, txn), seen + {txn.trx}) && OnlySeen(Deliver(w, txn), seen + {txn.trx})
  {
    var v := Deliver(w, txn);
    DeliveredIsRecorded(w, txn);
    forall trx | trx in seen ensures Settlement.Recorded(v, trx) {
      RecordedStays(w, txn, trx);
    }
    PaymentsSince(w, txn);
  }

  /** A delivery leaves no ids but those there were and its own. */
  lemma PaymentsSince(w: World, txn: Txn)
    ensures var v := Deliver(w, txn);
            forall k :: 0 <= k < |v.payments| ==>
                          v.payments[k].trx == txn.trx ||
                          (k < |w.payments| && v.payments[k].trx == w.payments[k].trx)
  {
    PaymentsAfter(w, txn);
    if Resolve(w, txn).Some? && !Settlement.Recorded(w, txn.trx) {
      Settlement.FirstDelivery(w, txn, Resolve(w, txn).value);
    }
  }

  lemma SeenNext(w: World, e: Records.Event, seen: set<string>)
    requires Seen(w, seen) && OnlySeen(w, seen) && (e.Pay? ==> Resolve(w, e.txn).Some?)
    ensures var next := if e.Pay? then seen + {e.txn.trx} else seen;
            Seen(Records.Step(w, e), next) && OnlySeen(Records.Step(w, e), next)
  {
    if e.Pay? {
      SeenAfterPayment(w, e.txn, seen);
    } else {
      Delivery.OthersKeepPayments(w, e);
    }
  }

  lemma SeenIsRecorded(w: World, seen: set<string>, trx: string)
    requires Seen(w, seen) && OnlySeen(w, seen)
    ensures Settlement.Recorded(w, trx) <==> trx in seen
  {
    PaymentOfMeaning(w.payments, trx);
  }

  /** First arrivals, told from the ids alone. */
  lemma {:induction false} FirstArrivalsAreOnce(w: World, run: seq<Records.Event>, seen: set<string>)
    requires AllResolve(w, run) && Seen(w, seen) && OnlySeen(w, seen)
    ensures Settlement.FirstArrivals(w, run) == Once(run, seen)
    decreases |run|
  {
    if run != [] {
      var e := run[0];
      SeenNext(w, e, seen);
      if e.Pay? {
        SeenIsRecorded(w, seen, e.txn.trx);
        assert e.txn.trx in seen ==> seen + {e.txn.trx} == seen;
        FirstArrivalsAreOnce(Records.Step(w, e), run[1..], seen + {e.txn.trx});
      } else {
        FirstArrivalsAreOnce(Records.Step(w, e), run[1..], seen);
      }
    }
  }

  predicate NoneSeen(once: seq<Records.Event>, seen: set<string>) {
    forall i :: 0 <= i < |once| && once[i].Pay? ==> once[i].txn.trx !in seen
  }

  predicate NoneTwice(once: seq<Records.Event>) {
    forall i, j :: 0 <= i < j < |once| && once[i].Pay? && once[j].Pay? ==> once[i].txn.trx != once[j].txn.trx
  }

  predicate Holds(once: seq<Records.Event>, trx: string) {
    exists i :: 0 <= i < |once| && once[i].Pay? && once[i].txn.trx == trx
  }

  lemma Prepended(e: Records.Event, rest: seq<Records.Event>, seen: set<string>)
    requires NoneTwice(rest) && NoneSeen(rest, if e.Pay? then seen + {e.txn.trx} else seen)
    requires e.Pay? ==> e.txn.trx !in seen
    ensures NoneTwice([e] + rest) && NoneSeen([e] + rest, seen)
  {
    var once := [e] + rest;
    forall i | 0 < i < |once| ensures once[i] == rest[i - 1] {
    }
  }

  /** What Once leaves: every id of the run, none twice, and none seen before. */
  lemma {:induction false} OnceMeaning(run: seq<Records.Event>, seen: set<string>)
    ensures NoneTwice(Once(run, seen)) && NoneSeen(Once(run, seen), seen)
    ensures forall trx :: trx !in seen ==> (Holds(Once(run, seen), trx) <==> Holds(run, trx))
    decreases |run|
  {
    if run != [] {
      var e, rest := run[0], run[1..];
      assert run == [e] + rest;
      if e.Pay? && e.txn.trx !in seen {
        OnceMeaning(rest, seen + {e.txn.trx});
        Prepended(e, Once(rest, seen + {e.txn.trx}), seen);
        HoldsFirst(e, Once(rest, seen + {e.txn.trx}));
      } else {
        OnceMeaning(rest, seen);
        if !e.Pay? {
          Prepended(e, Once(rest, seen), seen);
          HoldsFirst(e, Once(rest, seen));
        }
      }
      HoldsFirst(e, rest);
    }
  }

  lemma HoldsFirst(e: Records.Event, rest: seq<Records.Event>)
    ensures forall trx :: Holds([e] + rest, trx) <==> (e.Pay? && e.txn.trx == trx) || Holds(rest, trx)
  {
    var run := [e] + rest;
    forall trx ensures Holds(run, trx) <==> (e.Pay? && e.txn.trx == trx) || Holds(rest, trx) {
      if e.Pay? && e.txn.trx == trx {
        assert run[0].txn.trx == trx;
      }
      if Holds(rest, trx) {
        var i :| 0 <= i < |rest| && rest[i].Pay? && rest[i].txn.trx == trx;
        assert run[i + 1].txn.trx == trx;
      }
    }
  }

  // ---- The payments a run makes ----

  predicate PaysFrom(messages: set<Txn>, run: seq<Records.Event>) {
    forall e <- run :: e.Pay? ==> e.txn in messages
  }

  lemma OneResolves(w: World, txn: Txn)
    requires Resolve(w, txn).Some?
    ensures AllResolve(w, [Pay(txn)])
  {
    assert [Pay(txn)][1..] == [];
    assert AllResolve(Records.Step(w, Pay(txn)), []);
  }

  lemma PaysLast(txns: seq<Txn>, n: nat)
    requires 0 < n <= |txns|
    ensures Pays(txns[..n]) == Pays(txns[..n - 1]) + [Pay(txns[n - 1])]
  {
  }

  lemma {:induction false} PrefixResolves(w: World, txns: seq<Txn>, n: nat)
    requires n <= |txns| && AllNamed(w, txns, n)
    ensures AllResolve(w, Pays(txns[..n]))
  {
    if n == 0 {
      assert Pays(txns[..0]) == [];
    } else {
      PrefixResolves(w, txns, n - 1);
      Applying(w, txns, n - 1);
      PaysLast(txns, n);
      OneResolves(After(w, txns, n - 1), txns[n - 1]);
      ResolveParts(w, Pays(txns[..n - 1]), [Pay(txns[n - 1])]);
    }
  }

  lemma {:induction false} ResolveParts(w: World, a: seq<Records.Event>, b: seq<Records.Event>)
    ensures AllResolve(w, a + b) <==> AllResolve(w, a) && AllResolve(Records.Run(w, a), b)
    decreases |a|
  {
    if a == [] {
      assert a + b == b;
    } else {
      assert (a + b)[1..] == a[1..] + b;
      ResolveParts(Records.Step(w, a[0]), a[1..], b);
    }
  }

  /** A step pays only messages that have arrived, and only when they name a bill. */
  lemma StepPays(s: State, e: Event, messages: set<Txn>)
    requires forall key <- s.payloads :: From(messages, s.payloads[key])
    ensures PaysFrom(messages, WorldEvents(s, e)) && AllResolve(s.world, WorldEvents(s, e))
  {
    var events := WorldEvents(s, e);
    if e.ApplyBatch? && events != [] {
      var txns := TxnsOf(PayloadOf(s, e.worker));
      assert From(messages, PayloadOf(s, e.worker));
      StopMeaning(s.world, txns, true, e.fault, 0);
      PrefixResolves(s.world, txns, StopAt(s.world, txns, true, e.fault, 0));
    } else if e.ApplyNext? && events != [] {
      assert From(messages, PayloadOf(s, e.worker));
    }
  }

  lemma {:induction false} RunPays(cfg: Settings, s: State, run: seq<Event>, messages: set<Txn>)
    requires AllFrom(messages, s, run)
    ensures PaysFrom(messages, WorldTrace(cfg, s, run)) && AllResolve(s.world, WorldTrace(cfg, s, run))
    decreases |run|
  {
    if run != [] {
      var t := Step(cfg, s, run[0]);
      StepPays(s, run[0], messages);
      RunPays(cfg, t, run[1..], messages);
      ResolveParts(s.world, WorldEvents(s, run[0]), WorldTrace(cfg, t, run[1..]));
    }
  }

  lemma CoherentMessages(messages: set<Txn>, trace: seq<Records.Event>)
    requires Coherent(messages) && PaysFrom(messages, trace)
    ensures Delivery.SameMessages(trace)
  {
    forall i | 0 <= i < |trace| && trace[i].Pay? ensures trace[i].txn in messages {
      assert trace[i] in trace;
    }
  }

  predicate AllFiled(w: World, messages: set<Txn>) {
    forall m <- messages :: Delivery.Filed(w, m)
  }

  lemma FiledTrace(w: World, messages: set<Txn>, trace: seq<Records.Event>)
    requires AllFiled(w, messages) && PaysFrom(messages, trace)
    ensures Delivery.AllFiled(w, trace)
  {
    forall i | 0 <= i < |trace| && trace[i].Pay? ensures Delivery.Filed(w, trace[i].txn) {
      assert trace[i] in trace;
    }
  }

  /** Exactly once, end to end: over any run of arrivals, claims, single transactions, batches,
      crashes, stale reclaims and late saves, with anything else going on in the laboratory,
      the laboratory ends as if each transaction had been applied once, where it first was. */
  lemma EachTransactionOnce(cfg: Settings, s: State, run: seq<Event>, messages: set<Txn>, seen: set<string>)
    requires Coherent(messages) && AllFrom(messages, s, run) && AllFiled(s.world, messages)
    requires Delivery.DistinctNumbers(s.world) && Delivery.NamedOnArrival(s.world, WorldTrace(cfg, s, run))
    requires Seen(s.world, seen) && OnlySeen(s.world, seen)
    ensures Run(cfg, s, run).world == Records.Run(s.world, Once(WorldTrace(cfg, s, run), seen))
  {
    var trace := WorldTrace(cfg, s, run);
    WorldRuns(cfg, s, run);
    RunPays(cfg, s, run, messages);
    CoherentMessages(messages, trace);
    FiledTrace(s.world, messages, trace);
    Delivery.ExactlyOnce(s.world, trace);
    FirstArrivalsAreOnce(s.world, trace, seen);
  }

  lemma {:induction false} FiledAtEnd(w: World, trace: seq<Records.Event>, messages: set<Txn>)
    requires Coherent(messages) && AllFiled(w, messages) && PaysFrom(messages, trace)
    requires Delivery.DistinctNumbers(w) && Delivery.NamedOnArrival(w, trace)
    ensures AllFiled(Records.Run(w, trace), messages)
    decreases |trace|
  {
    if trace != [] {
      var e := trace[0];
      forall m | m in messages ensures Delivery.Filed(Records.Step(w, e), m) {
        Delivery.StepKeepsFiled(w, e, m);
      }
      Delivery.StepKeepsNumbers(w, e);
      FiledAtEnd(Records.Step(w, e), trace[1..], messages);
    }
  }

  /** The row a transaction should have left: its amount, on the bill it names. */
  predicate PaidAs(w: World, txn: Txn) {
    var k := PaymentOf(w.payments, txn.trx);
    && k.Some? && w.payments[k.value].amount == txn.amount
    && w.payments[k.value].bill < |w.bills| && w.bills[w.payments[k.value].bill].number == txn.billNumber
  }

  /** And a callback that stands as PROCESSED has left the right rows: every transaction it
      asked to be paid is recorded with its amount, on the bill it names. */
  lemma ProcessedIsPaidAs(cfg: Settings, s: State, run: seq<Event>, messages: set<Txn>, key: Inbox.Key, k: nat)
    requires Idle(s) && Coherent(messages) && AllFrom(messages, s, run) && AllFiled(s.world, messages)
    requires Delivery.DistinctNumbers(s.world) && Delivery.NamedOnArrival(s.world, WorldTrace(cfg, s, run))
    requires var t := Run(cfg, s, run);
             && key in t.inbox.rows && t.inbox.rows[key].status == Inbox.Processed
             && key in t.payloads && k < |TxnsOf(t.payloads[key])|
             && (t.payloads[key].Batch? && t.payloads[key].statement.Some? ==> t.payloads[key].statement.value.settled)
    ensures PaidAs(Run(cfg, s, run).world, TxnsOf(Run(cfg, s, run).payloads[key])[k])
  {
    var t := Run(cfg, s, run);
    ProcessedIsRecorded(cfg, s, run, key);
    WorldRuns(cfg, s, run);
    RunPays(cfg, s, run, messages);
    FiledAtEnd(s.world, WorldTrace(cfg, s, run), messages);
    PayloadsArrive(cfg, s, run, messages);
    assert From(messages, t.payloads[key]);
    assert Delivery.Filed(t.world, TxnsOf(t.payloads[key])[k]);
  }

  lemma {:induction false} PayloadsArrive(cfg: Settings, s: State, run: seq<Event>, messages: set<Txn>)
    requires AllFrom(messages, s, run)
    ensures forall key <- Run(cfg, s, run).payloads :: From(messages, Run(cfg, s, run).payloads[key])
    decreases |run|
  {
    if run != [] {
      PayloadsArrive(cfg, Step(cfg, s, run[0]), run[1..], messages);
    }
  }
}
