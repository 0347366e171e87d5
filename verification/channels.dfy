/** The two channels payments arrive on, and certificates: each handler works through the
    laboratory's tables in place and keeps whatever it has already committed. */
module Channels {
  import opened Common
  import opened Gems
  import opened Records
  import opened Laboratory
  import Settlement
  import References
  import Inbox

  /** What the laboratory answers the gateway. */
  datatype Ack = Accepted | UnknownBill | Malformed | Failed

  /** The inbox completes a callback on full success only: one unknown bill and the callback
      is rejected for good, with whatever was applied before it. */
  function Code(ack: Ack): (code: string)
    ensures code == "7101" <==> ack == Accepted
    ensures forall kind: Inbox.Kind :: kind != Inbox.Cancellation ==>
              Inbox.Judge(kind, Some(code)) == if ack == Accepted then Inbox.Acknowledged else Inbox.Rejected
  {
    match ack
    case Accepted => "7101"
    case UnknownBill => "7204"
    case Malformed => "7242"
    case Failed => "7321"
  }

  /** A bill nobody knows, a message nobody can read and any other failure are told apart. */
  lemma CodesSpelled(ack: Ack)
    ensures Code(ack) == "7204" <==> ack == UnknownBill
    ensures Code(ack) == "7242" <==> ack == Malformed
    ensures Code(ack) == "7321" <==> ack == Failed
  {
  }

  /** Total a bill's payments, row by row. */
  method SumPayments(lab: Services, bill: nat) returns (paid: int)
    ensures paid == PaidTo(lab.payments, bill)
  {
    paid := 0;
    for i := 0 to |lab.payments|
      invariant paid == PaidTo(lab.payments[..i], bill)
    {
      assert lab.payments[..i + 1] == lab.payments[..i] + [lab.payments[i]];
      Settlement.PaidToAppend(lab.payments[..i], lab.payments[i], bill);
      if lab.payments[i].bill == bill {
        paid := paid + lab.payments[i].amount;
      }
    }
    assert lab.payments[..|lab.payments|] == lab.payments;
  }

  /** Move every live stone of an order, one at a time. */
  method TransitionStones(lab: Services, order: nat, to: StoneStatus)
    modifies lab`stones
    ensures lab.stones == MoveOrder(old(lab.stones), order, to)
  {
    ghost var before := lab.stones;
    var ids := StonesOf(lab.stones, |lab.stones|, order);
    for i := 0 to |ids|
      invariant lab.stones == MoveSome(before, ids, i, to)
    {
      lab.TransitionStone(ids[i], to);
    }
    MoveAllIsMoveOrder(before, order, to);
  }

  /** Settle a bill from the sum of its payments. */
  method SettleBill(lab: Services, bill: nat)
    requires bill < |lab.bills|
    modifies lab`bills, lab`stones
    ensures lab.State() == Settle(old(lab.State()), bill)
  {
    var paid := SumPayments(lab, bill);
    var status := PartiallyPaid;
    if paid >= lab.bills[bill].total {
      status := BillStatus.Paid;
      TransitionStones(lab, lab.bills[bill].order, StoneStatus.Paid);
    }
    lab.bills := lab.bills[bill := lab.bills[bill].(status := status)];
  }

  /** Record one transaction and settle its bill; a known transaction only has its row
      overwritten, and an unknown bill refuses. */
  method ApplyPayment(lab: Services, txn: Txn) returns (applied: bool)
    modifies lab`payments, lab`bills, lab`stones
    ensures lab.State() == Deliver(old(lab.State()), txn)
    ensures applied <==> Resolve(old(lab.State()), txn).Some?
  {
    var bill := Newest(lab.bills, |lab.bills|, (b: Bill) => b.number == txn.billNumber);
    if bill.None? {
      bill := Newest(lab.bills, |lab.bills|, (b: Bill) => b.controlNumber == txn.controlNumber);
    }
    if bill.None? {
      return false;
    }
    applied := true;
    var row := Payment(txn.trx, bill.value, txn.amount);
    var known := PaymentOf(lab.payments, txn.trx);
    if known.Some? {
      lab.payments := lab.payments[known.value := row];
      return;
    }
    lab.payments := lab.payments + [row];
    SettleBill(lab, bill.value);
  }

  /** The state once the first n transactions have been delivered. */
  function After(w: World, txns: seq<Txn>, n: nat): World
    requires n <= |txns|
  {
    Run(w, Pays(txns[..n]))
  }

  lemma AfterNone(w: World, txns: seq<Txn>)
    ensures After(w, txns, 0) == w
  {
    assert Pays(txns[..0]) == [];
  }

  lemma AfterNext(w: World, txns: seq<Txn>, i: nat)
    requires i < |txns|
    ensures After(w, txns, 0) == w
    ensures After(w, txns, i + 1) == Deliver(After(w, txns, i), txns[i])
  {
    assert Pays(txns[..0]) == [];
    assert txns[..i + 1][..i] == txns[..i];
    Settlement.PayAppend(w, txns[..i + 1]);
  }

  lemma {:induction false} AfterKeepsTerms(w: World, txns: seq<Txn>, n: nat)
    requires n <= |txns|
    ensures Settlement.SameTerms(w, After(w, txns, n))
  {
    if n == 0 {
      AfterNone(w, txns);
    } else {
      AfterKeepsTerms(w, txns, n - 1);
      AfterNext(w, txns, n - 1);
      Settlement.DeliverKeepsTerms(After(w, txns, n - 1), txns[n - 1]);
    }
  }

  /** A delivery to a state with the same bills resolves as it did before. */
  lemma ApplyingTo(w: World, u: World, txn: Txn)
    requires Settlement.SameTerms(w, u)
    ensures Resolve(u, txn) == Resolve(w, txn)
    ensures Resolve(w, txn).None? ==> Deliver(u, txn) == u
  {
    Settlement.ResolveStable(w, u, txn);
  }

  lemma Applying(w: World, txns: seq<Txn>, i: nat)
    requires i < |txns|
    ensures After(w, txns, i + 1) == Deliver(After(w, txns, i), txns[i])
    ensures Resolve(After(w, txns, i), txns[i]) == Resolve(w, txns[i])
    ensures Resolve(w, txns[i]).None? ==> After(w, txns, i + 1) == After(w, txns, i)
  {
    AfterNext(w, txns, i);
    AfterKeepsTerms(w, txns, i);
    ApplyingTo(w, After(w, txns, i), txns[i]);
  }

  predicate AllNamed(w: World, txns: seq<Txn>, n: nat)
    requires n <= |txns|
  {
    forall k :: 0 <= k < n ==> Resolve(w, txns[k]).Some?
  }

  /** Apply a notification's transactions: each commits by itself, in order, up to the first
      that fails. `fault` is where an unexpected error strikes, if one does. */
  method ApplyPayments(lab: Services, txns: seq<Txn>, fault: Option<nat>) returns (ack: Ack, applied: nat)
    modifies lab`payments, lab`bills, lab`stones
    ensures applied == StopAt(old(lab.State()), txns, true, fault, 0)
    ensures lab.State() == Reached(old(lab.State()), txns, applied, true)
    ensures ack == if applied == |txns| then Accepted else if fault == Some(applied) then Failed else UnknownBill
  {
    applied := 0;
    ghost var w := lab.State();
    AfterNone(w, txns);
    while applied < |txns|
      invariant applied <= |txns| && lab.State() == Reached(w, txns, applied, true)
      invariant StopAt(w, txns, true, fault, 0) == StopAt(w, txns, true, fault, applied)
    {
      if fault == Some(applied) {
        RowStops(w, txns, true, fault, applied);
        return Failed, applied;
      }
      var found := ApplyPayment(lab, txns[applied]);
      if !found {
        RowStops(w, txns, true, fault, applied);
        return UnknownBill, applied;
      }
      RowPasses(w, txns, true, fault, applied);
      applied := applied + 1;
    }
    ack := Accepted;
  }

  /** Handle a notification; one that does not parse is None. */
  method ProcessNotification(lab: Services, message: Option<seq<Txn>>, fault: Option<nat>) returns (ack: Ack, applied: nat)
    modifies lab`payments, lab`bills, lab`stones
    ensures message.None? ==> ack == Malformed && lab.State() == old(lab.State())
    ensures message.Some? ==> applied <= |message.value|
    ensures message.Some? ==> lab.State() == After(old(lab.State()), message.value, applied)
    ensures message.Some? ==> AllNamed(old(lab.State()), message.value, applied)
    ensures message.Some? ==> (ack == Accepted <==> applied == |message.value|)
    ensures message.Some? && ack != Accepted ==>
              if fault == Some(applied) then ack == Failed
              else ack == UnknownBill && Resolve(old(lab.State()), message.value[applied]).None?
  {
    if message.None? {
      return Malformed, 0;
    }
    ghost var w := lab.State();
    ack, applied := ApplyPayments(lab, message.value, fault);
    StopMeaning(w, message.value, true, fault, 0);
  }

  /** A worker that dies part way through a notification leaves a prefix of it applied. Once
      the stale callback is reclaimed, handling it again from the start is as good as one
      uninterrupted pass. */
  lemma RedeliveryCompletes(w: World, txns: seq<Txn>, n: nat)
    requires n <= |txns| && Settlement.Faithful(w, txns, w)
    requires Settlement.SameContents(txns)
    ensures Run(After(w, txns, n), Pays(txns)) == Run(w, Pays(txns))
  {
    var u := After(w, txns, n);
    AllRecorded(w, txns, n);
    Idle(w, txns, u, n);
    Onwards(w, txns, n);
    Onwards(u, txns, n);
  }

  lemma Onwards(w: World, txns: seq<Txn>, n: nat)
    requires n <= |txns|
    ensures Run(w, Pays(txns)) == Run(After(w, txns, n), Pays(txns[n..]))
  {
    assert Pays(txns) == Pays(txns[..n]) + Pays(txns[n..]);
    RunAppend(w, Pays(txns[..n]), Pays(txns[n..]));
  }

  /** The transaction has been dealt with: it names no bill, or it is recorded. */
  predicate Handled(w: World, u: World, txn: Txn) {
    Resolve(w, txn).None? || Settlement.Recorded(u, txn.trx)
  }

  /** A delivery only adds a row, or rewrites one without changing its id. */
  lemma PaymentsAfter(u: World, txn: Txn)
    ensures var v := Deliver(u, txn);
            |u.payments| <= |v.payments| && forall i :: 0 <= i < |u.payments| ==> v.payments[i].trx == u.payments[i].trx
  {
    if Resolve(u, txn).Some? && !Settlement.Recorded(u, txn.trx) {
      Settlement.FirstDelivery(u, txn, Resolve(u, txn).value);
    }
  }

  lemma RecordedStays(u: World, txn: Txn, trx: string)
    requires Settlement.Recorded(u, trx)
    ensures Settlement.Recorded(Deliver(u, txn), trx)
  {
    PaymentsAfter(u, txn);
    PaymentOfMeaning(Deliver(u, txn).payments, trx);
  }

  lemma DeliveredIsRecorded(u: World, txn: Txn)
    requires Resolve(u, txn).Some?
    ensures Settlement.Recorded(Deliver(u, txn), txn.trx)
  {
    if Settlement.Recorded(u, txn.trx) {
      RecordedStays(u, txn, txn.trx);
    } else {
      var v := Deliver(u, txn);
      Settlement.FirstDelivery(u, txn, Resolve(u, txn).value);
      PaymentOfMeaning(v.payments, txn.trx);
      assert v.payments[|u.payments|].trx == txn.trx;
    }
  }

  lemma {:induction false} AllRecorded(w: World, txns: seq<Txn>, n: nat)
    requires n <= |txns| && Settlement.Faithful(w, txns, w)
    requires Settlement.SameContents(txns)
    ensures var u := After(w, txns, n);
            Settlement.Faithful(w, txns, u) && forall i :: 0 <= i < n ==> Handled(w, u, txns[i])
  {
    if n == 0 {
      AfterNone(w, txns);
    } else {
      var u := After(w, txns, n - 1);
      AllRecorded(w, txns, n - 1);
      AfterNext(w, txns, n - 1);
      Settlement.DeliverKeepsFaith(w, txns, u, n - 1);
      Settlement.ResolveStable(w, u, txns[n - 1]);
      var v := Deliver(u, txns[n - 1]);
      forall i | 0 <= i < n ensures Handled(w, v, txns[i]) {
        if Resolve(w, txns[i]).Some? {
          if i < n - 1 {
            assert Handled(w, u, txns[i]);
            RecordedStays(u, txns[n - 1], txns[i].trx);
          } else {
            DeliveredIsRecorded(u, txns[i]);
          }
        }
      }
    }
  }

  lemma IdleStep(w: World, txns: seq<Txn>, u: World, i: nat)
    requires i < |txns| && Settlement.Faithful(w, txns, u) && Settlement.SameContents(txns)
    requires Handled(w, u, txns[i])
    ensures Deliver(u, txns[i]) == u
  {
    Settlement.ResolveStable(w, u, txns[i]);
    Settlement.DeliverKeepsFaith(w, txns, u, i);
    if Settlement.Recorded(u, txns[i].trx) {
      Settlement.RedeliveryInertIff(u, txns[i]);
    }
  }

  lemma {:induction false} Still(u: World, txns: seq<Txn>, n: nat)
    requires n <= |txns| && forall i :: 0 <= i < n ==> Deliver(u, txns[i]) == u
    ensures After(u, txns, n) == u
  {
    if n == 0 {
      AfterNone(u, txns);
    } else {
      Still(u, txns, n - 1);
      AfterNext(u, txns, n - 1);
    }
  }

  lemma Idle(w: World, txns: seq<Txn>, u: World, n: nat)
    requires n <= |txns| && Settlement.Faithful(w, txns, u) && Settlement.SameContents(txns)
    requires forall i :: 0 <= i < n ==> Handled(w, u, txns[i])
    ensures After(u, txns, n) == u
  {
    forall i | 0 <= i < n ensures Deliver(u, txns[i]) == u {
      assert Handled(w, u, txns[i]);
      IdleStep(w, txns, u, i);
    }
    Still(u, txns, n);
  }

  // ---- Reconciliation ----

  /** A batch message; a detail that does not parse is None. */
  datatype Statement = Statement(settled: bool, details: seq<Option<Txn>>)

  function Parsed(details: seq<Option<Txn>>): (n: nat)
    ensures n <= |details| && forall k :: 0 <= k < n ==> details[k].Some?
    ensures n < |details| ==> details[n].None?
  {
    if details == [] || details[0].None? then 0 else 1 + Parsed(details[1..])
  }

  /** The transactions before the first detail that does not parse. */
  function Transactions(details: seq<Option<Txn>>): (txns: seq<Txn>)
    ensures |txns| == Parsed(details)
  {
    seq(Parsed(details), k requires 0 <= k < Parsed(details) => details[k].value)
  }

  /** The rows after the first n transactions have been stored over what was there. */
  function Stored(rows: map<string, Txn>, txns: seq<Txn>, n: nat): (r: map<string, Txn>)
    requires n <= |txns|
  {
    if n == 0 then rows else Stored(rows, txns, n - 1)[txns[n - 1].trx := txns[n - 1]]
  }

  /** The state after n details: their payments delivered only if the batch settled them. */
  function Reached(w: World, txns: seq<Txn>, n: nat, settled: bool): World
    requires n <= |txns|
  {
    if settled then After(w, txns, n) else w
  }

  /** Where handling of a batch stops: at an unexpected error, at a payment of a settled batch
      that names no bill, or at the end of what parses. */
  function StopAt(w: World, txns: seq<Txn>, settled: bool, fault: Option<nat>, n: nat): (stop: nat)
    requires n <= |txns|
    ensures n <= stop <= |txns|
    decreases |txns| - n
  {
    if n == |txns| || fault == Some(n) || (settled && Resolve(w, txns[n]).None?) then n
    else StopAt(w, txns, settled, fault, n + 1)
  }

  /** Neither an unexpected error nor a payment without a bill at detail k. */
  predicate Passes(w: World, txns: seq<Txn>, settled: bool, fault: Option<nat>, k: nat)
    requires k < |txns|
  {
    fault != Some(k) && (settled ==> Resolve(w, txns[k]).Some?)
  }

  lemma {:induction false} StopsAtFirst(w: World, txns: seq<Txn>, settled: bool, fault: Option<nat>, n: nat)
    requires n <= |txns|
    ensures var stop := StopAt(w, txns, settled, fault, n);
            && (forall k :: n <= k < stop ==> Passes(w, txns, settled, fault, k))
            && (stop < |txns| ==> !Passes(w, txns, settled, fault, stop))
    decreases |txns| - n
  {
    if n < |txns| && Passes(w, txns, settled, fault, n) {
      StopsAtFirst(w, txns, settled, fault, n + 1);
    }
  }

  lemma StopMeaning(w: World, txns: seq<Txn>, settled: bool, fault: Option<nat>, n: nat)
    requires n <= |txns|
    ensures var stop := StopAt(w, txns, settled, fault, n);
            && (forall k :: n <= k < stop ==> fault != Some(k) && (settled ==> Resolve(w, txns[k]).Some?))
            && (stop < |txns| ==> fault == Some(stop) || (settled && Resolve(w, txns[stop]).None?))
  {
    StopsAtFirst(w, txns, settled, fault, n);
    forall k | n <= k < StopAt(w, txns, settled, fault, n)
      ensures fault != Some(k) && (settled ==> Resolve(w, txns[k]).Some?)
    {
      assert Passes(w, txns, settled, fault, k);
    }
  }

  lemma RowPasses(w: World, txns: seq<Txn>, settled: bool, fault: Option<nat>, i: nat)
    requires i < |txns| && fault != Some(i)
    requires settled ==> Resolve(Reached(w, txns, i, settled), txns[i]).Some?
    ensures StopAt(w, txns, settled, fault, i) == StopAt(w, txns, settled, fault, i + 1)
    ensures var u := Reached(w, txns, i, settled);
            Reached(w, txns, i + 1, settled) == if settled then Deliver(u, txns[i]) else u
  {
    Applying(w, txns, i);
  }

  lemma RowStops(w: World, txns: seq<Txn>, settled: bool, fault: Option<nat>, i: nat)
    requires i < |txns|
    requires fault == Some(i) || (settled && Resolve(Reached(w, txns, i, settled), txns[i]).None?)
    ensures StopAt(w, txns, settled, fault, i) == i
    ensures fault != Some(i) ==> Deliver(Reached(w, txns, i, settled), txns[i]) == Reached(w, txns, i, settled)
  {
    Applying(w, txns, i);
  }

  function BatchAck(applied: nat, parsed: nat, details: nat): Ack {
    if applied < parsed then Failed else if parsed < details then Malformed else Accepted
  }

  /** How many rows are stored when handling stops: the one it stops at too, unless an error
      struck before that row was stored. */
  function Kept(applied: nat, parsed: nat, fault: Option<nat>, early: bool): (kept: nat)
    requires applied <= parsed
    ensures applied <= kept <= parsed
  {
    if applied == parsed || (early && fault == Some(applied)) then applied else applied + 1
  }

  /** The answer to a batch that stops after so many details: complete only when all of them
      were applied, malformed at a detail that does not parse, failed at any other. */
  lemma AnswerMeaning(w: World, m: Statement, fault: Option<nat>)
    ensures var txns := Transactions(m.details);
            var stop := StopAt(w, txns, m.settled, fault, 0);
            var ack := BatchAck(stop, |txns|, |m.details|);
            && (ack == Accepted <==> stop == |m.details|)
            && (ack == Malformed <==> stop < |m.details| && m.details[stop].None?)
            && (ack == Failed <==> stop < |m.details| && m.details[stop].Some?)
            && (ack == Failed ==> fault == Some(stop) || (m.settled && Resolve(w, m.details[stop].value).None?))
  {
    var txns := Transactions(m.details);
    StopMeaning(w, txns, m.settled, fault, 0);
  }

  /** Only a settled batch pays; storing goes one row further than paying, unless everything
      was applied or the error struck before the row was stored. */
  lemma ReachedMeaning(w: World, txns: seq<Txn>, stop: nat, settled: bool, fault: Option<nat>, early: bool)
    requires stop <= |txns|
    ensures Reached(w, txns, stop, settled) == if settled then Run(w, Pays(txns[..stop])) else w
    ensures Kept(stop, |txns|, fault, early) == stop <==> stop == |txns| || (early && fault == Some(stop))
    ensures Kept(stop, |txns|, fault, early) in {stop, stop + 1}
  {
  }

  /** Among the first n transactions none after the k-th has its id. */
  predicate LastWrite(txns: seq<Txn>, n: nat, k: nat)
    requires n <= |txns|
  {
    k < n && forall l :: k < l < n ==> txns[l].trx != txns[k].trx
  }

  /** Storing the first n transactions keeps, for each id, the last row written to it. */
  lemma {:induction false} LastWriteWins(rows: map<string, Txn>, txns: seq<Txn>, n: nat, k: nat)
    requires n <= |txns| && LastWrite(txns, n, k)
    ensures var stored, trx := Stored(rows, txns, n), txns[k].trx; trx in stored && stored[trx] == txns[k]
  {
    if k < n - 1 {
      LastWriteWins(rows, txns, n - 1, k);
    }
  }

  /** The rows of other ids stay as they are, and none appear. */
  lemma {:induction false} OtherRowsStay(rows: map<string, Txn>, txns: seq<Txn>, n: nat, trx: string)
    requires n <= |txns| && forall k :: 0 <= k < n ==> txns[k].trx != trx
    ensures var stored := Stored(rows, txns, n);
            (trx in stored <==> trx in rows) && (trx in rows ==> stored[trx] == rows[trx])
  {
    if n > 0 {
      OtherRowsStay(rows, txns, n - 1, trx);
    }
  }

  /** The record of one reconciliation request, and the rows stored for it. */
  class Reconciliation {
    var completed: bool
    var rows: map<string, Txn>

    /** Store one row and pay it. An error may strike before the row is stored, or after. */
    method ApplyDetail(lab: Services, settled: bool, txn: Txn, fails: bool, early: bool) returns (applied: bool)
      modifies this`rows, lab`payments, lab`bills, lab`stones
      ensures rows == if fails && early then old(rows) else old(rows)[txn.trx := txn]
      ensures lab.State() == if settled && !fails then Deliver(old(lab.State()), txn) else old(lab.State())
      ensures applied <==> !fails && (settled ==> Resolve(old(lab.State()), txn).Some?)
    {
      if fails && early {
        return false;
      }
      rows := rows[txn.trx := txn];
      applied := !fails;
      if settled && !fails {
        applied := ApplyPayment(lab, txn);
      }
    }

    /** The same, as one turn of a batch that has come to its i-th row. */
    method ApplyRow(lab: Services, settled: bool, txn: Txn, fault: Option<nat>, early: bool,
                    ghost w: World, ghost before: map<string, Txn>, ghost txns: seq<Txn>, i: nat) returns (applied: bool)
      requires i < |txns| && txns[i] == txn && lab.State() == Reached(w, txns, i, settled)
      requires rows == Stored(before, txns, i)
      modifies this`rows, lab`payments, lab`bills, lab`stones
      ensures lab.State() == Reached(w, txns, if applied then i + 1 else i, settled)
      ensures StopAt(w, txns, settled, fault, i) == if applied then StopAt(w, txns, settled, fault, i + 1) else i
      ensures rows == Stored(before, txns, if applied then i + 1 else Kept(i, |txns|, fault, early))
    {
      applied := ApplyDetail(lab, settled, txn, fault == Some(i), early);
      if applied {
        RowPasses(w, txns, settled, fault, i);
      } else {
        RowStops(w, txns, settled, fault, i);
      }
    }

    /** Store each row, then apply its payment if the batch settled them. A failed payment
        leaves its row stored. `fault` is where an unexpected error strikes, if one does:
        `early`, before that row is stored, or else after. */
    method ApplyDetails(lab: Services, settled: bool, details: seq<Option<Txn>>, fault: Option<nat>, early: bool)
      returns (ack: Ack, applied: nat)
      modifies this`rows, lab`payments, lab`bills, lab`stones
      ensures var txns := Transactions(details);
              && applied == StopAt(old(lab.State()), txns, settled, fault, 0)
              && lab.State() == Reached(old(lab.State()), txns, applied, settled)
              && rows == Stored(old(rows), txns, Kept(applied, |txns|, fault, early))
              && ack == BatchAck(applied, |txns|, |details|)
    {
      applied := 0;
      ghost var txns, w, before := Transactions(details), lab.State(), rows;
      AfterNone(w, txns);
      while applied < |details|
        invariant applied <= |txns|
        invariant StopAt(w, txns, settled, fault, 0) == StopAt(w, txns, settled, fault, applied)
        invariant rows == Stored(before, txns, applied)
        invariant lab.State() == Reached(w, txns, applied, settled)
      {
        if details[applied].None? {
          return Malformed, applied;
        }
        var done := ApplyRow(lab, settled, details[applied].value, fault, early, w, before, txns, applied);
        if !done {
          return Failed, applied;
        }
        applied := applied + 1;
      }
      ack := Accepted;
    }
  }

  /** Handle a batch for the request it names, null when there is no such request. */
  method HandleReconciliation(lab: Services, request: Reconciliation?, message: Option<Statement>,
                              fault: Option<nat>, early: bool)
    returns (ack: Ack, applied: nat)
    modifies request, lab`payments, lab`bills, lab`stones
    ensures message.None? ==> ack == Malformed
    ensures message.Some? && request == null ==> ack == Failed
    ensures message.None? || request == null ==> lab.State() == old(lab.State())
    ensures message.None? && request != null ==> unchanged(request)
    ensures message.Some? && request != null ==>
              var m, txns := message.value, Transactions(message.value.details);
              && applied == StopAt(old(lab.State()), txns, m.settled, fault, 0)
              && request.completed == m.settled
              && lab.State() == Reached(old(lab.State()), txns, applied, m.settled)
              && request.rows == Stored(old(request.rows), txns, Kept(applied, |txns|, fault, early))
              && ack == BatchAck(applied, |txns|, |m.details|)
  {
    if message.None? {
      return Malformed, 0;
    }
    if request == null {
      return Failed, 0;
    }
    request.completed := message.value.settled;
    ack, applied := request.ApplyDetails(lab, message.value.settled, message.value.details, fault, early);
  }

  // ---- Certificates ----

  /** Issue a stone's certificate, or refuse and leave everything. */
  method IssueCertificate(lab: Services, s: nat) returns (issued: bool)
    requires s < |lab.stones| && !lab.stones[s].deleted && lab.stones[s].order < |lab.orders|
    modifies lab`certificates, lab`stones
    ensures issued <==> MayCertify(old(lab.State()), s)
    ensures lab.State() == if issued then Issue(old(lab.State()), s) else old(lab.State())
  {
    var st := lab.stones[s];
    if exists i :: 0 <= i < |lab.certificates| && lab.certificates[i].stone == s {
      return false;
    }
    if st.report != Finalized {
      return false;
    }
    var bill := Newest(lab.bills, |lab.bills|, (b: Bill) => b.order == st.order);
    if bill.None? || lab.bills[bill.value].status != BillStatus.Paid {
      return false;
    }
    if st.weight.None? || st.kind.None? {
      return false;
    }
    var number := References.ReferenceForOrder(lab.orders[st.order].reference, "CERT", Some(Letter(st.mark)));
    if number.None? || exists i :: 0 <= i < |lab.certificates| && !lab.certificates[i].deleted && lab.certificates[i].number == number.value {
      return false;
    }
    lab.certificates := lab.certificates + [Certificate(s, number.value, false)];
    lab.TransitionStone(s, StoneStatus.Certified);
    issued := true;
  }
}
