/** Exactly-once settlement: redelivered payments change nothing that matters, and what
    distinct payments do depends only on which they are. */
module Settlement {
  import opened Common
  import opened Gems
  import opened Records

  predicate Recorded(w: World, trx: string) {
    PaymentOf(w.payments, trx).Some?
  }

  /** A redelivery is inert when it names no bill, or the recorded bill and amount. */
  predicate Inert(w: World, txn: Txn) {
    var k, bill := PaymentOf(w.payments, txn.trx), Resolve(w, txn);
    k.Some? && (bill.None? || w.payments[k.value] == Payment(txn.trx, bill.value, txn.amount))
  }

  /** A redelivery never touches bills or stones, and leaves the payments alone exactly
      when it is inert. */
  lemma RedeliveryInertIff(w: World, txn: Txn)
    requires Recorded(w, txn.trx)
    ensures Deliver(w, txn).(payments := w.payments) == w
    ensures Deliver(w, txn) == w <==> Inert(w, txn)
  {
    var k := PaymentOf(w.payments, txn.trx).value;
    var bill := Resolve(w, txn);
    if bill.Some? {
      var row := Payment(txn.trx, bill.value, txn.amount);
      assert Deliver(w, txn).payments == w.payments[k := row];
      if w.payments[k] == row {
        assert w.payments[k := row] == w.payments;
      } else {
        assert w.payments[k := row][k] != w.payments[k];
      }
    }
  }

  // ---- Any run ----

  predicate Redelivery(w: World, e: Event) {
    e.Pay? && Recorded(w, e.txn.trx)
  }

  /** Whenever a known transaction comes again it is inert. What the gateway must promise for
      that is the subject of Delivery. */
  predicate Consistent(w: World, run: seq<Event>)
    decreases |run|
  {
    run == [] || ((Redelivery(w, run[0]) ==> Inert(w, run[0].txn)) && Consistent(Step(w, run[0]), run[1..]))
  }

  /** The run without its redeliveries: each transaction stays where it first took effect. */
  function FirstArrivals(w: World, run: seq<Event>): seq<Event>
    decreases |run|
  {
    if run == [] then []
    else (if Redelivery(w, run[0]) then [] else [run[0]]) + FirstArrivals(Step(w, run[0]), run[1..])
  }

  predicate NoRedelivery(w: World, run: seq<Event>)
    decreases |run|
  {
    run == [] || (!Redelivery(w, run[0]) && NoRedelivery(Step(w, run[0]), run[1..]))
  }

  /** Where redeliveries are inert they can be left out of a run. */
  lemma {:induction false} SkippingIsHarmless(w: World, run: seq<Event>)
    requires Consistent(w, run)
    ensures Run(w, FirstArrivals(w, run)) == Run(w, run)
    ensures NoRedelivery(w, FirstArrivals(w, run))
    decreases |run|
  {
    if run != [] {
      var e := run[0];
      SkippingIsHarmless(Step(w, e), run[1..]);
      if Redelivery(w, e) {
        RedeliveryInertIff(w, e.txn);
        assert FirstArrivals(w, run) == FirstArrivals(w, run[1..]);
      } else {
        var rest := FirstArrivals(Step(w, e), run[1..]);
        assert FirstArrivals(w, run) == [e] + rest && ([e] + rest)[1..] == rest;
      }
    }
  }

  // ---- Runs of payments alone ----

  predicate SameTerms(w: World, v: World) {
    |w.bills| == |v.bills| &&
    forall i :: 0 <= i < |w.bills| ==>
                  && v.bills[i].number == w.bills[i].number && v.bills[i].controlNumber == w.bills[i].controlNumber
                  && v.bills[i].order == w.bills[i].order && v.bills[i].total == w.bills[i].total
  }

  lemma ResolveStable(w: World, v: World, txn: Txn)
    requires SameTerms(w, v)
    ensures Resolve(v, txn) == Resolve(w, txn)
  {
    NewestStable(w.bills, v.bills, |w.bills|, (b: Bill) => b.number == txn.billNumber);
    NewestStable(w.bills, v.bills, |w.bills|, (b: Bill) => b.controlNumber == txn.controlNumber);
  }

  lemma {:induction false} NewestStable(a: seq<Bill>, b: seq<Bill>, n: nat, matches: Bill -> bool)
    requires n <= |a| && n <= |b| && forall i :: 0 <= i < n ==> matches(a[i]) == matches(b[i])
    ensures Newest(a, n, matches) == Newest(b, n, matches)
  {
    if n > 0 {
      NewestStable(a, b, n - 1, matches);
    }
  }

  /** A first delivery: one row, one bill's status, and perhaps its order's stones. */
  lemma FirstDelivery(w: World, txn: Txn, bill: nat)
    requires Resolve(w, txn) == Some(bill) && !Recorded(w, txn.trx)
    ensures var v, row := Deliver(w, txn), Payment(txn.trx, bill, txn.amount);
            var settled := PaidTo(w.payments + [row], bill) >= w.bills[bill].total;
            && v.payments == w.payments + [row]
            && v.bills == w.bills[bill := w.bills[bill].(status := if settled then BillStatus.Paid else PartiallyPaid)]
            && v.stones == (if settled then MoveOrder(w.stones, w.bills[bill].order, StoneStatus.Paid) else w.stones)
            && v.orders == w.orders && v.certificates == w.certificates
            && v.autoBill == w.autoBill && v.prices == w.prices && v.kinds == w.kinds
  {
  }

  lemma Unrecorded(payments: seq<Payment>, trx: string)
    requires forall k :: 0 <= k < |payments| ==> payments[k].trx != trx
    ensures PaymentOf(payments, trx).None?
  {
    PaymentOfMeaning(payments, trx);
  }

  lemma DeliverKeepsTerms(w: World, txn: Txn)
    ensures SameTerms(w, Deliver(w, txn))
    ensures Deliver(w, txn).certificates == w.certificates && Deliver(w, txn).orders == w.orders
  {
    var bill := Resolve(w, txn);
    if Recorded(w, txn.trx) {
      RedeliveryInertIff(w, txn);
    } else if bill.Some? {
      FirstDelivery(w, txn, bill.value);
    }
  }

  /** Transactions with distinct ids, none of them recorded. */
  predicate Fresh(w: World, txns: seq<Txn>) {
    && (forall i, j :: 0 <= i < j < |txns| ==> txns[i].trx != txns[j].trx)
    && (forall i, k :: 0 <= i < |txns| && 0 <= k < |w.payments| ==> w.payments[k].trx != txns[i].trx)
  }

  /** The rows fresh transactions leave: one for each that names a bill. */
  function Rows(w: World, txns: seq<Txn>): seq<Payment> {
    if txns == [] then []
    else
      var last := txns[|txns| - 1];
      Rows(w, txns[..|txns| - 1]) +
      if Resolve(w, last).Some? then [Payment(last.trx, Resolve(w, last).value, last.amount)] else []
  }

  predicate Touches(rows: seq<Payment>, bill: nat) {
    exists i :: 0 <= i < |rows| && rows[i].bill == bill
  }

  /** Pending until paid anything; then paid or part paid by what the payments sum to. */
  function StatusAfter(w: World, rows: seq<Payment>, bill: nat): BillStatus
    requires bill < |w.bills|
  {
    if !Touches(rows, bill) then w.bills[bill].status
    else if PaidTo(w.payments + rows, bill) >= w.bills[bill].total then BillStatus.Paid else PartiallyPaid
  }

  lemma {:induction false} RowsAreNew(w: World, txns: seq<Txn>, k: nat)
    requires k < |Rows(w, txns)|
    ensures exists i :: 0 <= i < |txns| && txns[i].trx == Rows(w, txns)[k].trx
    ensures Rows(w, txns)[k].bill < |w.bills|
  {
    var front := txns[..|txns| - 1];
    if k < |Rows(w, front)| {
      RowsAreNew(w, front, k);
      var i :| 0 <= i < |front| && front[i].trx == Rows(w, front)[k].trx;
      assert txns[i] == front[i];
    }
  }

  lemma PayAppend(w: World, txns: seq<Txn>)
    requires txns != []
    ensures Run(w, Pays(txns)) == Deliver(Run(w, Pays(txns[..|txns| - 1])), txns[|txns| - 1])
  {
    var front, last := txns[..|txns| - 1], txns[|txns| - 1];
    assert Pays(txns) == Pays(front) + [Pay(last)];
    RunAppend(w, Pays(front), [Pay(last)]);
    var v := Run(w, Pays(front));
    assert [Pay(last)][1..] == [];
    assert Run(v, [Pay(last)]) == Run(Step(v, Pay(last)), []);
  }

  /** `v` is `w` after exactly these rows were paid: the rows recorded, and each bill's
      status set from what has been paid towards it. */
  ghost predicate SettledBy(w: World, rows: seq<Payment>, v: World) {
    && v.payments == w.payments + rows && SameTerms(w, v)
    && |v.stones| == |w.stones| && v.orders == w.orders && v.certificates == w.certificates
    && forall b :: 0 <= b < |w.bills| ==> v.bills[b].status == StatusAfter(w, rows, b)
  }

  lemma SettleStep(w: World, rows: seq<Payment>, u: World, txn: Txn, bill: nat)
    requires SettledBy(w, rows, u) && Resolve(u, txn) == Some(bill) && !Recorded(u, txn.trx)
    ensures SettledBy(w, rows + [Payment(txn.trx, bill, txn.amount)], Deliver(u, txn))
  {
    var row := Payment(txn.trx, bill, txn.amount);
    FirstDelivery(u, txn, bill);
    assert (w.payments + rows) + [row] == w.payments + (rows + [row]);
    var v := Deliver(u, txn);
    forall b | 0 <= b < |w.bills| ensures v.bills[b].status == StatusAfter(w, rows + [row], b) {
      TouchesAppend(rows, row, b);
      PaidToAppend(w.payments + rows, row, b);
    }
  }

  lemma StillUnrecorded(w: World, txns: seq<Txn>, u: World, last: Txn)
    requires Fresh(w, txns + [last]) && u.payments == w.payments + Rows(w, txns)
    ensures !Recorded(u, last.trx)
  {
    var all := txns + [last];
    forall k | 0 <= k < |u.payments| ensures u.payments[k].trx != last.trx {
      assert all[|txns|] == last;
      if k >= |w.payments| {
        RowsAreNew(w, txns, k - |w.payments|);
        var i :| 0 <= i < |txns| && txns[i].trx == Rows(w, txns)[k - |w.payments|].trx;
        assert all[i] == txns[i];
      }
    }
    Unrecorded(u.payments, last.trx);
  }

  lemma SettleNext(w: World, front: seq<Txn>, last: Txn, u: World)
    requires Fresh(w, front + [last]) && SettledBy(w, Rows(w, front), u)
    ensures SettledBy(w, Rows(w, front + [last]), Deliver(u, last))
  {
    assert (front + [last])[..|front|] == front;
    ResolveStable(w, u, last);
    StillUnrecorded(w, front, u, last);
    if Resolve(w, last).Some? {
      SettleStep(w, Rows(w, front), u, last, Resolve(w, last).value);
    } else {
      assert Rows(w, front) + [] == Rows(w, front);
    }
  }

  lemma NothingSettled(w: World)
    ensures SettledBy(w, [], w)
  {
    assert w.payments + [] == w.payments;
  }

  /** The closed form of a run of fresh payments. */
  lemma {:induction false} PaymentsSettle(w: World, txns: seq<Txn>)
    requires Fresh(w, txns)
    ensures SettledBy(w, Rows(w, txns), Run(w, Pays(txns)))
  {
    if txns == [] {
      NothingSettled(w);
    } else {
      var front, last := txns[..|txns| - 1], txns[|txns| - 1];
      assert txns == front + [last];
      PaymentsSettle(w, front);
      PayAppend(w, txns);
      SettleNext(w, front, last, Run(w, Pays(front)));
    }
  }

  lemma TouchesAppend(rows: seq<Payment>, row: Payment, bill: nat)
    ensures Touches(rows + [row], bill) <==> Touches(rows, bill) || row.bill == bill
  {
    var all := rows + [row];
    if Touches(rows, bill) {
      var i :| 0 <= i < |rows| && rows[i].bill == bill;
      assert all[i] == rows[i];
    }
    assert all[|rows|] == row;
  }

  lemma PaidToAppend(payments: seq<Payment>, row: Payment, bill: nat)
    ensures PaidTo(payments + [row], bill) == PaidTo(payments, bill) + if row.bill == bill then row.amount else 0
  {
    assert (payments + [row])[..|payments|] == payments;
  }

  /** A bill towards which nothing is recorded has been paid nothing. */
  lemma {:induction false} NothingPaid(payments: seq<Payment>, bill: nat)
    requires !Touches(payments, bill)
    ensures PaidTo(payments, bill) == 0
  {
    if payments != [] {
      var front := payments[..|payments| - 1];
      assert forall i :: 0 <= i < |front| ==> front[i] == payments[i];
      assert payments[|payments| - 1].bill != bill;
      NothingPaid(front, bill);
    }
  }

  lemma {:induction false} PaidToParts(a: seq<Payment>, b: seq<Payment>, bill: nat)
    ensures PaidTo(a + b, bill) == PaidTo(a, bill) + PaidTo(b, bill)
  {
    if b == [] {
      assert a + b == a;
    } else {
      assert (a + b)[..|a + b| - 1] == a + b[..|b| - 1];
      PaidToParts(a, b[..|b| - 1], bill);
    }
  }

  lemma Without<T>(b: seq<T>, k: nat)
    requires k < |b|
    ensures b == b[..k] + [b[k]] + b[k + 1..]
    ensures multiset(b[..k] + b[k + 1..]) == multiset(b) - multiset{b[k]}
  {
    var front, rest := b[..k], b[k + 1..];
    assert b == front + [b[k]] + rest;
    assert multiset(b) == multiset(front) + multiset{b[k]} + multiset(rest);
  }

  /** The last of one sequence taken out of another with the same members. */
  lemma TakeOut<T>(a: seq<T>, b: seq<T>) returns (k: nat)
    requires multiset(a) == multiset(b) && a != []
    ensures k < |b| && b[k] == a[|a| - 1]
    ensures a == a[..|a| - 1] + [b[k]] && b == b[..k] + [b[k]] + b[k + 1..]
    ensures multiset(a[..|a| - 1]) == multiset(b[..k] + b[k + 1..])
  {
    var n := |a| - 1;
    Without(a, n);
    assert a[..n] + a[n + 1..] == a[..n];
    assert a[n] in multiset(b);
    k :| 0 <= k < |b| && b[k] == a[n];
    Without(b, k);
  }

  /** What is paid towards a bill does not depend on the order of the payments. */
  lemma {:induction false} PaidToPermutation(a: seq<Payment>, b: seq<Payment>, bill: nat)
    requires multiset(a) == multiset(b)
    ensures PaidTo(a, bill) == PaidTo(b, bill)
    decreases |a|
  {
    if a == [] {
      assert |multiset(b)| == 0;
      assert b == [];
    } else {
      var k := TakeOut(a, b);
      PaidToPermutation(a[..|a| - 1], b[..k] + b[k + 1..], bill);
      PaidToParts(b[..k], b[k + 1..], bill);
      PaidToParts(b[..k] + [b[k]], b[k + 1..], bill);
      PaidToAppend(b[..k], b[k], bill);
    }
  }

  lemma {:induction false} RowsPermutation(w: World, txns: seq<Txn>, txns': seq<Txn>)
    requires multiset(txns) == multiset(txns')
    ensures multiset(Rows(w, txns)) == multiset(Rows(w, txns'))
    decreases |txns|
  {
    if txns == [] {
      assert |multiset(txns')| == 0;
      assert txns' == [];
    } else {
      var k := TakeOut(txns, txns');
      var front, last := txns[..|txns| - 1], txns'[k];
      RowsPermutation(w, front, txns'[..k] + txns'[k + 1..]);
      RowsParts(w, txns'[..k], txns'[k + 1..]);
      RowsParts(w, txns'[..k] + [last], txns'[k + 1..]);
      RowsParts(w, txns'[..k], [last]);
      RowsParts(w, front, [last]);
      RowsMoved(Rows(w, txns'[..k]), Rows(w, [last]), Rows(w, txns'[k + 1..]), Rows(w, front));
    }
  }

  lemma RowsMoved(a: seq<Payment>, m: seq<Payment>, c: seq<Payment>, front: seq<Payment>)
    requires multiset(front) == multiset(a + c)
    ensures multiset(front + m) == multiset(a + m + c)
  {
  }

  lemma {:induction false} RowsParts(w: World, a: seq<Txn>, b: seq<Txn>)
    ensures Rows(w, a + b) == Rows(w, a) + Rows(w, b)
    decreases |b|
  {
    if b == [] {
      assert a + b == a;
    } else {
      assert (a + b)[..|a + b| - 1] == a + b[..|b| - 1];
      RowsParts(w, a, b[..|b| - 1]);
    }
  }

  /** The final statuses and amounts are the same for every order of arrival. */
  lemma ArrivalOrderIsIrrelevant(w: World, txns: seq<Txn>, txns': seq<Txn>, bill: nat)
    requires Fresh(w, txns) && Fresh(w, txns') && multiset(txns) == multiset(txns') && bill < |w.bills|
    ensures var v, v' := Run(w, Pays(txns)), Run(w, Pays(txns'));
            && bill < |v.bills| && bill < |v'.bills|
            && v'.bills[bill].status == v.bills[bill].status
            && PaidTo(v'.payments, bill) == PaidTo(v.payments, bill)
            && multiset(v'.payments) == multiset(v.payments)
  {
    PaymentsSettle(w, txns);
    PaymentsSettle(w, txns');
    RowsPermutation(w, txns, txns');
    var rows, rows' := Rows(w, txns), Rows(w, txns');
    assert multiset(w.payments + rows) == multiset(w.payments + rows');
    PaidToPermutation(w.payments + rows, w.payments + rows', bill);
    assert Touches(rows, bill) <==> Touches(rows', bill) by {
      TouchesMembers(rows, bill);
      TouchesMembers(rows', bill);
    }
  }

  lemma TouchesMembers(rows: seq<Payment>, bill: nat)
    ensures Touches(rows, bill) <==> exists p :: p in multiset(rows) && p.bill == bill
  {
    if p :| p in multiset(rows) && p.bill == bill {
      assert p in rows;
    }
    if Touches(rows, bill) {
      var i :| 0 <= i < |rows| && rows[i].bill == bill;
      assert rows[i] in multiset(rows);
    }
  }

  /** A pending bill without payments: pending if none arrive, paid exactly when what arrives
      reaches the total, part paid otherwise. */
  lemma SettlementOfABill(w: World, txns: seq<Txn>, bill: nat)
    requires Fresh(w, txns) && bill < |w.bills| && w.bills[bill].status == BillStatus.Pending
    requires PaidTo(w.payments, bill) == 0
    ensures var v, rows := Run(w, Pays(txns)), Rows(w, txns);
            && bill < |v.bills|
            && (v.bills[bill].status == BillStatus.Pending <==> !Touches(rows, bill))
            && (v.bills[bill].status == BillStatus.Paid <==>
                Touches(rows, bill) && PaidTo(rows, bill) >= w.bills[bill].total)
            && (v.bills[bill].status == PartiallyPaid <==>
                Touches(rows, bill) && PaidTo(rows, bill) < w.bills[bill].total)
  {
    PaymentsSettle(w, txns);
    PaidToParts(w.payments, Rows(w, txns), bill);
  }

  /** The bill's order has no other bill. */
  predicate OnlyBill(w: World, bill: nat)
    requires bill < |w.bills|
  {
    forall b :: 0 <= b < |w.bills| && w.bills[b].order == w.bills[bill].order ==> b == bill
  }

  lemma StoneStep(u: World, txn: Txn, bill: nat, other: nat, s: nat)
    requires Resolve(u, txn) == Some(other) && !Recorded(u, txn.trx) && bill < |u.bills| && s < |u.stones|
    requires LiveIn(u.stones[s], u.bills[bill].order) && OnlyBill(u, bill)
    ensures var v := Deliver(u, txn);
            && |v.stones| == |u.stones| && |v.bills| == |u.bills|
            && v.stones[s] == (if other == bill && v.bills[bill].status == BillStatus.Paid
                               then Moved(u.stones[s], StoneStatus.Paid) else u.stones[s])
            && (other != bill ==> v.bills[bill] == u.bills[bill])
  {
    FirstDelivery(u, txn, other);
  }

  /** A fully paid bill stays paid through further non-negative payments. */
  lemma PaidStaysPaid(u: World, txn: Txn, bill: nat)
    requires Resolve(u, txn) == Some(bill) && !Recorded(u, txn.trx) && txn.amount >= 0
    requires PaidTo(u.payments, bill) >= u.bills[bill].total
    ensures Deliver(u, txn).bills[bill].status == BillStatus.Paid
  {
    FirstDelivery(u, txn, bill);
    PaidToAppend(u.payments, Payment(txn.trx, bill, txn.amount), bill);
  }

  /** One more payment leaves the stone as the bill's status now says. */
  lemma StoneNext(w: World, front: seq<Txn>, last: Txn, u: World, bill: nat, s: nat)
    requires Fresh(w, front + [last]) && last.amount >= 0 && SettledBy(w, Rows(w, front), u)
    requires bill < |w.bills| && s < |w.stones| && OnlyBill(w, bill) && w.bills[bill].status != BillStatus.Paid
    requires LiveIn(w.stones[s], w.bills[bill].order)
    requires u.stones[s] == if u.bills[bill].status == BillStatus.Paid then Moved(w.stones[s], StoneStatus.Paid)
                            else w.stones[s]
    ensures var v := Deliver(u, last);
            && bill < |v.bills| && s < |v.stones|
            && v.stones[s] == if v.bills[bill].status == BillStatus.Paid then Moved(w.stones[s], StoneStatus.Paid)
                              else w.stones[s]
  {
    ResolveStable(w, u, last);
    StillUnrecorded(w, front, u, last);
    if Resolve(w, last).Some? {
      var other := Resolve(w, last).value;
      StoneStep(u, last, bill, other, s);
      if other == bill && u.bills[bill].status == BillStatus.Paid {
        PaidStaysPaid(u, last, bill);
      }
    }
  }

  /** The stones follow the money: with non-negative amounts, the live stones of an order
      whose only bill starts unpaid are moved to paid exactly when that bill ends paid. */
  lemma {:induction false} StonesFollowTheBill(w: World, txns: seq<Txn>, bill: nat, s: nat)
    requires Fresh(w, txns) && bill < |w.bills| && s < |w.stones|
    requires forall i :: 0 <= i < |txns| ==> txns[i].amount >= 0
    requires LiveIn(w.stones[s], w.bills[bill].order) && OnlyBill(w, bill)
    requires w.bills[bill].status != BillStatus.Paid
    ensures var v := Run(w, Pays(txns));
            && bill < |v.bills| && s < |v.stones|
            && v.stones[s] == if v.bills[bill].status == BillStatus.Paid
                              then Moved(w.stones[s], StoneStatus.Paid) else w.stones[s]
    decreases |txns|
  {
    if txns == [] {
      assert Pays(txns) == [];
    } else {
      var front, last := txns[..|txns| - 1], txns[|txns| - 1];
      assert txns == front + [last];
      StonesFollowTheBill(w, front, bill, s);
      PaymentsSettle(w, front);
      PayAppend(w, txns);
      StoneNext(w, front, last, Run(w, Pays(front)), bill, s);
    }
  }

  // ---- The gateway's promise ----

  /** Every recorded row whose id a message carries has that message's bill and amount. */
  predicate Faithful(w: World, sent: seq<Txn>, u: World) {
    SameTerms(w, u) &&
    forall k, i :: 0 <= k < |u.payments| && 0 <= i < |sent| && u.payments[k].trx == sent[i].trx ==>
                     Resolve(w, sent[i]) == Some(u.payments[k].bill) && u.payments[k].amount == sent[i].amount
  }

  /** Messages that carry the same transaction id are the same. */
  predicate SameContents(sent: seq<Txn>) {
    forall i, j :: 0 <= i < |sent| && 0 <= j < |sent| && sent[i].trx == sent[j].trx ==> sent[i] == sent[j]
  }

  lemma DeliverKeepsFaith(w: World, sent: seq<Txn>, u: World, i: nat)
    requires Faithful(w, sent, u) && i < |sent|
    requires SameContents(sent)
    ensures Faithful(w, sent, Deliver(u, sent[i]))
    ensures Recorded(u, sent[i].trx) ==> Inert(u, sent[i])
  {
    ResolveStable(w, u, sent[i]);
    DeliverKeepsTerms(u, sent[i]);
    if Recorded(u, sent[i].trx) {
      RedeliveryInertIff(u, sent[i]);
    } else if Resolve(u, sent[i]).Some? {
      FirstDelivery(u, sent[i], Resolve(u, sent[i]).value);
    }
  }

  lemma PaysRest(sent: seq<Txn>, n: nat)
    requires n < |sent|
    ensures Pays(sent[n..]) != [] && Pays(sent[n..])[0] == Pay(sent[n]) && Pays(sent[n..])[1..] == Pays(sent[n + 1..])
  {
  }

  lemma ConsistentNext(u: World, run: seq<Event>, txn: Txn, rest: seq<Event>)
    requires run != [] && run[0] == Pay(txn) && run[1..] == rest
    requires (Recorded(u, txn.trx) ==> Inert(u, txn)) && Consistent(Deliver(u, txn), rest)
    ensures Consistent(u, run)
  {
  }

  lemma FaithfulNext(w: World, sent: seq<Txn>, u: World, n: nat)
    requires Faithful(w, sent, u) && n < |sent| && SameContents(sent)
    requires Consistent(Deliver(u, sent[n]), Pays(sent[n + 1..]))
    ensures Consistent(u, Pays(sent[n..]))
  {
    PaysRest(sent, n);
    DeliverKeepsFaith(w, sent, u, n);
    ConsistentNext(u, Pays(sent[n..]), sent[n], Pays(sent[n + 1..]));
  }

  lemma {:induction false} FaithfulRunsAreConsistent(w: World, sent: seq<Txn>, u: World, n: nat)
    requires Faithful(w, sent, u) && n <= |sent|
    requires SameContents(sent)
    ensures Consistent(u, Pays(sent[n..]))
    decreases |sent| - n
  {
    if n < |sent| {
      DeliverKeepsFaith(w, sent, u, n);
      FaithfulRunsAreConsistent(w, sent, Deliver(u, sent[n]), n + 1);
      FaithfulNext(w, sent, u, n);
    }
  }

  /** If the gateway repeats a transaction id only with the same contents, any sequence of
      its deliveries has the effect of each transaction once, in order of first arrival. */
  lemma RepeatsWithSameContents(w: World, sent: seq<Txn>)
    requires SameContents(sent)
    requires forall i, k :: 0 <= i < |sent| && 0 <= k < |w.payments| ==> w.payments[k].trx != sent[i].trx
    ensures Run(w, FirstArrivals(w, Pays(sent))) == Run(w, Pays(sent))
  {
    assert sent[0..] == sent;
    FaithfulRunsAreConsistent(w, sent, w, 0);
    SkippingIsHarmless(w, Pays(sent));
  }

  // ---- What repeats and late messages can do ----

  /** Settlement runs again for every new transaction: an overpayment of a paid bill takes
      every live stone of the order, certified ones included, back to paid. */
  lemma OverpaymentReopens(w: World, txn: Txn, s: nat)
    requires !Recorded(w, txn.trx) && txn.amount >= 0
    requires Resolve(w, txn).Some? && s < |w.stones|
    requires var bill := Resolve(w, txn).value;
             PaidTo(w.payments, bill) >= w.bills[bill].total && LiveIn(w.stones[s], w.bills[bill].order)
    ensures Deliver(w, txn).stones[s].status == StoneStatus.Paid
  {
    var bill := Resolve(w, txn).value;
    FirstDelivery(w, txn, bill);
    PaidToAppend(w.payments, Payment(txn.trx, bill, txn.amount), bill);
  }

  /** Exactly when a delivery moves a stone, from whatever status it has: a new transaction that
      reaches or exceeds the total of the bill of the stone's order. */
  lemma DeliveryMovesStoneIff(w: World, txn: Txn, s: nat)
    requires s < |w.stones|
    ensures |Deliver(w, txn).stones| == |w.stones|
    ensures Deliver(w, txn).stones[s].status != w.stones[s].status <==>
              && !Recorded(w, txn.trx) && Resolve(w, txn).Some?
              && var bill := Resolve(w, txn).value;
                 && LiveIn(w.stones[s], w.bills[bill].order) && w.stones[s].status != StoneStatus.Paid
                 && PaidTo(w.payments, bill) + txn.amount >= w.bills[bill].total
  {
    if Recorded(w, txn.trx) {
      RedeliveryInertIff(w, txn);
    } else if Resolve(w, txn).Some? {
      var bill := Resolve(w, txn).value;
      FirstDelivery(w, txn, bill);
      PaidToAppend(w.payments, Payment(txn.trx, bill, txn.amount), bill);
    }
  }

  /** A late cancellation overwrites a paid bill, and a later payment overwrites that. */
  lemma LateMessagesOverwrite(w: World, bill: nat, txn: Txn)
    requires bill < |w.bills| && w.bills[bill].status == BillStatus.Paid
    requires !Recorded(w, txn.trx) && Resolve(w, txn) == Some(bill)
    ensures var v := Step(w, CancelConfirmed(bill));
            && v.bills[bill].status == BillStatus.Cancelled
            && Step(v, Pay(txn)).bills[bill].status != BillStatus.Cancelled
  {
    ResolveStable(w, Step(w, CancelConfirmed(bill)), txn);
  }

  lemma {:induction false} PaidToReplaced(payments: seq<Payment>, k: nat, row: Payment, bill: nat)
    requires k < |payments| && payments[k].bill == bill && row.bill == bill
    ensures PaidTo(payments[k := row], bill) == PaidTo(payments, bill) - payments[k].amount + row.amount
  {
    var front, last := payments[..|payments| - 1], |payments| - 1;
    if k < last {
      PaidToReplaced(front, k, row, bill);
      assert payments[k := row][..last] == front[k := row];
    } else {
      assert payments[k := row][..last] == front;
    }
  }

  /** Why the assumption is needed: a redelivery with another amount moves what has been paid
      by the difference, while the bill and the stones stay as they were settled before. */
  lemma ChangedAmount(w: World, txn: Txn)
    requires Recorded(w, txn.trx) && Resolve(w, txn).Some?
    requires w.payments[PaymentOf(w.payments, txn.trx).value].bill == Resolve(w, txn).value
    ensures var bill, known := Resolve(w, txn).value, w.payments[PaymentOf(w.payments, txn.trx).value];
            && PaidTo(Deliver(w, txn).payments, bill) == PaidTo(w.payments, bill) + txn.amount - known.amount
            && Deliver(w, txn).bills == w.bills && Deliver(w, txn).stones == w.stones
  {
    var k, bill := PaymentOf(w.payments, txn.trx).value, Resolve(w, txn).value;
    PaidToReplaced(w.payments, k, Payment(txn.trx, bill, txn.amount), bill);
  }
}
