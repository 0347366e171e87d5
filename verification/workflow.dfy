/** What every run of the laboratory's workflow keeps: ledgers that replay, one bill per
    order with lines that add up, and money behind every certificate. */
module Workflow {
  import opened Common
  import opened Gems
  import opened Records
  import Settlement

  /** A stone's history starts from nowhere at received, each entry leaves the status the
      previous one reached for a different one, and the last is the stone's status. */
  predicate Ledger(st: Stone) {
    var h := st.history;
    && h != [] && h[0] == Entry(None, StoneStatus.Received)
    && (forall i, j :: 0 <= i && j == i + 1 < |h| ==> h[j].from == Some(h[i].to) && h[j].to != h[i].to)
    && h[|h| - 1].to == st.status
  }

  /** A known type belongs to the stone's pricing category. */
  predicate KindFits(w: World, st: Stone) {
    st.kind.Some? ==> st.kind.value in w.kinds && w.kinds[st.kind.value] == st.category
  }

  predicate SoundBill(w: World, i: nat)
    requires i < |w.bills|
  {
    var b := w.bills[i];
    && b.order < |w.orders| && b.total == Sum(b.items)
    && (b.status == BillStatus.Paid ==> PaidTo(w.payments, i) >= b.total)
  }

  /** The certificate's order has a bill whose lines add up to its total and whose recorded
      payments reach it. */
  predicate Backed(w: World, c: Certificate) {
    c.stone < |w.stones| &&
    exists i :: 0 <= i < |w.bills| && w.bills[i].order == w.stones[c.stone].order &&
                w.bills[i].total == Sum(w.bills[i].items) && PaidTo(w.payments, i) >= w.bills[i].total
  }

  ghost predicate Sound(w: World) {
    && (forall i {:trigger Ledger(w.stones[i])} :: 0 <= i < |w.stones| ==> Ledger(w.stones[i]))
    && (forall i {:trigger KindFits(w, w.stones[i])} :: 0 <= i < |w.stones| ==> KindFits(w, w.stones[i]))
    && (forall i {:trigger SoundBill(w, i)} :: 0 <= i < |w.bills| ==> SoundBill(w, i))
    && (forall i, j :: 0 <= i < j < |w.bills| ==> w.bills[i].order != w.bills[j].order)
    && (forall i :: 0 <= i < |w.payments| ==> w.payments[i].bill < |w.bills|)
    && (forall i, j :: 0 <= i < j < |w.payments| ==> w.payments[i].trx != w.payments[j].trx)
    && (forall i {:trigger Backed(w, w.certificates[i])} :: 0 <= i < |w.certificates| ==> Backed(w, w.certificates[i]))
    && (forall i, j :: 0 <= i < j < |w.certificates| ==> w.certificates[i].stone != w.certificates[j].stone)
  }

  /** The assumptions on deliveries: amounts are not negative and redeliveries are inert. */
  predicate Honest(w: World, e: Event) {
    e.Pay? ==> e.txn.amount >= 0 && (Settlement.Recorded(w, e.txn.trx) ==> Settlement.Inert(w, e.txn))
  }

  predicate AlwaysHonest(w: World, run: seq<Event>)
    decreases |run|
  {
    run == [] || (Honest(w, run[0]) && AlwaysHonest(Step(w, run[0]), run[1..]))
  }

  /** Nothing already on record is rewritten: rows stay, issued lines keep their prices,
      ledgers only grow, payments keep their money. */
  ghost predicate Extends(w: World, v: World) {
    && |w.orders| <= |v.orders| && |w.stones| <= |v.stones| && |w.bills| <= |v.bills|
    && w.payments <= v.payments && |w.certificates| <= |v.certificates| && w.kinds == v.kinds
    && (forall i :: 0 <= i < |w.certificates| ==>
                      v.certificates[i].stone == w.certificates[i].stone && v.certificates[i].number == w.certificates[i].number)
    && (forall i :: 0 <= i < |w.orders| ==> v.orders[i].reference == w.orders[i].reference)
    && (forall i :: 0 <= i < |w.stones| ==> v.stones[i].order == w.stones[i].order && w.stones[i].history <= v.stones[i].history)
    && (forall i :: 0 <= i < |w.bills| ==>
                      && v.bills[i].order == w.bills[i].order && v.bills[i].number == w.bills[i].number
                      && v.bills[i].items == w.bills[i].items && v.bills[i].total == w.bills[i].total)
  }

  lemma MovedKeepsLedger(st: Stone, to: StoneStatus)
    requires Ledger(st)
    ensures Ledger(Moved(st, to)) && st.history <= Moved(st, to).history
  {
  }

  /** Steps that leave bills' terms, payments, certificates and reference types alone need
      only keep the stones' ledgers and types. */
  lemma StonesChange(w: World, v: World)
    requires Sound(w) && v.bills == w.bills && v.payments == w.payments && v.certificates == w.certificates
    requires v.kinds == w.kinds && |w.orders| <= |v.orders| && |w.stones| <= |v.stones|
    requires forall i :: 0 <= i < |w.orders| ==> v.orders[i].reference == w.orders[i].reference
    requires forall i :: 0 <= i < |v.stones| ==> Ledger(v.stones[i]) && KindFits(v, v.stones[i])
    requires forall i :: 0 <= i < |w.stones| ==> v.stones[i].order == w.stones[i].order && w.stones[i].history <= v.stones[i].history
    ensures Sound(v) && Extends(w, v)
  {
    forall i | 0 <= i < |v.bills| ensures SoundBill(v, i) {
      assert SoundBill(w, i);
    }
    forall i | 0 <= i < |v.certificates| ensures Backed(v, v.certificates[i]) {
      assert Backed(w, w.certificates[i]);
    }
  }

  lemma OneStoneChanges(w: World, s: nat, st: Stone)
    requires Sound(w) && s < |w.stones| && Ledger(st) && KindFits(w, st)
    requires st.order == w.stones[s].order && w.stones[s].history <= st.history
    ensures var v := w.(stones := w.stones[s := st]); Sound(v) && Extends(w, v)
  {
    var v := w.(stones := w.stones[s := st]);
    forall i | 0 <= i < |v.stones| ensures Ledger(v.stones[i]) && KindFits(v, v.stones[i]) {
      assert Ledger(w.stones[i]) && KindFits(w, w.stones[i]);
    }
    StonesChange(w, v);
  }

  /** A stone changed within its order, keeping its ledger and a type that fits. */
  predicate Reworked(w: World, s: nat, st: Stone)
    requires s < |w.stones|
  {
    Ledger(st) && KindFits(w, st) && st.order == w.stones[s].order && w.stones[s].history <= st.history
  }

  lemma IntakeKeeps(w: World, order: nat, category: Option<nat>, kind: Option<nat>)
    requires Sound(w) && MayAddStone(w, order, category, kind)
    ensures Sound(AddStone(w, order, category, kind)) && Extends(w, AddStone(w, order, category, kind))
  {
    var v := AddStone(w, order, category, kind);
    forall i | 0 <= i < |v.stones| ensures Ledger(v.stones[i]) && KindFits(v, v.stones[i]) {
      if i < |w.stones| {
        assert Ledger(w.stones[i]) && KindFits(w, w.stones[i]);
      }
    }
    StonesChange(w, v);
  }

  lemma EditReworks(w: World, s: nat, edit: Edit, may: bool)
    requires Sound(w) && s < |w.stones| && Edited(w, w.stones[s], edit, may).Some?
    ensures Reworked(w, s, Edited(w, w.stones[s], edit, may).value)
  {
    assert Ledger(w.stones[s]) && KindFits(w, w.stones[s]);
  }

  lemma TransitionReworks(w: World, s: nat, to: StoneStatus)
    requires Sound(w) && s < |w.stones|
    ensures Reworked(w, s, Moved(w.stones[s], to))
  {
    assert Ledger(w.stones[s]) && KindFits(w, w.stones[s]);
    MovedKeepsLedger(w.stones[s], to);
  }

  lemma MarkReworks(w: World, s: nat, deleted: bool, report: Report)
    requires Sound(w) && s < |w.stones|
    ensures Reworked(w, s, w.stones[s].(deleted := deleted, report := report))
  {
    assert Ledger(w.stones[s]) && KindFits(w, w.stones[s]);
  }

  lemma ReworkKeeps(w: World, s: nat, st: Stone)
    requires Sound(w) && s < |w.stones| && Reworked(w, s, st)
    ensures var v := w.(stones := w.stones[s := st]); Sound(v) && Extends(w, v)
  {
    OneStoneChanges(w, s, st);
  }

  lemma StoneEvents(w: World, e: Event)
    requires Sound(w)
    requires e.Intake? || e.EditStone? || e.DeleteStone? || e.RestoreStone? || e.Transition? || e.WriteReport?
    ensures Sound(Step(w, e)) && Extends(w, Step(w, e))
  {
    if Step(w, e) == w {
      StonesUnchanged(w);
    } else if e.Intake? {
      IntakeKeeps(w, e.order, e.category, e.kind);
    } else {
      OneStoneEvents(w, e);
    }
  }

  lemma OneStoneEvents(w: World, e: Event)
    requires Sound(w) && Step(w, e) != w
    requires e.EditStone? || e.DeleteStone? || e.RestoreStone? || e.Transition? || e.WriteReport?
    ensures Sound(Step(w, e)) && Extends(w, Step(w, e))
  {
    var st := w.stones[e.stone];
    match e
    case EditStone(s, edit, may) =>
      EditReworks(w, s, edit, may);
      ReworkKeeps(w, s, Edited(w, st, edit, may).value);
    case Transition(s, to) =>
      TransitionReworks(w, s, to);
      ReworkKeeps(w, s, Moved(st, to));
    case DeleteStone(s) =>
      MarkReworks(w, s, true, st.report);
      ReworkKeeps(w, s, st.(deleted := true));
    case RestoreStone(s) =>
      MarkReworks(w, s, false, st.report);
      ReworkKeeps(w, s, st.(deleted := false));
    case WriteReport(s, report) =>
      MarkReworks(w, s, st.deleted, report);
      ReworkKeeps(w, s, st.(report := report));
  }

  lemma StonesUnchanged(w: World)
    requires Sound(w)
    ensures Extends(w, w)
  {
  }

  lemma MoveOrderKeeps(w: World, order: nat, to: StoneStatus)
    requires Sound(w)
    ensures var stones := MoveOrder(w.stones, order, to);
            forall i :: 0 <= i < |stones| ==>
                          && Ledger(stones[i]) && KindFits(w, stones[i]) && stones[i].order == w.stones[i].order
                          && w.stones[i].history <= stones[i].history
  {
    var stones := MoveOrder(w.stones, order, to);
    forall i | 0 <= i < |stones|
      ensures Ledger(stones[i]) && KindFits(w, stones[i]) && stones[i].order == w.stones[i].order && w.stones[i].history <= stones[i].history
    {
      assert Ledger(w.stones[i]) && KindFits(w, w.stones[i]);
      MovedKeepsLedger(w.stones[i], to);
    }
  }

  lemma AppendBillKeeps(w: World, b: Bill)
    requires Sound(w) && b.order < |w.orders| && b.total == Sum(b.items) && b.status != BillStatus.Paid
    requires forall i :: 0 <= i < |w.bills| ==> w.bills[i].order != b.order
    ensures var v := w.(bills := w.bills + [b]); Sound(v) && Extends(w, v)
  {
    var v := w.(bills := w.bills + [b]);
    forall i | 0 <= i < |v.bills| ensures SoundBill(v, i) {
      if i < |w.bills| {
        assert SoundBill(w, i);
      }
    }
    forall i | 0 <= i < |v.certificates| ensures Backed(v, v.certificates[i]) {
      assert Backed(w, w.certificates[i]);
      var k :| 0 <= k < |w.bills| && w.bills[k].order == w.stones[w.certificates[i].stone].order &&
               w.bills[k].total == Sum(w.bills[k].items) && PaidTo(w.payments, k) >= w.bills[k].total;
      assert v.bills[k] == w.bills[k];
    }
    forall i | 0 <= i < |v.stones| ensures Ledger(v.stones[i]) && KindFits(v, v.stones[i]) {
      assert Ledger(w.stones[i]) && KindFits(w, w.stones[i]);
    }
  }

  lemma MovingKeeps(w: World, order: nat, to: StoneStatus)
    requires Sound(w)
    ensures var v := w.(stones := MoveOrder(w.stones, order, to)); Sound(v) && Extends(w, v)
  {
    var v := w.(stones := MoveOrder(w.stones, order, to));
    MoveOrderKeeps(w, order, to);
    forall i | 0 <= i < |v.stones| ensures KindFits(v, v.stones[i]) {
      assert KindFits(w, v.stones[i]);
    }
    StonesChange(w, v);
  }

  lemma BillingKeeps(w: World, order: nat)
    requires Sound(w) && MayBill(w, order)
    ensures Sound(CreateBill(w, order)) && Extends(w, CreateBill(w, order))
  {
    var v := CreateBill(w, order);
    var u := w.(stones := v.stones);
    MovingKeeps(w, order, StoneStatus.Billed);
    NewestMeaning(w.bills, |w.bills|, (b: Bill) => b.order == order);
    AppendBillKeeps(u, v.bills[|w.bills|]);
    ExtendsTransitive(w, u, v);
  }

  /** Rewriting a bill's gateway fields or status keeps what is sound, if it is not newly
      called paid. */
  lemma BillRewriteKeeps(w: World, i: nat, b: Bill)
    requires Sound(w) && i < |w.bills|
    requires b.order == w.bills[i].order && b.number == w.bills[i].number && b.total == w.bills[i].total
    requires b.items == w.bills[i].items
    requires b.status == BillStatus.Paid ==> PaidTo(w.payments, i) >= b.total
    ensures Sound(WithBill(w, i, b)) && Extends(w, WithBill(w, i, b))
  {
    var v := WithBill(w, i, b);
    forall k | 0 <= k < |v.bills| ensures SoundBill(v, k) {
      assert SoundBill(w, k);
    }
    forall k | 0 <= k < |v.certificates| ensures Backed(v, v.certificates[k]) {
      assert Backed(w, w.certificates[k]);
      var j :| 0 <= j < |w.bills| && w.bills[j].order == w.stones[w.certificates[k].stone].order &&
               w.bills[j].total == Sum(w.bills[j].items) && PaidTo(w.payments, j) >= w.bills[j].total;
      assert v.bills[j].order == w.bills[j].order && v.bills[j].total == Sum(v.bills[j].items);
    }
    forall k | 0 <= k < |v.stones| ensures Ledger(v.stones[k]) && KindFits(v, v.stones[k]) {
      assert Ledger(w.stones[k]) && KindFits(w, w.stones[k]);
    }
  }

  /** Recording one more payment. */
  lemma RecordKeeps(w: World, row: Payment)
    requires Sound(w) && row.bill < |w.bills| && row.amount >= 0
    requires forall k :: 0 <= k < |w.payments| ==> w.payments[k].trx != row.trx
    ensures var v := w.(payments := w.payments + [row]); Sound(v) && Extends(w, v)
  {
    var v := w.(payments := w.payments + [row]);
    forall k | 0 <= k < |v.bills| ensures SoundBill(v, k) && PaidTo(v.payments, k) >= PaidTo(w.payments, k) {
      assert SoundBill(w, k);
      Settlement.PaidToAppend(w.payments, row, k);
    }
    forall k | 0 <= k < |v.certificates| ensures Backed(v, v.certificates[k]) {
      assert Backed(w, w.certificates[k]);
      var j :| 0 <= j < |w.bills| && w.bills[j].order == w.stones[w.certificates[k].stone].order &&
               w.bills[j].total == Sum(w.bills[j].items) && PaidTo(w.payments, j) >= w.bills[j].total;
      assert PaidTo(v.payments, j) >= v.bills[j].total;
    }
    forall k | 0 <= k < |v.stones| ensures Ledger(v.stones[k]) && KindFits(v, v.stones[k]) {
      assert Ledger(w.stones[k]) && KindFits(w, w.stones[k]);
    }
  }

  lemma PaymentKeeps(w: World, txn: Txn)
    requires Sound(w) && Honest(w, Pay(txn))
    ensures Sound(Deliver(w, txn)) && Extends(w, Deliver(w, txn))
  {
    if Settlement.Recorded(w, txn.trx) {
      Settlement.RedeliveryInertIff(w, txn);
      StonesUnchanged(w);
    } else if Resolve(w, txn).None? {
      StonesUnchanged(w);
    } else {
      var bill := Resolve(w, txn).value;
      var row := Payment(txn.trx, bill, txn.amount);
      PaymentOfMeaning(w.payments, txn.trx);
      RecordKeeps(w, row);
      var u := w.(payments := w.payments + [row]);
      var b := u.bills[bill];
      if PaidTo(u.payments, bill) >= b.total {
        var t := WithBill(u, bill, b.(status := BillStatus.Paid));
        BillRewriteKeeps(u, bill, b.(status := BillStatus.Paid));
        MovingKeeps(t, b.order, StoneStatus.Paid);
        var v := t.(stones := MoveOrder(t.stones, b.order, StoneStatus.Paid));
        ExtendsTransitive(w, u, t);
        ExtendsTransitive(w, t, v);
        assert v == Deliver(w, txn);
      } else {
        BillRewriteKeeps(u, bill, b.(status := PartiallyPaid));
        ExtendsTransitive(w, u, WithBill(u, bill, b.(status := PartiallyPaid)));
      }
    }
  }

  lemma ExtendsTransitive(w: World, u: World, v: World)
    requires Extends(w, u) && Extends(u, v)
    ensures Extends(w, v)
  {
  }

  /** A certificate for a stone whose bill is paid, and which had none. */
  lemma CertificateKeeps(u: World, c: Certificate, bill: nat)
    requires Sound(u) && c.stone < |u.stones| && !HasCertificate(u, c.stone)
    requires bill < |u.bills| && u.bills[bill].order == u.stones[c.stone].order
    requires u.bills[bill].status == BillStatus.Paid
    ensures var v := u.(certificates := u.certificates + [c]); Sound(v) && Extends(u, v)
  {
    var v := u.(certificates := u.certificates + [c]);
    assert SoundBill(u, bill);
    forall k | 0 <= k < |v.bills| ensures SoundBill(v, k) {
      assert SoundBill(u, k);
    }
    forall k | 0 <= k < |v.certificates| ensures Backed(v, v.certificates[k]) {
      if k < |u.certificates| {
        assert Backed(u, u.certificates[k]);
      } else {
        assert v.bills[bill].order == v.stones[c.stone].order;
      }
    }
    forall k | 0 <= k < |v.stones| ensures Ledger(v.stones[k]) && KindFits(v, v.stones[k]) {
      assert Ledger(u.stones[k]) && KindFits(u, u.stones[k]);
    }
  }

  lemma CertifyKeeps(w: World, s: nat)
    requires Sound(w) && MayCertify(w, s)
    ensures Sound(Issue(w, s)) && Extends(w, Issue(w, s))
  {
    var st := w.stones[s];
    assert Ledger(st) && KindFits(w, st);
    MovedKeepsLedger(st, StoneStatus.Certified);
    OneStoneChanges(w, s, Moved(st, StoneStatus.Certified));
    var u := w.(stones := w.stones[s := Moved(st, StoneStatus.Certified)]);
    CertificateKeeps(u, Certificate(s, CertificateNumber(w, s).value, false), BillFor(w, st.order).value);
    ExtendsTransitive(w, u, Issue(w, s));
  }

  /** What the gateway's answers make of a bill: new gateway fields, or cancelled. */
  predicate Answered(a: Bill, b: Bill) {
    && b.order == a.order && b.number == a.number && b.total == a.total && b.items == a.items
    && (b.status == a.status || b.status == BillStatus.Cancelled)
  }

  lemma GatewayAnswers(w: World, e: Event) returns (i: nat)
    requires e.Submitted? || e.BillResponse? || e.CancelConfirmed? || e.CancelCallback?
    requires Step(w, e) != w
    ensures i < |w.bills| && |Step(w, e).bills| == |w.bills|
    ensures Step(w, e) == WithBill(w, i, Step(w, e).bills[i]) && Answered(w.bills[i], Step(w, e).bills[i])
    ensures var control := Step(w, e).bills[i].controlNumber;
            control == w.bills[i].controlNumber || ControlFree(w, i, control)
  {
    i := if e.BillResponse? || e.CancelCallback? then Newest(w.bills, |w.bills|, (b: Bill) => b.number == e.number).value
         else e.bill;
  }

  lemma GatewayEvents(w: World, e: Event)
    requires Sound(w)
    requires e.Submitted? || e.BillResponse? || e.CancelConfirmed? || e.CancelCallback?
    ensures Sound(Step(w, e)) && Extends(w, Step(w, e))
  {
    var v := Step(w, e);
    if v == w {
      StonesUnchanged(w);
    } else {
      var i := GatewayAnswers(w, e);
      assert SoundBill(w, i);
      BillRewriteKeeps(w, i, v.bills[i]);
    }
  }

  /** Putting a certificate in the bin, or taking it out, keeps whose it is. */
  lemma CertificateEvents(w: World, e: Event)
    requires Sound(w) && (e.DeleteCertificate? || e.RestoreCertificate?)
    ensures Sound(Step(w, e)) && Extends(w, Step(w, e))
  {
    var v := Step(w, e);
    if v == w {
      StonesUnchanged(w);
    } else {
      assert v == WithCertificate(w, e.certificate, v.certificates[e.certificate]);
      CertificateRewriteKeeps(w, e.certificate, v.certificates[e.certificate]);
    }
  }

  lemma CertificateRewriteKeeps(w: World, i: nat, c: Certificate)
    requires Sound(w) && i < |w.certificates|
    requires c.stone == w.certificates[i].stone && c.number == w.certificates[i].number
    ensures Sound(WithCertificate(w, i, c)) && Extends(w, WithCertificate(w, i, c))
  {
    var v := WithCertificate(w, i, c);
    forall k | 0 <= k < |v.bills| ensures SoundBill(v, k) {
      assert SoundBill(w, k);
    }
    forall k | 0 <= k < |v.certificates| ensures Backed(v, v.certificates[k]) {
      assert Backed(w, w.certificates[k]);
    }
    forall k | 0 <= k < |v.stones| ensures Ledger(v.stones[k]) && KindFits(v, v.stones[k]) {
      assert Ledger(w.stones[k]) && KindFits(w, w.stones[k]);
    }
  }

  lemma OrderEvents(w: World, e: Event)
    requires Sound(w)
    requires e.NewOrder? || e.HoldOrder? || e.Reprice?
    ensures Sound(Step(w, e)) && Extends(w, Step(w, e))
  {
    var v := Step(w, e);
    forall i | 0 <= i < |v.stones| ensures Ledger(v.stones[i]) && KindFits(v, v.stones[i]) {
      assert Ledger(w.stones[i]) && KindFits(w, w.stones[i]);
    }
    StonesChange(w, v);
  }

  lemma BillingEvents(w: World, e: Event)
    requires Sound(w)
    requires e.Generate? || e.AutoBill? || e.Retry?
    ensures Sound(Step(w, e)) && Extends(w, Step(w, e))
  {
    StonesUnchanged(w);
    BillsOrNothing(w, e);
    if MayBill(w, e.order) {
      BillingKeeps(w, e.order);
    }
  }

  lemma BillsOrNothing(w: World, e: Event)
    requires e.Generate? || e.AutoBill? || e.Retry?
    ensures Step(w, e) == w || (MayBill(w, e.order) && Step(w, e) == CreateBill(w, e.order))
  {
  }

  lemma CertifyEvent(w: World, s: nat)
    requires Sound(w)
    ensures Sound(Step(w, Certify(s))) && Extends(w, Step(w, Certify(s)))
  {
    if MayCertify(w, s) {
      CertifyKeeps(w, s);
    } else {
      StonesUnchanged(w);
    }
  }

  lemma StepKeeps(w: World, e: Event)
    requires Sound(w) && Honest(w, e)
    ensures Sound(Step(w, e)) && Extends(w, Step(w, e))
  {
    match e
    case Intake(_, _, _) => StoneEvents(w, e);
    case EditStone(_, _, _) => StoneEvents(w, e);
    case DeleteStone(_) => StoneEvents(w, e);
    case RestoreStone(_) => StoneEvents(w, e);
    case Transition(_, _) => StoneEvents(w, e);
    case WriteReport(_, _) => StoneEvents(w, e);
    case NewOrder(_, _) => OrderEvents(w, e);
    case HoldOrder(_, _) => OrderEvents(w, e);
    case Reprice(_, _) => OrderEvents(w, e);
    case Submitted(_, _, _, _) => GatewayEvents(w, e);
    case BillResponse(_, _, _) => GatewayEvents(w, e);
    case CancelConfirmed(_) => GatewayEvents(w, e);
    case CancelCallback(_, _) => GatewayEvents(w, e);
    case DeleteCertificate(_) => CertificateEvents(w, e);
    case RestoreCertificate(_) => CertificateEvents(w, e);
    case Pay(txn) => PaymentKeeps(w, txn);
    case Certify(s) => CertifyEvent(w, s);
    case _ => BillingEvents(w, e);
  }

  /** Every run from a sound state stays sound and rewrites nothing. */
  lemma {:induction false} RunKeeps(w: World, run: seq<Event>)
    requires Sound(w) && AlwaysHonest(w, run)
    ensures Sound(Run(w, run)) && Extends(w, Run(w, run))
    decreases |run|
  {
    StonesUnchanged(w);
    if run != [] {
      StepKeeps(w, run[0]);
      RunKeeps(Step(w, run[0]), run[1..]);
      ExtendsTransitive(w, Step(w, run[0]), Run(w, run));
    }
  }

  /** A laboratory with orders and reference tables, before any stone is taken in. */
  predicate Opening(w: World) {
    w.stones == [] && w.bills == [] && w.payments == [] && w.certificates == []
  }

  /** Every stone's status can be replayed from its history, in every reachable state. */
  lemma LedgersReplay(w: World, run: seq<Event>, s: nat)
    requires Opening(w) && AlwaysHonest(w, run) && s < |Run(w, run).stones|
    ensures Ledger(Run(w, run).stones[s]) && KindFits(Run(w, run), Run(w, run).stones[s])
  {
    RunKeeps(w, run);
  }

  /** Every certificate is backed by money, in every reachable state, even if the bill is
      later cancelled or its total is paid again. */
  lemma CertificatesAreBacked(w: World, run: seq<Event>, c: nat)
    requires Opening(w) && AlwaysHonest(w, run) && c < |Run(w, run).certificates|
    ensures Backed(Run(w, run), Run(w, run).certificates[c])
    ensures forall d :: 0 <= d < |Run(w, run).certificates| && d != c ==>
                          Run(w, run).certificates[d].stone != Run(w, run).certificates[c].stone
  {
    RunKeeps(w, run);
  }

  // ---- When a bill is paid, and when it stops being so ----

  /** The step confirms the cancellation of the bill, in answer to a request or by a callback. */
  predicate Cancels(w: World, e: Event, i: nat) {
    || e == CancelConfirmed(i)
    || (e.CancelCallback? && e.code == "7283" &&
        Newest(w.bills, |w.bills|, (b: Bill) => b.number == e.number) == Some(i))
  }

  /** The step records a new transaction towards the bill. */
  predicate PaysTowards(w: World, e: Event, i: nat) {
    e.Pay? && !Settlement.Recorded(w, e.txn.trx) && Resolve(w, e.txn) == Some(i)
  }

  /** A bill towards which the recorded payments reach its total. */
  predicate Funded(w: World, i: nat)
    requires i < |w.bills|
  {
    PaidTo(w.payments, i) >= w.bills[i].total
  }

  lemma DeliveryStatus(w: World, txn: Txn, i: nat)
    requires i < |w.bills| && Funded(w, i) && txn.amount >= 0
    ensures i < |Deliver(w, txn).bills|
    ensures Deliver(w, txn).bills[i].status ==
            if PaysTowards(w, Pay(txn), i) then BillStatus.Paid else w.bills[i].status
  {
    if Settlement.Recorded(w, txn.trx) {
      Settlement.RedeliveryInertIff(w, txn);
    } else if Resolve(w, txn) == Some(i) {
      Settlement.PaidStaysPaid(w, txn, i);
    } else if Resolve(w, txn).Some? {
      Settlement.FirstDelivery(w, txn, Resolve(w, txn).value);
    }
  }

  lemma GatewayStatus(w: World, e: Event, i: nat)
    requires i < |w.bills| && (e.Submitted? || e.BillResponse? || e.CancelConfirmed? || e.CancelCallback?)
    ensures i < |Step(w, e).bills|
    ensures Step(w, e).bills[i].status == if Cancels(w, e, i) then BillStatus.Cancelled else w.bills[i].status
  {
  }

  lemma OtherStatus(w: World, e: Event, i: nat)
    requires i < |w.bills| && !e.Pay?
    requires !e.Submitted? && !e.BillResponse? && !e.CancelConfirmed? && !e.CancelCallback?
    ensures i < |Step(w, e).bills| && Step(w, e).bills[i].status == w.bills[i].status
  {
    if e.Generate? || e.AutoBill? || e.Retry? {
      BillsOrNothing(w, e);
    }
  }

  /** What one step makes of the status of a funded bill: cancelled by a cancellation, paid by
      any further payment, and otherwise as it was. */
  lemma FundedStatus(w: World, e: Event, i: nat)
    requires Honest(w, e) && i < |w.bills| && Funded(w, i)
    ensures i < |Step(w, e).bills|
    ensures Step(w, e).bills[i].status ==
            if Cancels(w, e, i) then BillStatus.Cancelled
            else if PaysTowards(w, e, i) then BillStatus.Paid else w.bills[i].status
  {
    if e.Pay? {
      DeliveryStatus(w, e.txn, i);
    } else if e.Submitted? || e.BillResponse? || e.CancelConfirmed? || e.CancelCallback? {
      GatewayStatus(w, e, i);
    } else {
      OtherStatus(w, e, i);
    }
  }

  /** A paid bill is left by exactly the steps that confirm its cancellation. */
  lemma PaidLeftIff(w: World, e: Event, i: nat)
    requires Sound(w) && Honest(w, e) && i < |w.bills| && w.bills[i].status == BillStatus.Paid
    ensures i < |Step(w, e).bills|
    ensures Step(w, e).bills[i].status == BillStatus.Paid <==> !Cancels(w, e, i)
  {
    assert SoundBill(w, i);
    FundedStatus(w, e, i);
  }

  predicate NeverCancels(w: World, run: seq<Event>, i: nat)
    decreases |run|
  {
    run == [] || (!Cancels(w, run[0], i) && NeverCancels(Step(w, run[0]), run[1..], i))
  }

  /** Over any run that never confirms its cancellation a paid bill stays paid, whatever else
      is billed, paid, redelivered, certified or answered meanwhile. */
  lemma {:induction false} PaidIsNeverLeft(w: World, run: seq<Event>, i: nat)
    requires Sound(w) && AlwaysHonest(w, run) && i < |w.bills| && w.bills[i].status == BillStatus.Paid
    requires NeverCancels(w, run, i)
    ensures i < |Run(w, run).bills| && Run(w, run).bills[i].status == BillStatus.Paid
    decreases |run|
  {
    if run != [] {
      PaidLeftIff(w, run[0], i);
      StepKeeps(w, run[0]);
      PaidIsNeverLeft(Step(w, run[0]), run[1..], i);
    }
  }

  /** Whether the last word on the bill is a payment: none of its cancellations comes without a
      new payment towards it later. */
  predicate EndsPaid(w: World, run: seq<Event>, i: nat, paid: bool)
    decreases |run|
  {
    if run == [] then paid
    else EndsPaid(Step(w, run[0]), run[1..], i,
                  if Cancels(w, run[0], i) then false else paid || PaysTowards(w, run[0], i))
  }

  /** And over every run at all: a bill once paid ends paid exactly when each confirmed
      cancellation is followed by a new payment. */
  lemma {:induction false} PaidAtEndIff(w: World, run: seq<Event>, i: nat)
    requires Sound(w) && AlwaysHonest(w, run) && i < |w.bills| && Funded(w, i)
    ensures i < |Run(w, run).bills|
    ensures Run(w, run).bills[i].status == BillStatus.Paid <==>
            EndsPaid(w, run, i, w.bills[i].status == BillStatus.Paid)
    decreases |run|
  {
    if run != [] {
      FundedStatus(w, run[0], i);
      StepKeeps(w, run[0]);
      StaysFunded(w, run[0], i);
      PaidAtEndIff(Step(w, run[0]), run[1..], i);
    }
  }

  lemma StaysFunded(w: World, e: Event, i: nat)
    requires Sound(w) && Honest(w, e) && i < |w.bills| && Funded(w, i)
    ensures i < |Step(w, e).bills| && Funded(Step(w, e), i)
  {
    StepKeeps(w, e);
    if e.Pay? {
      PaidToGrows(w, e.txn, i);
    } else {
      OtherPayments(w, e);
    }
  }

  lemma OtherPayments(w: World, e: Event)
    requires !e.Pay?
    ensures Step(w, e).payments == w.payments
  {
  }

  lemma PaidToGrows(w: World, txn: Txn, i: nat)
    requires Honest(w, Pay(txn))
    ensures PaidTo(Deliver(w, txn).payments, i) >= PaidTo(w.payments, i)
  {
    if Settlement.Recorded(w, txn.trx) {
      Settlement.RedeliveryInertIff(w, txn);
    } else if Resolve(w, txn).Some? {
      Settlement.FirstDelivery(w, txn, Resolve(w, txn).value);
      Settlement.PaidToAppend(w.payments, Payment(txn.trx, Resolve(w, txn).value, txn.amount), i);
    }
  }

  /** In every reachable state a paid bill of a positive total has a payment on record. */
  lemma PaidNeedsAPayment(w: World, run: seq<Event>, i: nat)
    requires Opening(w) && AlwaysHonest(w, run) && i < |Run(w, run).bills|
    requires Run(w, run).bills[i].status == BillStatus.Paid && Run(w, run).bills[i].total > 0
    ensures Settlement.Touches(Run(w, run).payments, i)
  {
    RunKeeps(w, run);
    assert SoundBill(Run(w, run), i);
    if !Settlement.Touches(Run(w, run).payments, i) {
      Settlement.NothingPaid(Run(w, run).payments, i);
    }
  }

  /** However billing, identification and retries interleave, an order has one bill at most,
      and once it exists its number, lines and total never change. */
  lemma OneUnchangingBill(w: World, run: seq<Event>, more: seq<Event>, i: nat, j: nat)
    requires Opening(w) && AlwaysHonest(w, run + more)
    requires i < |Run(w, run).bills| && j < |Run(w, run + more).bills|
    requires Run(w, run + more).bills[j].order == Run(w, run).bills[i].order
    ensures j == i
    ensures var b, c := Run(w, run).bills[i], Run(w, run + more).bills[i];
            c.number == b.number && c.items == b.items && c.total == b.total && c.total == Sum(c.items)
  {
    HonestParts(w, run, more);
    RunKeeps(w, run);
    RunAppend(w, run, more);
    RunKeeps(Run(w, run), more);
    assert SoundBill(Run(w, run + more), i);
  }

  lemma {:induction false} HonestParts(w: World, a: seq<Event>, b: seq<Event>)
    requires AlwaysHonest(w, a + b)
    ensures AlwaysHonest(w, a) && AlwaysHonest(Run(w, a), b)
    decreases |a|
  {
    if a == [] {
      assert a + b == b;
    } else {
      assert (a + b)[1..] == a[1..] + b;
      HonestParts(Step(w, a[0]), a[1..], b);
    }
  }
}
