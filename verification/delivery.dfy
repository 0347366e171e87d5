/** Exactly-once settlement from what the gateway promises: a transaction id always comes with
    the same message. Nothing is assumed about what a redelivery does. */
module Delivery {
  import opened Common
  import opened Gems
  import opened Records
  import opened Settlement
  import References
  import Workflow

  predicate DistinctNumbers(w: World) {
    forall i, j :: 0 <= i < j < |w.bills| ==> w.bills[i].number != w.bills[j].number
  }

  /** Some bill has the number the message carries, so that the control number is not asked. */
  predicate Named(w: World, txn: Txn) {
    !NumberFree(w, txn.billNumber)
  }

  /** Bills are only added, and keep their numbers. */
  predicate NumbersKept(w: World, v: World) {
    |w.bills| <= |v.bills| && forall i :: 0 <= i < |w.bills| ==> v.bills[i].number == w.bills[i].number
  }

  lemma BillingKeepsNumbers(w: World, e: Event)
    requires DistinctNumbers(w) && (e.Generate? || e.AutoBill? || e.Retry?)
    ensures DistinctNumbers(Step(w, e)) && NumbersKept(w, Step(w, e))
  {
    Workflow.BillsOrNothing(w, e);
  }

  lemma RewriteKeepsNumbers(w: World, i: nat, b: Bill)
    requires DistinctNumbers(w) && i < |w.bills| && b.number == w.bills[i].number
    ensures DistinctNumbers(WithBill(w, i, b)) && NumbersKept(w, WithBill(w, i, b))
  {
  }

  lemma GatewayKeepsNumbers(w: World, e: Event)
    requires DistinctNumbers(w) && (e.Submitted? || e.BillResponse? || e.CancelConfirmed? || e.CancelCallback?)
    ensures DistinctNumbers(Step(w, e)) && NumbersKept(w, Step(w, e))
  {
    if Step(w, e) != w {
      var i := Workflow.GatewayAnswers(w, e);
      RewriteKeepsNumbers(w, i, Step(w, e).bills[i]);
    }
  }

  lemma OthersKeepBills(w: World, e: Event)
    requires !e.Generate? && !e.AutoBill? && !e.Retry? && !e.Submitted? && !e.BillResponse? && !e.CancelConfirmed? && !e.CancelCallback?
    requires !e.Pay?
    ensures Step(w, e).bills == w.bills
  {
  }

  lemma StepKeepsNumbers(w: World, e: Event)
    requires DistinctNumbers(w)
    ensures DistinctNumbers(Step(w, e)) && NumbersKept(w, Step(w, e))
  {
    if e.Pay? {
      DeliverKeepsTerms(w, e.txn);
    } else if e.Generate? || e.AutoBill? || e.Retry? {
      BillingKeepsNumbers(w, e);
    } else if e.Submitted? || e.BillResponse? || e.CancelConfirmed? || e.CancelCallback? {
      GatewayKeepsNumbers(w, e);
    } else {
      OthersKeepBills(w, e);
    }
  }

  /** The bill of a given number, which distinctness makes the only one. */
  lemma NamedResolves(w: World, txn: Txn, bill: nat)
    requires DistinctNumbers(w) && bill < |w.bills| && w.bills[bill].number == txn.billNumber
    ensures Resolve(w, txn) == Some(bill)
  {
    NewestMeaning(w.bills, |w.bills|, (b: Bill) => b.number == txn.billNumber);
  }

  lemma NamedMeaning(w: World, txn: Txn)
    ensures Named(w, txn) ==> Resolve(w, txn).Some? && w.bills[Resolve(w, txn).value].number == txn.billNumber
    ensures !Named(w, txn) && Resolve(w, txn).Some? ==>
              w.bills[Resolve(w, txn).value].controlNumber == txn.controlNumber
  {
    NewestMeaning(w.bills, |w.bills|, (b: Bill) => b.number == txn.billNumber);
  }

  // ---- Messages ----

  /** Equal ids mean equal messages, over all the payments of a run. */
  predicate SameMessages(run: seq<Event>) {
    forall i, j :: 0 <= i < |run| && 0 <= j < |run| && run[i].Pay? && run[j].Pay? && run[i].txn.trx == run[j].txn.trx ==>
                     run[i].txn == run[j].txn
  }

  /** Every row on record under the message's id has the message's amount, on the bill it names. */
  predicate Filed(w: World, txn: Txn) {
    forall k :: 0 <= k < |w.payments| && w.payments[k].trx == txn.trx ==>
                  && w.payments[k].bill < |w.bills| && w.bills[w.payments[k].bill].number == txn.billNumber
                  && w.payments[k].amount == txn.amount
  }

  predicate AllFiled(w: World, run: seq<Event>) {
    forall i :: 0 <= i < |run| && run[i].Pay? ==> Filed(w, run[i].txn)
  }

  /** Whenever a message is recorded for the first time, some bill has the number it carries. */
  predicate NamedOnArrival(w: World, run: seq<Event>)
    decreases |run|
  {
    run == [] ||
    ((run[0].Pay? && !Recorded(w, run[0].txn.trx) && Resolve(w, run[0].txn).Some? ==> Named(w, run[0].txn)) &&
     NamedOnArrival(Step(w, run[0]), run[1..]))
  }

  lemma FiledIsInert(w: World, txn: Txn)
    requires DistinctNumbers(w) && Filed(w, txn) && Recorded(w, txn.trx)
    ensures Inert(w, txn)
  {
    var k := PaymentOf(w.payments, txn.trx).value;
    NamedResolves(w, txn, w.payments[k].bill);
  }

  /** A first delivery of a message that is named files it; deliveries of other ids leave it. */
  lemma DeliverKeepsFiled(w: World, sent: Txn, txn: Txn)
    requires DistinctNumbers(w) && Filed(w, txn) && Filed(w, sent) && (sent.trx == txn.trx ==> sent == txn)
    requires !Recorded(w, sent.trx) && Resolve(w, sent).Some? ==> Named(w, sent)
    ensures Filed(Deliver(w, sent), txn)
  {
    if Recorded(w, sent.trx) {
      FiledIsInert(w, sent);
      RedeliveryInertIff(w, sent);
    } else if Resolve(w, sent).Some? {
      FirstDelivery(w, sent, Resolve(w, sent).value);
      NamedMeaning(w, sent);
    }
  }

  lemma StepKeepsFiled(w: World, e: Event, txn: Txn)
    requires DistinctNumbers(w) && Filed(w, txn)
    requires e.Pay? ==> Filed(w, e.txn) && (e.txn.trx == txn.trx ==> e.txn == txn)
    requires e.Pay? && !Recorded(w, e.txn.trx) && Resolve(w, e.txn).Some? ==> Named(w, e.txn)
    ensures Filed(Step(w, e), txn)
  {
    if e.Pay? {
      DeliverKeepsFiled(w, e.txn, txn);
    } else {
      StepKeepsNumbers(w, e);
      OthersKeepPayments(w, e);
    }
  }

  lemma OthersKeepPayments(w: World, e: Event)
    requires !e.Pay?
    ensures Step(w, e).payments == w.payments
  {
  }

  lemma StepKeepsAllFiled(w: World, run: seq<Event>)
    requires run != [] && DistinctNumbers(w) && AllFiled(w, run) && SameMessages(run) && NamedOnArrival(w, run)
    ensures AllFiled(Step(w, run[0]), run[1..]) && SameMessages(run[1..])
  {
    forall i | 0 <= i < |run| - 1 && run[1..][i].Pay? ensures Filed(Step(w, run[0]), run[1..][i].txn) {
      assert run[1..][i] == run[i + 1];
      StepKeepsFiled(w, run[0], run[i + 1].txn);
    }
    forall i, j | 0 <= i < |run| - 1 && 0 <= j < |run| - 1 && run[1..][i].Pay? && run[1..][j].Pay? &&
                  run[1..][i].txn.trx == run[1..][j].txn.trx
      ensures run[1..][i].txn == run[1..][j].txn
    {
      assert run[1..][i] == run[i + 1] && run[1..][j] == run[j + 1];
    }
  }

  /** With equal messages for equal ids, named when first recorded, every redelivery of any run
      is inert: nothing needs to be assumed about it. */
  lemma {:induction false} MessagesAreConsistent(w: World, run: seq<Event>)
    requires DistinctNumbers(w) && AllFiled(w, run) && SameMessages(run) && NamedOnArrival(w, run)
    ensures Consistent(w, run)
    decreases |run|
  {
    if run != [] {
      if Redelivery(w, run[0]) {
        FiledIsInert(w, run[0].txn);
      }
      StepKeepsNumbers(w, run[0]);
      StepKeepsAllFiled(w, run);
      MessagesAreConsistent(Step(w, run[0]), run[1..]);
    }
  }

  /** Exactly once: in any run, whatever billing, identification, grants of control numbers,
      cancellations and certificates happen between deliveries, the whole state is the one
      reached by applying each transaction once, at its first arrival. */
  lemma ExactlyOnce(w: World, run: seq<Event>)
    requires DistinctNumbers(w) && AllFiled(w, run) && SameMessages(run) && NamedOnArrival(w, run)
    ensures Run(w, FirstArrivals(w, run)) == Run(w, run)
    ensures NoRedelivery(w, FirstArrivals(w, run))
  {
    MessagesAreConsistent(w, run);
    SkippingIsHarmless(w, run);
  }

  // ---- The condition is exact ----

  /** Every payment of the run under the message's id is the message again; payments under
      other ids are free. */
  predicate Repeats(run: seq<Event>, txn: Txn) {
    forall i :: 0 <= i < |run| && run[i].Pay? && run[i].txn.trx == txn.trx ==> run[i].txn == txn
  }

  /** Orders that bills and stones refer to exist. */
  predicate Placed(w: World) {
    && (forall i :: 0 <= i < |w.bills| ==> w.bills[i].order < |w.orders|)
    && StonesPlaced(w.stones, |w.orders|)
  }

  /** However the run goes on, other customers' payments included, the message arriving again
      changes nothing. */
  ghost predicate SafeForever(w: World, txn: Txn) {
    forall run :: Repeats(run, txn) ==> Deliver(Run(w, run), txn) == Run(w, run)
  }

  /** Whatever arrives under another id, the message stays filed and on record. */
  lemma OthersKeepFiled(w: World, sent: Txn, txn: Txn)
    requires Filed(w, txn) && Recorded(w, txn.trx) && sent.trx != txn.trx
    ensures Filed(Deliver(w, sent), txn) && Recorded(Deliver(w, sent), txn.trx)
  {
    var v := Deliver(w, sent);
    DeliverKeepsTerms(w, sent);
    PaymentOfMeaning(w.payments, txn.trx);
    PaymentOfMeaning(v.payments, txn.trx);
    if Resolve(w, sent).Some? && !Recorded(w, sent.trx) {
      FirstDelivery(w, sent, Resolve(w, sent).value);
    }
    var k := PaymentOf(w.payments, txn.trx).value;
    assert v.payments[k].trx == txn.trx;
  }

  /** One step of a continuation leaves a named message filed, on record and named. */
  lemma StepKeepsSafe(w: World, e: Event, txn: Txn)
    requires DistinctNumbers(w) && Named(w, txn) && Filed(w, txn) && Recorded(w, txn.trx)
    requires e.Pay? && e.txn.trx == txn.trx ==> e.txn == txn
    ensures var v := Step(w, e); DistinctNumbers(v) && Named(v, txn) && Filed(v, txn) && Recorded(v, txn.trx)
  {
    StepKeepsNumbers(w, e);
    StillNamed(w, Step(w, e), txn);
    if e.Pay? && e.txn.trx == txn.trx {
      FiledIsInert(w, txn);
      RedeliveryInertIff(w, txn);
    } else if e.Pay? {
      OthersKeepFiled(w, e.txn, txn);
    } else {
      OthersKeepPayments(w, e);
    }
  }

  lemma {:induction false} NamedIsSafe(w: World, txn: Txn, run: seq<Event>)
    requires DistinctNumbers(w) && Named(w, txn) && Filed(w, txn) && Recorded(w, txn.trx) && Repeats(run, txn)
    ensures Deliver(Run(w, run), txn) == Run(w, run)
    decreases |run|
  {
    if run == [] {
      FiledIsInert(w, txn);
      RedeliveryInertIff(w, txn);
    } else {
      StepKeepsSafe(w, run[0], txn);
      RestRepeats(run, txn);
      NamedIsSafe(Step(w, run[0]), txn, run[1..]);
    }
  }

  lemma RestRepeats(run: seq<Event>, txn: Txn)
    requires run != [] && Repeats(run, txn)
    ensures Repeats(run[1..], txn)
  {
    assert forall i :: 0 <= i < |run| - 1 ==> run[1..][i] == run[i + 1];
  }

  lemma StillNamed(w: World, v: World, txn: Txn)
    requires Named(w, txn) && NumbersKept(w, v)
    ensures Named(v, txn)
  {
    var i :| 0 <= i < |w.bills| && w.bills[i].number == txn.billNumber;
    assert v.bills[i].number == txn.billNumber;
  }

  predicate DistinctControls(w: World) {
    forall i, j :: 0 <= i < j < |w.bills| ==>
                     w.bills[i].controlNumber == "" || w.bills[i].controlNumber != w.bills[j].controlNumber
  }

  /** How the gateway gives a bill a control number: by its answer, or by a later callback. */
  function Grant(w: World, bill: nat, control: string): Event
    requires bill < |w.bills|
  {
    if control == "" || control == "0" then Submitted(bill, true, Some(control), "")
    else BillResponse(w.bills[bill].number, control, "7101")
  }

  /** `v` is `w` with only this bill's control number changed, and its last status code. */
  predicate Regranted(w: World, v: World, bill: nat, control: string)
    requires bill < |w.bills|
  {
    && v.payments == w.payments && |v.bills| == |w.bills| && v.bills[bill].controlNumber == control
    && (forall k :: 0 <= k < |w.bills| ==> v.bills[k].number == w.bills[k].number)
    && (forall k :: 0 <= k < |w.bills| && k != bill ==> v.bills[k].controlNumber == w.bills[k].controlNumber)
  }

  lemma RewriteRegrants(w: World, bill: nat, b: Bill)
    requires bill < |w.bills| && b.number == w.bills[bill].number
    ensures Regranted(w, WithBill(w, bill, b), bill, b.controlNumber)
  {
  }

  lemma GrantRegrants(w: World, bill: nat, control: string)
    requires DistinctNumbers(w) && bill < |w.bills| && ControlFree(w, bill, control)
    ensures Regranted(w, Step(w, Grant(w, bill, control)), bill, control)
  {
    var v, b := Step(w, Grant(w, bill, control)), w.bills[bill].(controlNumber := control);
    if control == "" || control == "0" {
      assert v == WithBill(w, bill, b.(statusCode := ""));
      RewriteRegrants(w, bill, b.(statusCode := ""));
    } else {
      NewestMeaning(w.bills, |w.bills|, (b: Bill) => b.number == w.bills[bill].number);
      assert v == WithBill(w, bill, b.(statusCode := "7101"));
      RewriteRegrants(w, bill, b.(statusCode := "7101"));
    }
  }

  /** A control number longer than any that is taken. */
  function Unheard(bills: seq<Bill>): (control: string)
    ensures control != "" && forall i :: 0 <= i < |bills| ==> |bills[i].controlNumber| < |control|
  {
    if bills == [] then "9"
    else Unheard(bills[..|bills| - 1]) + bills[|bills| - 1].controlNumber
  }

  /** The message is on record, on a bill it does not resolve to now. */
  predicate Misfiled(w: World, txn: Txn, bill: nat) {
    var k := PaymentOf(w.payments, txn.trx);
    k.Some? && w.payments[k.value].bill == bill && Resolve(w, txn).Some? && Resolve(w, txn).value != bill
  }

  lemma MisfiledMoves(w: World, txn: Txn, bill: nat)
    requires Misfiled(w, txn, bill)
    ensures Deliver(w, txn) != w
  {
    RedeliveryInertIff(w, txn);
  }

  lemma UnsafeBefore(w: World, run: seq<Event>, txn: Txn)
    requires Repeats(run, txn) && Deliver(Run(w, run), txn) != Run(w, run)
    ensures !SafeForever(w, txn)
  {
  }

  lemma RegrantFrees(w: World, u: World, i: nat, j: nat, control: string)
    requires DistinctNumbers(w) && DistinctControls(w) && i < |w.bills| && w.bills[i].controlNumber == control
    requires Regranted(w, u, i, Unheard(w.bills)) && j < |w.bills| && j != i
    ensures DistinctNumbers(u) && ControlFree(u, j, control)
  {
  }

  lemma RegrantMisfiles(w: World, u: World, v: World, txn: Txn, i: nat, j: nat)
    requires i < |w.bills| && j < |w.bills| && i != j && !Named(w, txn) && w.bills[i].controlNumber == txn.controlNumber
    requires Regranted(w, u, i, Unheard(w.bills)) && Regranted(u, v, j, txn.controlNumber)
    requires Recorded(w, txn.trx) && w.payments[PaymentOf(w.payments, txn.trx).value].bill == i
    ensures Misfiled(v, txn, i)
  {
    NewestMeaning(v.bills, |v.bills|, (b: Bill) => b.number == txn.billNumber);
    NewestMeaning(v.bills, |v.bills|, (b: Bill) => b.controlNumber == txn.controlNumber);
  }

  /** With a second bill, two grants move the row: the first bill gets another control number,
      and the second bill the one the message carries. */
  lemma RegrantMoves(w: World, txn: Txn, i: nat, j: nat)
    requires DistinctNumbers(w) && DistinctControls(w) && !Named(w, txn) && Resolve(w, txn) == Some(i)
    requires j < |w.bills| && j != i && Recorded(w, txn.trx) && w.payments[PaymentOf(w.payments, txn.trx).value].bill == i
    ensures !SafeForever(w, txn)
  {
    NamedMeaning(w, txn);
    var first := Grant(w, i, Unheard(w.bills));
    var u := Step(w, first);
    GrantRegrants(w, i, Unheard(w.bills));
    RegrantFrees(w, u, i, j, txn.controlNumber);
    var second := Grant(u, j, txn.controlNumber);
    GrantRegrants(u, j, txn.controlNumber);
    RegrantMisfiles(w, u, Step(u, second), txn, i, j);
    MisfiledMoves(Step(u, second), txn, i);
    RunOfTwo(w, first, second);
    UnsafeBefore(w, [first, second], txn);
  }

  lemma RunOfTwo(w: World, a: Event, b: Event)
    ensures Run(w, [a, b]) == Step(Step(w, a), b)
  {
    assert [a, b][1..] == [b] && [b][1..] == [];
    assert Run(Step(w, a), [b]) == Run(Step(Step(w, a), b), []);
  }

  // ---- A second bill can always come to be ----

  /** The n-th order reference of the first year pair. */
  function Reference(n: nat): string {
    "ORD-" + References.Fixed(0, 4) + "-" + References.Fixed(n, 5)
  }

  /** A reference whose bill number can be given to a new bill. */
  predicate Spare(w: World, reference: string) {
    var number := References.ReferenceForOrder(reference, "BILL", None);
    number.Some? && NumberFree(w, number.value)
  }

  lemma NumbersDiffer(m: nat, n: nat)
    requires m != n && m < 10 && n < 10
    ensures var a := References.ReferenceForOrder(Reference(m), "BILL", None);
            var b := References.ReferenceForOrder(Reference(n), "BILL", None);
            a.Some? && b.Some? && a != b
  {
    assert References.Pow10(1) == 10;
    References.PowerGrows(1, 5);
    References.ParseFixed(m, 5);
    References.ParseFixed(n, 5);
    References.ParseSpelled(References.Fixed(0, 4), References.Fixed(m, 5));
    References.ParseSpelled(References.Fixed(0, 4), References.Fixed(n, 5));
    References.DerivedReferencesCollideIff(Reference(m), Reference(n), "BILL", None, None);
  }

  lemma OneIsSpare(w: World, m: nat, n: nat)
    requires |w.bills| <= 1 && m != n && m < 10 && n < 10
    ensures Spare(w, Reference(m)) || Spare(w, Reference(n))
  {
    NumbersDiffer(m, n);
  }

  lemma SpareExists(w: World) returns (reference: string)
    requires |w.bills| <= 1
    ensures Spare(w, reference)
  {
    var m: nat, n: nat :| m != n && m < 10 && n < 10;
    OneIsSpare(w, m, n);
    reference := if Spare(w, Reference(m)) then Reference(m) else Reference(n);
  }

  /** Taking in one priced stone for a new order, and billing it. */
  function Opening(w: World, reference: string): seq<Event> {
    var order := |w.orders|;
    [NewOrder(reference, 1), Reprice(0, Some(0)), Intake(order, Some(0), None), Generate(order)]
  }

  /** The world with the new order, its stone and the price, just before billing. */
  function Ready(w: World, reference: string): World {
    var order := |w.orders|;
    w.(orders := w.orders + [Order(reference, 1, Active)], prices := w.prices[0 := Some(0)],
    stones := w.stones + [Records.Received(order, 65, 0, None)])
  }

  lemma {:induction false} NoneOfOrder(stones: seq<Stone>, n: nat, order: nat)
    requires n <= |stones| && forall i :: 0 <= i < n ==> stones[i].order != order
    ensures StonesOf(stones, n, order) == []
  {
    if n > 0 {
      NoneOfOrder(stones, n - 1, order);
    }
  }

  lemma ReadyStones(w: World, reference: string)
    requires Placed(w)
    ensures OrderStones(Ready(w, reference), |w.orders|) == [|w.stones|]
    ensures AllPriced(Ready(w, reference), [|w.stones|])
  {
    NoneOfOrder(Ready(w, reference).stones, |w.stones|, |w.orders|);
  }

  lemma ReadyUnbilled(w: World, reference: string)
    requires Placed(w)
    ensures BillFor(Ready(w, reference), |w.orders|).None?
  {
    NewestMeaning(w.bills, |w.bills|, (b: Bill) => b.order == |w.orders|);
  }

  lemma ReadyMayBill(w: World, reference: string)
    requires Placed(w) && Spare(w, reference)
    ensures MayBill(Ready(w, reference), |w.orders|)
  {
    ReadyStones(w, reference);
    ReadyUnbilled(w, reference);
  }

  /** The new order and the price, before the stone. */
  function Priced(w: World, reference: string): World {
    w.(orders := w.orders + [Order(reference, 1, Active)], prices := w.prices[0 := Some(0)])
  }

  lemma IntakeStep(w: World, reference: string)
    requires Placed(w)
    ensures Step(Priced(w, reference), Intake(|w.orders|, Some(0), None)) == Ready(w, reference)
  {
    NoneOfOrder(w.stones, |w.stones|, |w.orders|);
  }

  lemma ReadyStep(w: World, reference: string)
    requires Placed(w) && Spare(w, reference)
    ensures MayBill(Ready(w, reference), |w.orders|)
    ensures Run(Priced(w, reference), [Intake(|w.orders|, Some(0), None), Generate(|w.orders|)]) ==
            CreateBill(Ready(w, reference), |w.orders|)
  {
    IntakeStep(w, reference);
    ReadyMayBill(w, reference);
    RunOfTwo(Priced(w, reference), Intake(|w.orders|, Some(0), None), Generate(|w.orders|));
    GenerateStep(Ready(w, reference), |w.orders|);
  }

  lemma GenerateStep(w: World, order: nat)
    requires MayBill(w, order)
    ensures Step(w, Generate(order)) == CreateBill(w, order)
  {
  }

  lemma PricedStep(w: World, reference: string)
    ensures Run(w, [NewOrder(reference, 1), Reprice(0, Some(0))]) == Priced(w, reference)
  {
    RunOfTwo(w, NewOrder(reference, 1), Reprice(0, Some(0)));
  }

  lemma OpeningReaches(w: World, reference: string)
    requires Placed(w) && Spare(w, reference)
    ensures MayBill(Ready(w, reference), |w.orders|) && Run(w, Opening(w, reference)) == CreateBill(Ready(w, reference), |w.orders|)
  {
    var first := [NewOrder(reference, 1), Reprice(0, Some(0))];
    var second := [Intake(|w.orders|, Some(0), None), Generate(|w.orders|)];
    assert Opening(w, reference) == first + second;
    PricedStep(w, reference);
    ReadyStep(w, reference);
    RunAppend(w, first, second);
  }

  /** What the opening leaves of the bills and payments: one bill more, without a control number. */
  lemma OpeningAddsABill(w: World, reference: string)
    requires Placed(w) && Spare(w, reference)
    ensures var v := Run(w, Opening(w, reference));
            && v.payments == w.payments && |v.bills| == |w.bills| + 1 && v.bills[..|w.bills|] == w.bills
            && v.bills[|w.bills|].controlNumber == ""
            && forall i :: 0 <= i < |w.bills| ==> v.bills[i].number != v.bills[|w.bills|].number
  {
    OpeningReaches(w, reference);
  }

  /** With one bill: open a second, which either draws the message by itself or lets a grant
      move it. */
  lemma OpeningMoves(w: World, txn: Txn)
    requires Placed(w) && |w.bills| == 1 && !Named(w, txn) && Resolve(w, txn) == Some(0)
    requires Recorded(w, txn.trx) && w.payments[PaymentOf(w.payments, txn.trx).value].bill == 0
    ensures !SafeForever(w, txn)
  {
    var reference := SpareExists(w);
    OpeningAddsABill(w, reference);
    var v := Run(w, Opening(w, reference));
    NewestMeaning(v.bills, |v.bills|, (b: Bill) => b.number == txn.billNumber);
    NewestMeaning(v.bills, |v.bills|, (b: Bill) => b.controlNumber == txn.controlNumber);
    NamedMeaning(w, txn);
    assert v.bills[..1][0] == v.bills[0] == w.bills[0];
    assert Repeats(Opening(w, reference), txn);
    if Resolve(v, txn) == Some(0) {
      RegrantMoves(v, txn, 0, 1);
      UnsafeLater(w, Opening(w, reference), txn);
    } else {
      MisfiledMoves(v, txn, 0);
      UnsafeBefore(w, Opening(w, reference), txn);
    }
  }

  lemma UnsafeLater(w: World, run: seq<Event>, txn: Txn)
    requires Repeats(run, txn) && !SafeForever(Run(w, run), txn)
    ensures !SafeForever(w, txn)
  {
    var more :| Repeats(more, txn) && Deliver(Run(Run(w, run), more), txn) != Run(Run(w, run), more);
    RunAppend(w, run, more);
    assert Repeats(run + more, txn);
    UnsafeBefore(w, run + more, txn);
  }

  /** What a first delivery leaves of its message: its row, on the bill it resolved to, which
      it still resolves to. */
  lemma DeliveredOnce(w: World, txn: Txn, i: nat)
    requires !Recorded(w, txn.trx) && Resolve(w, txn) == Some(i)
    ensures var v := Deliver(w, txn);
            && SameTerms(w, v) && Resolve(v, txn) == Some(i) && Recorded(v, txn.trx)
            && v.payments[PaymentOf(v.payments, txn.trx).value] == Payment(txn.trx, i, txn.amount)
            && (Named(v, txn) <==> Named(w, txn))
  {
    var v := Deliver(w, txn);
    FirstDelivery(w, txn, i);
    PaymentOfMeaning(w.payments, txn.trx);
    PaymentOfMeaning(v.payments, txn.trx);
    assert v.payments[|w.payments|].trx == txn.trx;
    DeliverKeepsTerms(w, txn);
    ResolveStable(w, v, txn);
  }

  lemma FiledOnce(w: World, txn: Txn, i: nat)
    requires !Recorded(w, txn.trx) && Resolve(w, txn) == Some(i) && Named(w, txn)
    ensures Filed(Deliver(w, txn), txn)
  {
    FirstDelivery(w, txn, i);
    NamedMeaning(w, txn);
    PaymentOfMeaning(w.payments, txn.trx);
  }

  /** The condition is exact, at any first delivery: whatever else happens and whoever else
      pays, its message can arrive again at any time without effect if and only if some bill
      had the number it carries. */
  lemma SafeForeverIff(w: World, txn: Txn)
    requires DistinctNumbers(w) && DistinctControls(w) && Placed(w)
    requires !Recorded(w, txn.trx) && Resolve(w, txn).Some?
    ensures SafeForever(Deliver(w, txn), txn) <==> Named(w, txn)
  {
    var i, v := Resolve(w, txn).value, Deliver(w, txn);
    DeliveredOnce(w, txn, i);
    PaymentKeepsTables(w, txn);
    if Named(w, txn) {
      FiledOnce(w, txn, i);
      forall run | Repeats(run, txn) ensures Deliver(Run(v, run), txn) == Run(v, run) {
        NamedIsSafe(v, txn, run);
      }
    } else if |w.bills| == 1 {
      OpeningMoves(v, txn);
    } else {
      RegrantMoves(v, txn, i, if i == 0 then 1 else 0);
    }
  }

  // ---- The tables' own invariants, and the workflow's ----

  /** What the database's constraints keep: distinct numbers, and orders that exist. */
  predicate Tables(w: World) {
    DistinctNumbers(w) && DistinctControls(w) && Placed(w)
  }

  lemma SameBillsKeepTables(w: World, v: World)
    requires Tables(w) && v.bills == w.bills && |w.orders| <= |v.orders|
    requires StonesPlaced(v.stones, |v.orders|)
    ensures Tables(v)
  {
  }

  predicate StonesPlaced(stones: seq<Stone>, orders: nat) {
    forall i :: 0 <= i < |stones| ==> stones[i].order < orders
  }

  lemma OneStonePlaced(stones: seq<Stone>, s: nat, st: Stone, orders: nat)
    requires StonesPlaced(stones, orders) && s < |stones| && st.order == stones[s].order
    ensures StonesPlaced(stones[s := st], orders)
  {
  }

  /** Steps on stones leave bills and orders alone. */
  lemma StonesStayPlaced(w: World, e: Event)
    requires Placed(w)
    requires e.Intake? || e.EditStone? || e.DeleteStone? || e.RestoreStone? || e.Transition? || e.WriteReport? ||
             e.Certify? || e.DeleteCertificate? || e.RestoreCertificate?
    ensures var v := Step(w, e);
            v.orders == w.orders && v.bills == w.bills && StonesPlaced(v.stones, |w.orders|)
  {
    var v := Step(w, e);
    if e.EditStone? || e.DeleteStone? || e.RestoreStone? || e.Transition? || e.WriteReport? || e.Certify? {
      if v != w {
        StoneReplaced(w, e);
        OneStonePlaced(w.stones, e.stone, v.stones[e.stone], |w.orders|);
      }
    }
  }

  lemma StoneReplaced(w: World, e: Event)
    requires e.EditStone? || e.DeleteStone? || e.RestoreStone? || e.Transition? || e.WriteReport? || e.Certify?
    requires Step(w, e) != w
    ensures e.stone < |w.stones| == |Step(w, e).stones|
    ensures var v := Step(w, e);
            v.stones == w.stones[e.stone := v.stones[e.stone]] && v.stones[e.stone].order == w.stones[e.stone].order
  {
  }

  lemma StonesKeepTables(w: World, e: Event)
    requires Tables(w)
    requires e.Intake? || e.EditStone? || e.DeleteStone? || e.RestoreStone? || e.Transition? || e.WriteReport? ||
             e.Certify? || e.DeleteCertificate? || e.RestoreCertificate?
    ensures Tables(Step(w, e))
  {
    StonesStayPlaced(w, e);
    SameBillsKeepTables(w, Step(w, e));
  }

  lemma OrdersKeepTables(w: World, e: Event)
    requires Tables(w) && (e.NewOrder? || e.HoldOrder? || e.Reprice?)
    ensures Tables(Step(w, e))
  {
  }

  lemma AppendKeepsTables(w: World, b: Bill)
    requires Tables(w) && b.controlNumber == "" && NumberFree(w, b.number) && b.order < |w.orders|
    ensures Tables(w.(bills := w.bills + [b]))
  {
  }

  lemma CreationKeepsTables(w: World, order: nat)
    requires Tables(w) && MayBill(w, order)
    ensures Tables(CreateBill(w, order))
  {
    var v := CreateBill(w, order);
    var u := w.(bills := v.bills);
    AppendKeepsTables(w, v.bills[|w.bills|]);
    assert u.bills == w.bills + [v.bills[|w.bills|]];
    SameBillsKeepTables(u, v);
  }

  lemma BillingKeepsTables(w: World, e: Event)
    requires Tables(w) && (e.Generate? || e.AutoBill? || e.Retry?)
    ensures Tables(Step(w, e))
  {
    Workflow.BillsOrNothing(w, e);
    if MayBill(w, e.order) {
      CreationKeepsTables(w, e.order);
    }
  }

  lemma RewriteKeepsTables(w: World, i: nat, b: Bill)
    requires Tables(w) && i < |w.bills| && b.number == w.bills[i].number && b.order == w.bills[i].order
    requires b.controlNumber == w.bills[i].controlNumber || ControlFree(w, i, b.controlNumber)
    ensures Tables(WithBill(w, i, b))
  {
  }

  lemma GatewayKeepsTables(w: World, e: Event)
    requires Tables(w) && (e.Submitted? || e.BillResponse? || e.CancelConfirmed? || e.CancelCallback?)
    ensures Tables(Step(w, e))
  {
    if Step(w, e) != w {
      var i := Workflow.GatewayAnswers(w, e);
      RewriteKeepsTables(w, i, Step(w, e).bills[i]);
    }
  }

  lemma PaymentKeepsTables(w: World, txn: Txn)
    requires Tables(w)
    ensures Tables(Deliver(w, txn))
  {
    DeliverKeepsTerms(w, txn);
    if Recorded(w, txn.trx) {
      RedeliveryInertIff(w, txn);
    } else if Resolve(w, txn).Some? {
      FirstDelivery(w, txn, Resolve(w, txn).value);
    }
  }

  lemma StepKeepsTables(w: World, e: Event)
    requires Tables(w)
    ensures Tables(Step(w, e))
  {
    if e.Pay? {
      PaymentKeepsTables(w, e.txn);
    } else if e.Generate? || e.AutoBill? || e.Retry? {
      BillingKeepsTables(w, e);
    } else if e.Submitted? || e.BillResponse? || e.CancelConfirmed? || e.CancelCallback? {
      GatewayKeepsTables(w, e);
    } else if e.NewOrder? || e.HoldOrder? || e.Reprice? {
      OrdersKeepTables(w, e);
    } else {
      StonesKeepTables(w, e);
    }
  }

  /** Every reachable state has what SafeForeverIff asks of its tables. */
  lemma {:induction false} RunKeepsTables(w: World, run: seq<Event>)
    requires Tables(w)
    ensures Tables(Run(w, run))
    decreases |run|
  {
    if run != [] {
      StepKeepsTables(w, run[0]);
      RunKeepsTables(Step(w, run[0]), run[1..]);
    }
  }

  predicate NonNegative(run: seq<Event>) {
    forall i :: 0 <= i < |run| && run[i].Pay? ==> run[i].txn.amount >= 0
  }

  lemma {:induction false} ConsistentIsHonest(w: World, run: seq<Event>)
    requires Consistent(w, run) && NonNegative(run)
    ensures Workflow.AlwaysHonest(w, run)
    decreases |run|
  {
    if run != [] {
      assert NonNegative(run[1..]) by {
        assert forall i :: 0 <= i < |run| - 1 ==> run[1..][i] == run[i + 1];
      }
      ConsistentIsHonest(Step(w, run[0]), run[1..]);
    }
  }

  /** Money behind every certificate, from the gateway's promise alone. */
  lemma BackedByMessages(w: World, run: seq<Event>, c: nat)
    requires Workflow.Opening(w) && SameMessages(run) && NamedOnArrival(w, run) && NonNegative(run)
    requires c < |Run(w, run).certificates|
    ensures Workflow.Backed(Run(w, run), Run(w, run).certificates[c])
  {
    MessagesAreConsistent(w, run);
    ConsistentIsHonest(w, run);
    Workflow.CertificatesAreBacked(w, run, c);
  }
}
