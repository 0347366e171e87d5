/** What each request of the laboratory demands and does, told from the rows alone. */
module Demands {
  import opened Common
  import opened Gems
  import opened Records
  import References
  import Settlement
  import Laboratory

  // ---- Numbers ----

  /** The number of a document derived from an order reference with this year pair and sequence. */
  function DocumentNumber(prefix: string, year: string, sequence: string, letter: string): string
    requires References.AllDigits(sequence)
  {
    prefix + "-" + year + "-" + References.Fixed(References.ParseInt(sequence), 5) +
    if letter == "" then "" else "-" + letter
  }

  /** An order reference in the laboratory's form. */
  predicate WellFormed(reference: string, year: string, sequence: string) {
    && |year| == 4 && 1 <= |sequence| <= 5 && References.AllDigits(year) && References.AllDigits(sequence)
    && reference == "ORD-" + year + "-" + sequence
  }

  lemma NumberSpelled(reference: string, year: string, sequence: string, prefix: string, letter: string)
    requires WellFormed(reference, year, sequence)
    ensures References.ReferenceForOrder(reference, prefix, Some(letter)) ==
            Some(DocumentNumber(prefix, year, sequence, letter))
    ensures References.ReferenceForOrder(reference, prefix, None) ==
            Some(DocumentNumber(prefix, year, sequence, ""))
  {
    References.ParseSpelled(year, sequence);
    References.SequenceIsFiveDigits(sequence);
    var base := prefix + "-" + year + "-" + References.Fixed(References.ParseInt(sequence), 5);
    assert base + "" == base;
    assert base + ("-" + letter) == base + "-" + letter;
  }

  lemma Malformed(reference: string, prefix: string, tag: Option<string>)
    ensures References.ReferenceForOrder(reference, prefix, tag).Some? ==>
              exists year, sequence :: WellFormed(reference, year, sequence)
  {
    var parts := References.ParseOrderReference(reference);
    if parts.Some? {
      assert WellFormed(reference, parts.value.0, parts.value.1);
    }
  }

  // ---- Certificates ----

  /** The newest bill of an order is paid. */
  predicate PaidFor(w: World, order: nat) {
    exists i :: 0 <= i < |w.bills| && w.bills[i].order == order && w.bills[i].status == BillStatus.Paid &&
                forall j :: i < j < |w.bills| ==> w.bills[j].order != order
  }

  lemma PaidForMeaning(w: World, order: nat)
    ensures PaidFor(w, order) <==> BillFor(w, order).Some? && w.bills[BillFor(w, order).value].status == BillStatus.Paid
  {
    NewestMeaning(w.bills, |w.bills|, (b: Bill) => b.order == order);
    if BillFor(w, order).Some? && w.bills[BillFor(w, order).value].status == BillStatus.Paid {
      assert w.bills[BillFor(w, order).value].order == order;
    }
    if PaidFor(w, order) {
      var i :| 0 <= i < |w.bills| && w.bills[i].order == order && w.bills[i].status == BillStatus.Paid &&
               forall j :: i < j < |w.bills| ==> w.bills[j].order != order;
      assert BillFor(w, order) == Some(i);
    }
  }

  predicate Grown(w: World, v: World) {
    |v.certificates| > |w.certificates| || |v.bills| > |w.bills| || |v.stones| > |w.stones|
  }

  /** A certificate is issued exactly for a live stone that never had one, with a final report,
      a paid bill, a weight, an exact type, and a number no live certificate has. */
  lemma CertifyIff(w: World, s: nat, year: string, sequence: string)
    requires s < |w.stones| && w.stones[s].order < |w.orders| && w.stones[s].mark < 0xD800
    requires WellFormed(w.orders[w.stones[s].order].reference, year, sequence)
    ensures var number := DocumentNumber("CERT", year, sequence, [w.stones[s].mark as char]);
            Grown(w, Step(w, Certify(s))) <==>
              && !w.stones[s].deleted && w.stones[s].report == Finalized
              && w.stones[s].weight.Some? && w.stones[s].kind.Some? && PaidFor(w, w.stones[s].order)
              && (forall c :: 0 <= c < |w.certificates| ==> w.certificates[c].stone != s)
              && forall c :: 0 <= c < |w.certificates| && !w.certificates[c].deleted ==> w.certificates[c].number != number
  {
    NumberSpelled(w.orders[w.stones[s].order].reference, year, sequence, "CERT", [w.stones[s].mark as char]);
    PaidForMeaning(w, w.stones[s].order);
  }

  /** Without a well-formed reference none is issued. */
  lemma NoCertificateWithoutNumber(w: World, s: nat)
    requires Grown(w, Step(w, Certify(s)))
    ensures s < |w.stones| && w.stones[s].order < |w.orders|
    ensures exists year, sequence :: WellFormed(w.orders[w.stones[s].order].reference, year, sequence)
  {
    Malformed(w.orders[w.stones[s].order].reference, "CERT", Some(Letter(w.stones[s].mark)));
  }

  /** What issuing does: one certificate more, numbered by the order's year and sequence and the
      stone's letter, and the stone certified with a ledger line, unless it already was. */
  lemma CertifyDoes(w: World, s: nat, year: string, sequence: string)
    requires s < |w.stones| && w.stones[s].order < |w.orders| && w.stones[s].mark < 0xD800
    requires WellFormed(w.orders[w.stones[s].order].reference, year, sequence)
    requires Grown(w, Step(w, Certify(s)))
    ensures var v, st := Step(w, Certify(s)), w.stones[s];
            && v.certificates == w.certificates + [Certificate(s, DocumentNumber("CERT", year, sequence, [st.mark as char]), false)]
            && |v.stones| == |w.stones| && (forall i :: 0 <= i < |w.stones| && i != s ==> v.stones[i] == w.stones[i])
            && v.stones[s] == st.(status := StoneStatus.Certified, history :=
                 st.history + if st.status == StoneStatus.Certified then [] else [Entry(Some(st.status), StoneStatus.Certified)])
            && v == w.(certificates := v.certificates, stones := v.stones)
  {
    NumberSpelled(w.orders[w.stones[s].order].reference, year, sequence, "CERT", [w.stones[s].mark as char]);
    assert w.stones[s].history + [] == w.stones[s].history;
  }

  /** At the moment a certificate came to be, its stone had a final report, a weight, a type
      and a paid bill, and the step was its issue. */
  predicate IssuedAt(w: World, run: seq<Event>, n: nat, s: nat)
    requires n < |run|
  {
    var u := Run(w, run[..n]);
    && run[n] == Certify(s) && s < |u.stones| && u.stones[s].report == Finalized && !u.stones[s].deleted
    && u.stones[s].weight.Some? && u.stones[s].kind.Some? && PaidFor(u, u.stones[s].order)
  }

  lemma CertificatesGrowOnlySo(w: World, e: Event)
    ensures |w.certificates| <= |Step(w, e).certificates|
    ensures forall c :: 0 <= c < |w.certificates| ==> Step(w, e).certificates[c].stone == w.certificates[c].stone
    ensures |Step(w, e).certificates| > |w.certificates| ==>
              && e.Certify? && e.stone < |w.stones| && w.stones[e.stone].report == Finalized && !w.stones[e.stone].deleted
              && w.stones[e.stone].weight.Some? && w.stones[e.stone].kind.Some? && PaidFor(w, w.stones[e.stone].order)
              && |Step(w, e).certificates| == |w.certificates| + 1
              && Step(w, e).certificates[|w.certificates|].stone == e.stone
  {
    if e.Certify? && e.stone < |w.stones| {
      PaidForMeaning(w, w.stones[e.stone].order);
    } else if e.Pay? {
      Settlement.DeliverKeepsTerms(w, e.txn);
    }
  }

  /** Over every run: each certificate it added was issued for its stone by a request that met
      all of that at the time, whatever happened to report, stone and bill since. */
  lemma {:induction false} EveryIssueWasDue(w: World, run: seq<Event>, c: nat)
    requires |w.certificates| <= c < |Run(w, run).certificates|
    ensures exists n :: 0 <= n < |run| && IssuedAt(w, run, n, Run(w, run).certificates[c].stone)
    decreases |run|
  {
    var front, last := run[..|run| - 1], run[|run| - 1];
    var u := Run(w, front);
    assert run == front + [last];
    RunLast(w, front, last);
    CertificatesGrowOnlySo(u, last);
    if c < |u.certificates| {
      EveryIssueWasDue(w, front, c);
      var n :| 0 <= n < |front| && IssuedAt(w, front, n, u.certificates[c].stone);
      assert run[..n] == front[..n];
      assert IssuedAt(w, run, n, u.certificates[c].stone);
    } else {
      assert run[..|front|] == front;
      assert IssuedAt(w, run, |front|, last.stone);
    }
  }

  lemma RunLast(w: World, front: seq<Event>, last: Event)
    ensures Run(w, front + [last]) == Step(Run(w, front), last)
  {
    RunAppend(w, front, [last]);
    assert [last][1..] == [];
    assert Run(Step(Run(w, front), last), []) == Step(Run(w, front), last);
  }

  // ---- Bills ----

  /** The live stones of an order among the first n rows. */
  function LiveAmong(stones: seq<Stone>, n: nat, order: nat): set<nat>
    requires n <= |stones|
  {
    set s | 0 <= s < n && stones[s].order == order && !stones[s].deleted
  }

  function LiveStones(w: World, order: nat): set<nat> {
    LiveAmong(w.stones, |w.stones|, order)
  }

  lemma LiveNext(stones: seq<Stone>, n: nat, order: nat)
    requires n < |stones|
    ensures LiveAmong(stones, n + 1, order) ==
            LiveAmong(stones, n, order) + if LiveIn(stones[n], order) then {n} else {}
    ensures n !in LiveAmong(stones, n, order)
  {
  }

  lemma {:induction false} CountLive(stones: seq<Stone>, n: nat, order: nat)
    requires n <= |stones|
    ensures |StonesOf(stones, n, order)| == |LiveAmong(stones, n, order)|
  {
    if n > 0 {
      CountLive(stones, n - 1, order);
      LiveNext(stones, n - 1, order);
    }
  }

  lemma OrderStonesMeaning(w: World, order: nat)
    ensures |OrderStones(w, order)| == |LiveStones(w, order)|
    ensures forall s: nat :: s in OrderStones(w, order) <==> s in LiveStones(w, order)
    ensures OrderStones(w, order) == [] <==> LiveStones(w, order) == {}
  {
    CountLive(w.stones, |w.stones|, order);
    forall s: nat ensures s in OrderStones(w, order) <==> s in LiveStones(w, order) {
    }
  }

  /** The order can be billed: it has no bill, some live stone, a fee set for the category of
      each, and a number no bill has. */
  predicate Billable(w: World, order: nat, number: string) {
    && (forall b :: 0 <= b < |w.bills| ==> w.bills[b].order != order && w.bills[b].number != number)
    && LiveStones(w, order) != {}
    && forall s <- LiveStones(w, order) ::
         0 <= s < |w.stones| && w.stones[s].category in w.prices && w.prices[w.stones[s].category].Some?
  }

  lemma BillableIff(w: World, order: nat, year: string, sequence: string)
    requires order < |w.orders| && WellFormed(w.orders[order].reference, year, sequence)
    ensures MayBill(w, order) <==> Billable(w, order, DocumentNumber("BILL", year, sequence, ""))
  {
    var ids := OrderStones(w, order);
    NumberSpelled(w.orders[order].reference, year, sequence, "BILL", "");
    OrderStonesMeaning(w, order);
    NewestMeaning(w.bills, |w.bills|, (b: Bill) => b.order == order);
    forall k | 0 <= k < |ids| ensures ids[k] in LiveStones(w, order) {
      assert ids[k] in ids;
    }
    if AllPriced(w, ids) {
      forall s: nat | s in LiveStones(w, order) ensures PriceOf(w, w.stones[s]).Some? {
        assert s in ids;
      }
    }
  }

  /** A bill is generated by hand exactly for a billable order. */
  lemma GenerateIff(w: World, order: nat, year: string, sequence: string)
    requires order < |w.orders| && WellFormed(w.orders[order].reference, year, sequence)
    ensures Grown(w, Step(w, Generate(order))) <==> Billable(w, order, DocumentNumber("BILL", year, sequence, ""))
    ensures !Grown(w, Step(w, Generate(order))) ==> Step(w, Generate(order)) == w
  {
    BillableIff(w, order, year, sequence);
  }

  /** The stones the customer brought are all identified, and nobody has stopped the order. */
  predicate Complete(w: World, order: nat)
    requires order < |w.orders|
  {
    w.orders[order].hold == Active && |LiveStones(w, order)| == w.orders[order].stoneCount
  }

  lemma CompleteIff(w: World, order: nat)
    requires order < |w.orders|
    ensures Complete(w, order) <==> AllIdentified(w, order) && !Held(w, order)
  {
    OrderStonesMeaning(w, order);
  }

  lemma BillGrows(w: World, order: nat)
    requires MayBill(w, order)
    ensures Grown(w, CreateBill(w, order))
  {
  }

  /** By itself, when automation is on, all the stones the customer brought are identified and
      nobody has stopped the order. */
  lemma AutoBillIff(w: World, order: nat, year: string, sequence: string)
    requires order < |w.orders| && WellFormed(w.orders[order].reference, year, sequence)
    ensures Grown(w, Step(w, AutoBill(order))) <==>
              && w.autoBill && Complete(w, order)
              && Billable(w, order, DocumentNumber("BILL", year, sequence, ""))
  {
    BillableIff(w, order, year, sequence);
    CompleteIff(w, order);
    if MayBill(w, order) {
      BillGrows(w, order);
    }
  }

  lemma RetrySteps(w: World, order: nat)
    requires order < |w.orders|
    ensures Step(w, Retry(order)) ==
            if Complete(w, order) && w.orders[order].stoneCount > 0 && MayBill(w, order) then CreateBill(w, order) else w
  {
    CompleteIff(w, order);
  }

  /** And by a retry, under the same conditions but for the automation. */
  lemma RetryIff(w: World, order: nat, year: string, sequence: string)
    requires order < |w.orders| && WellFormed(w.orders[order].reference, year, sequence)
    ensures Grown(w, Step(w, Retry(order))) <==>
              && Complete(w, order) && w.orders[order].stoneCount > 0
              && Billable(w, order, DocumentNumber("BILL", year, sequence, ""))
  {
    BillableIff(w, order, year, sequence);
    RetrySteps(w, order);
    if MayBill(w, order) {
      BillGrows(w, order);
    }
  }

  /** However it is asked for, billing is the same step. */
  lemma BillingIsOne(w: World, order: nat)
    ensures Grown(w, Step(w, Retry(order))) ==> Step(w, Retry(order)) == Step(w, Generate(order))
    ensures Grown(w, Step(w, AutoBill(order))) ==> Step(w, AutoBill(order)) == Step(w, Generate(order))
  {
  }

  /** A line of a bill: the stone's category fee, under its exact type if known and else its
      category. */
  predicate LineOf(w: World, item: Item) {
    && item.stone < |w.stones|
    && w.stones[item.stone].category in w.prices && w.prices[w.stones[item.stone].category] == Some(item.amount)
    && match w.stones[item.stone].kind
       case Some(kind) => item.description == OfKind(kind)
       case None => item.description == OfCategory(w.stones[item.stone].category)
  }

  lemma LinesMeaning(w: World, order: nat)
    requires AllPriced(w, OrderStones(w, order))
    ensures var items := Lines(w, OrderStones(w, order));
            && |items| == |LiveStones(w, order)|
            && (forall k :: 0 <= k < |items| ==> items[k].stone in LiveStones(w, order) && LineOf(w, items[k]))
            && (forall k, l :: 0 <= k < l < |items| ==> items[k].stone < items[l].stone)
  {
    var ids := OrderStones(w, order);
    OrderStonesMeaning(w, order);
    Laboratory.StonesOfAscend(w.stones, |w.stones|, order);
    forall k | 0 <= k < |ids| ensures ids[k] in LiveStones(w, order) {
      assert ids[k] in ids;
    }
  }

  /** The stone billed, with a ledger line unless it was already. */
  function Billed(st: Stone): Stone {
    if st.status == StoneStatus.Billed then st
    else st.(status := StoneStatus.Billed, history := st.history + [Entry(Some(st.status), StoneStatus.Billed)])
  }

  /** What billing makes: a pending bill with one line for each live stone, their sum for its
      total and no control number yet, and nothing else but what it does to the stones. */
  lemma BillingDoes(w: World, order: nat, year: string, sequence: string)
    requires order < |w.orders| && WellFormed(w.orders[order].reference, year, sequence)
    requires Grown(w, Step(w, Generate(order)))
    ensures var v := Step(w, Generate(order));
            && |v.bills| == |w.bills| + 1 && v.bills[..|w.bills|] == w.bills
            && v == w.(bills := v.bills, stones := v.stones)
            && var b := v.bills[|w.bills|];
               && b == Bill(order, DocumentNumber("BILL", year, sequence, ""), "", Sum(b.items), BillStatus.Pending, "", b.items)
               && |b.items| == |LiveStones(w, order)|
               && (forall k :: 0 <= k < |b.items| ==> b.items[k].stone in LiveStones(w, order) && LineOf(w, b.items[k]))
               && (forall k, l :: 0 <= k < l < |b.items| ==> b.items[k].stone < b.items[l].stone)
  {
    NumberSpelled(w.orders[order].reference, year, sequence, "BILL", "");
    LinesMeaning(w, order);
  }

  /** And the order's live stones are billed, no others. */
  lemma BillingMoves(w: World, order: nat)
    requires Grown(w, Step(w, Generate(order)))
    ensures var v := Step(w, Generate(order));
            && |v.stones| == |w.stones|
            && forall s :: 0 <= s < |w.stones| ==>
                             v.stones[s] == if s in LiveStones(w, order) then Billed(w.stones[s]) else w.stones[s]
  {
  }

  /** The sum of a bill's lines, taken line by line. */
  lemma SumMeaning(items: seq<Item>, item: Item)
    ensures Sum([]) == 0 && Sum(items + [item]) == Sum(items) + item.amount
  {
    assert (items + [item])[..|items|] == items;
  }

  // ---- Stones ----

  /** A stone is taken in exactly when a category is given or follows from the type, the type
      belongs to it, and the order has room. */
  lemma IntakeIff(w: World, order: nat, category: Option<nat>, kind: Option<nat>)
    requires order < |w.orders| && (kind.Some? ==> kind.value in w.kinds)
    ensures Grown(w, Step(w, Intake(order, category, kind))) <==>
              && (category.Some? || kind.Some?)
              && (category.Some? && kind.Some? ==> w.kinds[kind.value] == category.value)
              && |LiveStones(w, order)| < w.orders[order].stoneCount
  {
    OrderStonesMeaning(w, order);
  }

  /** The new stone: the next letter, the category given or the type's, received, unweighed,
      unreported, with its first ledger line. */
  lemma IntakeDoes(w: World, order: nat, category: Option<nat>, kind: Option<nat>)
    requires order < |w.orders| && (kind.Some? ==> kind.value in w.kinds)
    requires Grown(w, Step(w, Intake(order, category, kind)))
    ensures var chosen := if category.Some? then category.value else w.kinds[kind.value];
            Step(w, Intake(order, category, kind)) ==
            w.(stones := w.stones + [Stone(order, 65 + |LiveStones(w, order)|, chosen, kind, None, StoneStatus.Received,
                                           false, NoReport, [Entry(None, StoneStatus.Received)])])
  {
    OrderStonesMeaning(w, order);
    IntakeIff(w, order, category, kind);
  }

  /** The category a stone has after an edit, if the edit goes through. */
  function NewCategory(st: Stone, edit: Edit): nat {
    edit.category.GetOr(st.category)
  }

  /** An edit is saved exactly when automatic billing has not fixed a typed stone, a final report
      lets the user change it and keeps its category, a new category comes before billing, and
      a new type belongs to the category. */
  lemma EditIff(w: World, s: nat, edit: Edit, may: bool)
    requires s < |w.stones| && !w.stones[s].deleted
    ensures var st := w.stones[s];
            Edited(w, st, edit, may).Some? <==>
              && (w.autoBill && st.kind.Some? ==> NewCategory(st, edit) == st.category && edit.kind.GetOr(st.kind) == st.kind)
              && (st.report == Finalized ==> may && NewCategory(st, edit) == st.category)
              && (NewCategory(st, edit) != st.category ==> st.status in {StoneStatus.Received, StoneStatus.OnHold, StoneStatus.Cancelled})
              && (edit.kind.Some? && edit.kind.value.Some? ==>
                    edit.kind.value.value in w.kinds && w.kinds[edit.kind.value.value] == NewCategory(st, edit))
    ensures Edited(w, w.stones[s], edit, may).None? ==> Step(w, EditStone(s, edit, may)) == w
  {
  }

  /** What a saved edit does: the parts it names are saved, an old type that no longer fits a new
      category is cleared, everything else stays. */
  lemma EditDoes(w: World, s: nat, edit: Edit, may: bool)
    requires s < |w.stones| && !w.stones[s].deleted && Edited(w, w.stones[s], edit, may).Some?
    ensures var v, st := Step(w, EditStone(s, edit, may)), w.stones[s];
            && v == w.(stones := v.stones) && |v.stones| == |w.stones|
            && (forall i :: 0 <= i < |w.stones| && i != s ==> v.stones[i] == w.stones[i])
            && v.stones[s] == st.(category := v.stones[s].category, kind := v.stones[s].kind, weight := v.stones[s].weight)
            && v.stones[s].category == NewCategory(st, edit)
            && v.stones[s].weight == edit.weight.GetOr(st.weight)
            && (edit.kind.Some? ==> v.stones[s].kind == edit.kind.value)
            && (edit.kind.None? && v.stones[s].category == st.category ==> v.stones[s].kind == st.kind)
            && (edit.kind.None? && v.stones[s].category != st.category ==>
                  v.stones[s].kind == if st.kind.Some? && st.kind.value in w.kinds && w.kinds[st.kind.value] == NewCategory(st, edit)
                                      then st.kind else None)
  {
  }

  /** A stone can be binned exactly while no bill can have been priced from it, and not under
      automatic billing; it comes back as it was. */
  lemma BinnedIff(w: World, s: nat)
    requires s < |w.stones| && !w.stones[s].deleted
    ensures Step(w, DeleteStone(s)).stones[s].deleted <==>
              !w.autoBill && w.stones[s].status in {StoneStatus.Received, StoneStatus.OnHold, StoneStatus.Cancelled}
    ensures Step(w, DeleteStone(s)).stones[s].deleted ==>
              Step(Step(w, DeleteStone(s)), RestoreStone(s)) == w
  {
    var v := Step(w, DeleteStone(s));
    if v.stones[s].deleted {
      assert Step(v, RestoreStone(s)).stones == w.stones;
    }
  }

  /** A binned stone is out of reach: it is not edited, moved, certified or binned again. */
  lemma BinnedRests(w: World, s: nat, edit: Edit, may: bool, to: StoneStatus)
    requires s < |w.stones| && w.stones[s].deleted
    ensures Step(w, EditStone(s, edit, may)) == w && Step(w, Transition(s, to)) == w && Step(w, Certify(s)) == w
    ensures Step(w, DeleteStone(s)) == w
  {
    assert w.stones[s := w.stones[s].(deleted := true)] == w.stones;
  }

  // ---- Orders and the gateway ----

  /** An order can be put on hold and released at any time, and cancelled unless its bill is
      paid. */
  lemma HoldIff(w: World, order: nat, hold: OrderHold)
    requires order < |w.orders| && w.orders[order].hold != hold
    ensures Step(w, HoldOrder(order, hold)) != w <==> !(hold == OrderHold.Cancelled && PaidFor(w, order))
    ensures Step(w, HoldOrder(order, hold)) != w ==>
              Step(w, HoldOrder(order, hold)) == w.(orders := w.orders[order := w.orders[order].(hold := hold)])
  {
    PaidForMeaning(w, order);
    assert w.orders[order := w.orders[order].(hold := hold)][order] != w.orders[order];
  }

  /** An answer to a submission always leaves its code, and a control number only with success,
      unless the gateway is still pending; if that number is another bill's, nothing is saved. */
  lemma SubmittedDoes(w: World, i: nat, success: bool, granted: Option<string>, code: string)
    requires i < |w.bills|
    ensures var v, b := Step(w, Submitted(i, success, granted, code)), w.bills[i];
            var given := success && granted.Some? && granted.value != "PENDING";
            && (given && granted.value != "" && (exists k :: 0 <= k < |w.bills| && k != i && w.bills[k].controlNumber == granted.value)
                ==> v == w)
            && (!(given && granted.value != "" && exists k :: 0 <= k < |w.bills| && k != i && w.bills[k].controlNumber == granted.value)
                ==> v == w.(bills := w.bills[i := b.(statusCode := code,
                                                     controlNumber := if given then granted.value else b.controlNumber)]))
  {
  }

  /** A callback gives a bill its control number exactly on code 7101 with a real number that no
      other bill has. */
  lemma ResponseDoes(w: World, i: nat, control: string, code: string)
    requires i < |w.bills| && forall k :: i < k < |w.bills| ==> w.bills[k].number != w.bills[i].number
    ensures Step(w, BillResponse(w.bills[i].number, control, code)) ==
            if code == "7101" && control != "" && control != "0" &&
               forall k :: 0 <= k < |w.bills| && k != i ==> w.bills[k].controlNumber != control
            then w.(bills := w.bills[i := w.bills[i].(controlNumber := control, statusCode := code)]) else w
  {
    NewestMeaning(w.bills, |w.bills|, (b: Bill) => b.number == w.bills[i].number);
  }

  /** A cancellation callback always leaves its code, and cancels exactly on 7283. */
  lemma CancelDoes(w: World, i: nat, code: string)
    requires i < |w.bills| && forall k :: i < k < |w.bills| ==> w.bills[k].number != w.bills[i].number
    ensures Step(w, CancelCallback(w.bills[i].number, code)) ==
            w.(bills := w.bills[i := w.bills[i].(statusCode := code, status :=
                 if code == "7283" then BillStatus.Cancelled else w.bills[i].status)])
    ensures Step(w, CancelConfirmed(i)) == Step(w, CancelCallback(w.bills[i].number, "7283"))
  {
    NewestMeaning(w.bills, |w.bills|, (b: Bill) => b.number == w.bills[i].number);
  }

  /** A binned certificate keeps its place on the stone; it comes back exactly if no live one
      has taken its number. */
  lemma CertificateBinDoes(w: World, c: nat)
    requires c < |w.certificates|
    ensures Step(w, DeleteCertificate(c)) == w.(certificates := w.certificates[c := w.certificates[c].(deleted := true)])
    ensures var v := Step(w, RestoreCertificate(c));
            v == if forall k :: 0 <= k < |w.certificates| && k != c && !w.certificates[k].deleted ==>
                                  w.certificates[k].number != w.certificates[c].number
                 then w.(certificates := w.certificates[c := w.certificates[c].(deleted := false)]) else w
  {
  }

  // ---- Payments ----

  predicate Numbered(b: Bill, number: string) { b.number == number }

  predicate Controlled(b: Bill, control: string) { b.controlNumber == control }

  /** A payment is for the newest bill with the number it carries; only when no bill has that
      number, for the newest with its control number; and for none when there is neither. */
  lemma ResolveMeaning(w: World, txn: Txn, i: nat)
    requires i < |w.bills|
    ensures Resolve(w, txn) == Some(i) <==>
              || (&& Numbered(w.bills[i], txn.billNumber)
                  && forall k :: i < k < |w.bills| ==> !Numbered(w.bills[k], txn.billNumber))
              || (&& (forall k :: 0 <= k < |w.bills| ==> !Numbered(w.bills[k], txn.billNumber))
                  && Controlled(w.bills[i], txn.controlNumber)
                  && forall k :: i < k < |w.bills| ==> !Controlled(w.bills[k], txn.controlNumber))
    ensures Resolve(w, txn).None? <==>
              forall k :: 0 <= k < |w.bills| ==>
                            !Numbered(w.bills[k], txn.billNumber) && !Controlled(w.bills[k], txn.controlNumber)
  {
    NewestMeaning(w.bills, |w.bills|, (b: Bill) => b.number == txn.billNumber);
    NewestMeaning(w.bills, |w.bills|, (b: Bill) => b.controlNumber == txn.controlNumber);
  }
}
