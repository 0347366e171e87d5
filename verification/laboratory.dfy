/** The services as they run: each works through the tables in place, and each is proved
    to take exactly the atomic step its record names. */
module Laboratory {
  import opened Common
  import opened Gems
  import opened Records
  import References

  /** Why an order cannot be billed yet. */
  datatype Blocker = HasBill | NoStones | Unpriced(category: nat)

  /** A previewed line: the stone, what it would be called, and its fee if one is set. */
  datatype Quote = Quote(stone: nat, description: Description, amount: Option<int>)

  /** The sum of the fees that are set on the first n lines. */
  function QuotedTotal(quotes: seq<Quote>, n: nat): int
    requires n <= |quotes|
  {
    if n == 0 then 0 else QuotedTotal(quotes, n - 1) + quotes[n - 1].amount.GetOr(0)
  }

  predicate Ascending(ids: seq<nat>) {
    forall k, l :: 0 <= k < l < |ids| ==> ids[k] < ids[l]
  }

  /** Moving the first n of a list of stones. */
  function MoveSome(stones: seq<Stone>, ids: seq<nat>, n: nat, to: StoneStatus): (r: seq<Stone>)
    requires n <= |ids| && forall k :: 0 <= k < |ids| ==> ids[k] < |stones|
    ensures |r| == |stones|
  {
    if n == 0 then stones
    else
      var before := MoveSome(stones, ids, n - 1, to);
      before[ids[n - 1] := Moved(before[ids[n - 1]], to)]
  }

  lemma {:induction false} MoveSomeMeaning(stones: seq<Stone>, ids: seq<nat>, n: nat, to: StoneStatus, i: nat)
    requires n <= |ids| && i < |stones| && forall k :: 0 <= k < |ids| ==> ids[k] < |stones|
    requires Ascending(ids)
    ensures MoveSome(stones, ids, n, to)[i] == if i in ids[..n] then Moved(stones[i], to) else stones[i]
  {
    if n > 0 {
      MoveSomeMeaning(stones, ids, n - 1, to, i);
      assert ids[..n] == ids[..n - 1] + [ids[n - 1]];
    }
  }

  lemma NotYetMoved(stones: seq<Stone>, ids: seq<nat>, i: nat, to: StoneStatus)
    requires i < |ids| && Ascending(ids) && forall k :: 0 <= k < |ids| ==> ids[k] < |stones|
    ensures MoveSome(stones, ids, i, to)[ids[i]] == stones[ids[i]]
  {
    MoveSomeMeaning(stones, ids, i, to, ids[i]);
    assert ids[i] !in ids[..i];
  }

  lemma {:induction false} StonesOfAscend(stones: seq<Stone>, n: nat, order: nat)
    requires n <= |stones|
    ensures Ascending(StonesOf(stones, n, order))
  {
    if n > 0 {
      StonesOfAscend(stones, n - 1, order);
    }
  }

  /** Moving the listed stones of an order one by one moves the order. */
  lemma MoveAllIsMoveOrder(stones: seq<Stone>, order: nat, to: StoneStatus)
    ensures var ids := StonesOf(stones, |stones|, order);
            MoveSome(stones, ids, |ids|, to) == MoveOrder(stones, order, to)
  {
    var ids := StonesOf(stones, |stones|, order);
    StonesOfAscend(stones, |stones|, order);
    var moved := MoveSome(stones, ids, |ids|, to);
    assert ids[..|ids|] == ids;
    forall i | 0 <= i < |stones| ensures moved[i] == MoveOrder(stones, order, to)[i] {
      MoveSomeMeaning(stones, ids, |ids|, to, i);
    }
  }

  function Quotes(w: World, ids: seq<nat>): (r: seq<Quote>)
    requires forall k :: 0 <= k < |ids| ==> ids[k] < |w.stones|
    ensures |r| == |ids|
  {
    seq(|ids|, k requires 0 <= k < |ids| =>
      Quote(ids[k], Describe(w.stones[ids[k]]), PriceOf(w, w.stones[ids[k]])))
  }

  /** A blocker for each of the first n stones without a fee. */
  function Missing(w: World, ids: seq<nat>, n: nat): seq<Blocker>
    requires n <= |ids| && forall k :: 0 <= k < |ids| ==> ids[k] < |w.stones|
  {
    if n == 0 then []
    else
      var st := w.stones[ids[n - 1]];
      Missing(w, ids, n - 1) + if PriceOf(w, st).None? then [Unpriced(st.category)] else []
  }

  lemma PreviewStep(w: World, ids: seq<nat>, i: nat)
    requires i < |ids| && forall k :: 0 <= k < |ids| ==> ids[k] < |w.stones|
    ensures var all, st := Quotes(w, ids), w.stones[ids[i]];
            && all[..i + 1] == all[..i] + [Quote(ids[i], Describe(st), PriceOf(w, st))]
            && QuotedTotal(all, i + 1) == QuotedTotal(all, i) + PriceOf(w, st).GetOr(0)
            && Missing(w, ids, i + 1) ==
               Missing(w, ids, i) + if PriceOf(w, st).None? then [Unpriced(st.category)] else []
  {
  }

  function Blockers(w: World, order: nat): seq<Blocker> {
    var ids := OrderStones(w, order);
    (if BillFor(w, order).Some? then [HasBill] else []) +
    (if ids == [] then [NoStones] else []) +
    Missing(w, ids, |ids|)
  }

  lemma {:induction false} MissingMeaning(w: World, ids: seq<nat>, n: nat)
    requires n <= |ids| && forall k :: 0 <= k < |ids| ==> ids[k] < |w.stones|
    ensures Missing(w, ids, n) == [] <==> forall k :: 0 <= k < n ==> PriceOf(w, w.stones[ids[k]]).Some?
    ensures forall b :: b in Missing(w, ids, n) <==>
                          b.Unpriced? && exists k :: 0 <= k < n && PriceOf(w, w.stones[ids[k]]).None? &&
                                                     w.stones[ids[k]].category == b.category
  {
    if n > 0 {
      MissingMeaning(w, ids, n - 1);
    }
  }

  /** The preview's lines and total are the bill's. */
  predicate Agrees(quotes: seq<Quote>, total: int, b: Bill) {
    && |quotes| == |b.items| && total == b.total
    && forall k :: 0 <= k < |quotes| ==>
                     && quotes[k].stone == b.items[k].stone && quotes[k].description == b.items[k].description
                     && quotes[k].amount == Some(b.items[k].amount)
  }

  /** The preview and the bill agree: when the reference is well formed and its number not yet
      taken, nothing blocks exactly when billing would succeed, and then at these lines and
      this total. Nothing else can stand between them. */
  lemma PreviewAgrees(w: World, order: nat)
    requires order < |w.orders|
    ensures MayBill(w, order) <==>
            && Blockers(w, order) == []
            && BillNumber(w, order).Some? && NumberFree(w, BillNumber(w, order).value)
    ensures MayBill(w, order) ==>
              var quotes := Quotes(w, OrderStones(w, order));
              Agrees(quotes, QuotedTotal(quotes, |quotes|), CreateBill(w, order).bills[|w.bills|])
  {
    var ids := OrderStones(w, order);
    MissingMeaning(w, ids, |ids|);
    if MayBill(w, order) {
      var quotes := Quotes(w, ids);
      QuotesSum(quotes, Lines(w, ids), |ids|);
    }
  }

  /** Each blocker means what it says. */
  lemma BlockersMeaning(w: World, order: nat, category: nat)
    ensures HasBill in Blockers(w, order) <==> exists i :: 0 <= i < |w.bills| && w.bills[i].order == order
    ensures NoStones in Blockers(w, order) <==> forall s :: 0 <= s < |w.stones| ==> !LiveIn(w.stones[s], order)
    ensures Unpriced(category) in Blockers(w, order) <==>
              && (category in w.prices ==> w.prices[category].None?)
              && exists s :: 0 <= s < |w.stones| && LiveIn(w.stones[s], order) && w.stones[s].category == category
  {
    var ids := OrderStones(w, order);
    MissingMeaning(w, ids, |ids|);
    UnpricedMeaning(w, order, category);
    NewestMeaning(w.bills, |w.bills|, (b: Bill) => b.order == order);
    if ids != [] {
      assert ids[0] in ids;
    }
  }

  lemma UnpricedMeaning(w: World, order: nat, category: nat)
    ensures var ids := OrderStones(w, order);
            Unpriced(category) in Missing(w, ids, |ids|) <==>
              && (category in w.prices ==> w.prices[category].None?)
              && exists s :: 0 <= s < |w.stones| && LiveIn(w.stones[s], order) && w.stones[s].category == category
  {
    var ids := OrderStones(w, order);
    MissingMeaning(w, ids, |ids|);
    if s :| 0 <= s < |w.stones| && LiveIn(w.stones[s], order) && w.stones[s].category == category {
      assert s in ids;
    }
    if Unpriced(category) in Missing(w, ids, |ids|) {
      var k :| 0 <= k < |ids| && PriceOf(w, w.stones[ids[k]]).None? && w.stones[ids[k]].category == category;
      assert ids[k] in ids;
    }
  }

  /** The bills once the first n of the listed stones have their lines on one. */
  function Relined(w: World, bill: nat, ids: seq<nat>, n: nat): (bills: seq<Bill>)
    requires bill < |w.bills| && n <= |ids| && AllPriced(w, ids[..n])
    ensures |bills| == |w.bills|
  {
    w.bills[bill := w.bills[bill].(items := Lines(w, ids[..n]))]
  }

  lemma NextRelined(w: World, bill: nat, ids: seq<nat>, i: nat)
    requires bill < |w.bills| && i < |ids| && AllPriced(w, ids[..i]) && AllPriced(w, ids[..i + 1])
    requires ids[i] < |w.stones| && PriceOf(w, w.stones[ids[i]]).Some?
    ensures var now, st := Relined(w, bill, ids, i), w.stones[ids[i]];
            var line := Item(ids[i], Describe(st), PriceOf(w, st).value);
            Relined(w, bill, ids, i + 1) == now[bill := now[bill].(items := now[bill].items + [line])]
  {
    NextLine(w, ids, i);
  }

  class Services {
    var autoBill: bool
    var orders: seq<Order>
    var stones: seq<Stone>
    var bills: seq<Bill>
    var payments: seq<Payment>
    var certificates: seq<Certificate>
    var prices: map<nat, Option<int>>
    var kinds: map<nat, nat>

    ghost function State(): World
      reads this
    {
      World(autoBill, orders, stones, bills, payments, certificates, prices, kinds)
    }

    /** Move a stone and write its ledger line; a stone already there is left alone. */
    method TransitionStone(s: nat, to: StoneStatus)
      requires s < |stones|
      modifies this`stones
      ensures |stones| == |old(stones)| && stones == old(stones)[s := Moved(old(stones)[s], to)]
      ensures stones[s].status == to
      ensures old(stones)[s].status == to ==> stones == old(stones)
      ensures old(stones)[s].status != to ==>
                stones[s].history == old(stones)[s].history + [Entry(Some(old(stones)[s].status), to)]
    {
      if stones[s].status == to {
        assert stones[s := stones[s]] == stones;
        return;
      }
      var from := stones[s].status;
      stones := stones[s := stones[s].(status := to)];
      stones := stones[s := stones[s].(history := stones[s].history + [Entry(Some(from), to)])];
    }

    /** Take in the next stone of an order that is not yet full. */
    method AddStone(order: nat, category: Option<nat>, kind: Option<nat>) returns (added: Option<nat>)
      requires order < |orders| && (kind.Some? ==> kind.value in kinds)
      modifies this`stones
      ensures added.Some? <==> MayAddStone(old(State()), order, category, kind)
      ensures State() == if added.Some? then Records.AddStone(old(State()), order, category, kind) else old(State())
      ensures added.Some? ==>
                && added.value == |old(stones)| && stones[added.value].status == StoneStatus.Received
                && stones[added.value].mark == 65 + |OrderStones(old(State()), order)|
                && |OrderStones(old(State()), order)| < orders[order].stoneCount
    {
      var chosen := category;
      if category.None? && kind.Some? {
        chosen := Some(kinds[kind.value]);
      }
      if chosen.None? {
        return None;
      }
      if kind.Some? && kinds[kind.value] != chosen.value {
        return None;
      }
      var identified := |StonesOf(stones, |stones|, order)|;
      if identified >= orders[order].stoneCount {
        return None;
      }
      added := Some(|stones|);
      stones := stones + [Records.Received(order, 65 + identified, chosen.value, kind)];
    }

    /** Edit a stone, or refuse and leave it. Its status and ledger never change here, and
        its category only while no bill can have been priced from it. */
    method UpdateStone(s: nat, edit: Edit, mayEditFinal: bool) returns (saved: bool)
      requires s < |stones|
      modifies this`stones
      ensures saved <==> Edited(old(State()), old(stones)[s], edit, mayEditFinal).Some?
      ensures |stones| == |old(stones)|
      ensures stones == if saved then old(stones)[s := Edited(old(State()), old(stones)[s], edit, mayEditFinal).value]
                        else old(stones)
      ensures stones[s].status == old(stones)[s].status && stones[s].history == old(stones)[s].history
      ensures stones[s].category != old(stones)[s].category ==>
                Retypeable(old(stones)[s].status) && old(stones)[s].report != Finalized
    {
      var st := stones[s];
      var recategorised := edit.category.Some? && edit.category.value != st.category;
      var retyped := edit.kind.Some? && edit.kind.value != st.kind;
      if autoBill && st.kind.Some? && (recategorised || retyped) {
        return false;
      }
      if st.report == Finalized {
        if !mayEditFinal || recategorised {
          return false;
        }
      }
      if recategorised {
        if !Retypeable(st.status) {
          return false;
        }
        st := st.(category := edit.category.value);
        if edit.kind.None? && st.kind.Some? && !(st.kind.value in kinds && kinds[st.kind.value] == st.category) {
          st := st.(kind := None);
        }
      }
      if edit.kind.Some? {
        if edit.kind.value.Some? && !(edit.kind.value.value in kinds && kinds[edit.kind.value.value] == st.category) {
          return false;
        }
        st := st.(kind := edit.kind.value);
      }
      if edit.weight.Some? {
        st := st.(weight := edit.weight.value);
      }
      stones := stones[s := st];
      saved := true;
    }

    /** One line and one possible blocker per stone, and the total over the priced ones. */
    method PriceLines(ids: seq<nat>) returns (quotes: seq<Quote>, total: int, missing: seq<Blocker>)
      requires forall k :: 0 <= k < |ids| ==> ids[k] < |stones|
      ensures quotes == Quotes(State(), ids) && total == QuotedTotal(quotes, |quotes|)
      ensures missing == Missing(State(), ids, |ids|)
    {
      ghost var w := State();
      ghost var all := Quotes(w, ids);
      quotes, total, missing := [], 0, [];
      for i := 0 to |ids|
        invariant quotes == all[..i] && total == QuotedTotal(all, i)
        invariant missing == Missing(w, ids, i)
      {
        var st := stones[ids[i]];
        var amount := if st.category in prices then prices[st.category] else None;
        PreviewStep(w, ids, i);
        missing := missing + if amount.None? then [Unpriced(st.category)] else [];
        total := total + amount.GetOr(0);
        quotes := quotes + [Quote(ids[i], Describe(st), amount)];
      }
    }

    /** Price an order without writing anything. */
    method PreviewBill(order: nat) returns (quotes: seq<Quote>, total: int, blockers: seq<Blocker>)
      requires order < |orders|
      ensures quotes == Quotes(State(), OrderStones(State(), order))
      ensures total == QuotedTotal(quotes, |quotes|)
      ensures blockers == Blockers(State(), order)
    {
      var ids := StonesOf(stones, |stones|, order);
      blockers := [];
      if Newest(bills, |bills|, (b: Bill) => b.order == order).Some? {
        blockers := blockers + [HasBill];
      }
      if ids == [] {
        blockers := blockers + [NoStones];
      }
      var missing;
      quotes, total, missing := PriceLines(ids);
      blockers := blockers + missing;
    }

    /** One line for a stone at its category's fee, and the stone moved; refused without one. */
    method BillStone(bill: nat, s: nat) returns (price: Option<int>)
      requires bill < |bills| && s < |stones|
      modifies this`bills, this`stones
      ensures price == PriceOf(old(State()), old(stones)[s])
      ensures price.None? ==> bills == old(bills) && stones == old(stones)
      ensures price.Some? ==>
                var line := Item(s, Describe(old(stones)[s]), price.value);
                && bills == old(bills)[bill := old(bills)[bill].(items := old(bills)[bill].items + [line])]
                && stones == old(stones)[s := Moved(old(stones)[s], StoneStatus.Billed)]
    {
      var st := stones[s];
      price := if st.category in prices then prices[st.category] else None;
      if price.None? {
        return;
      }
      bills := bills[bill := bills[bill].(items := bills[bill].items + [Item(s, Describe(st), price.value)])];
      TransitionStone(s, StoneStatus.Billed);
    }

    /** Bill the listed stones, one at a time, and total the lines. Stops at the first stone
        without a fee. */
    method BillStones(bill: nat, ids: seq<nat>) returns (total: Option<int>)
      requires bill < |bills| && bills[bill].items == [] && Ascending(ids)
      requires forall k :: 0 <= k < |ids| ==> ids[k] < |stones|
      modifies this`bills, this`stones
      ensures total.Some? <==> AllPriced(old(State()), ids)
      ensures total.Some? ==>
                && total.value == Sum(Lines(old(State()), ids))
                && bills == old(bills)[bill := old(bills)[bill].(items := Lines(old(State()), ids))]
                && stones == MoveSome(old(stones), ids, |ids|, StoneStatus.Billed)
    {
      ghost var w := State();
      var sum := 0;
      assert bills == Relined(w, bill, ids, 0);
      for i := 0 to |ids|
        invariant AllPriced(w, ids[..i]) && sum == Sum(Lines(w, ids[..i]))
        invariant bills == Relined(w, bill, ids, i)
        invariant stones == MoveSome(w.stones, ids, i, StoneStatus.Billed)
      {
        NotYetMoved(w.stones, ids, i, StoneStatus.Billed);
        var price := BillStone(bill, ids[i]);
        if price.None? {
          Unpriceable(w, ids, i);
          return None;
        }
        NextLine(w, ids, i);
        NextRelined(w, bill, ids, i);
        sum := sum + price.value;
      }
      assert ids[..|ids|] == ids;
      total := Some(sum);
    }

    /** The number a new bill of the order would take, or a refusal: the order has a bill, has
        no stones, has a malformed reference, or its number is taken. */
    method NumberFor(order: nat, ids: seq<nat>) returns (number: Option<string>)
      requires order < |orders| && ids == OrderStones(State(), order)
      ensures number.Some? <==> && BillFor(State(), order).None? && ids != [] && BillNumber(State(), order).Some?
                                && NumberFree(State(), BillNumber(State(), order).value)
      ensures number.Some? ==> number == BillNumber(State(), order)
    {
      if Newest(bills, |bills|, (b: Bill) => b.order == order).Some? || ids == [] {
        return None;
      }
      number := References.ReferenceForOrder(orders[order].reference, "BILL", None);
      if number.Some? && exists i :: 0 <= i < |bills| && bills[i].number == number.value {
        number := None;
      }
    }

    /** Create the bill, its lines and its total, and mark the stones billed; any refusal
        rolls the whole transaction back. */
    method CreateLocalBill(order: nat) returns (bill: Option<nat>)
      requires order < |orders|
      modifies this`bills, this`stones
      ensures bill.Some? <==> MayBill(old(State()), order)
      ensures State() == if bill.Some? then CreateBill(old(State()), order) else old(State())
      ensures bill.Some? ==> bill.value == |old(bills)|
    {
      var ids := StonesOf(stones, |stones|, order);
      StonesOfAscend(stones, |stones|, order);
      var number := NumberFor(order, ids);
      if number.None? {
        return None;
      }
      var oldBills, oldStones := bills, stones;
      var index := |bills|;
      bills := bills + [Bill(order, number.value, "", 0, BillStatus.Pending, "", [])];
      ghost var w := State();
      var total := BillStones(index, ids);
      SamePrices(old(State()), w, ids);
      if total.None? {
        bills, stones := oldBills, oldStones;
        return None;
      }
      bills := bills[index := bills[index].(total := total.value)];
      Filled(oldBills, w.bills[index], Lines(w, ids), total.value);
      MoveAllIsMoveOrder(oldStones, order, StoneStatus.Billed);
      bill := Some(index);
      assert stones == CreateBill(old(State()), order).stones;
    }
  }

  lemma Filled(bills: seq<Bill>, b: Bill, items: seq<Item>, total: int)
    ensures var grown := bills + [b];
            grown[|bills| := b.(items := items)][|bills| := b.(items := items, total := total)] ==
            bills + [b.(items := items, total := total)]
  {
  }

  lemma SamePrices(w: World, v: World, ids: seq<nat>)
    requires w.stones == v.stones && w.prices == v.prices
    ensures AllPriced(w, ids) <==> AllPriced(v, ids)
    ensures AllPriced(w, ids) ==> Lines(w, ids) == Lines(v, ids)
  {
  }

  lemma {:induction false} QuotesSum(quotes: seq<Quote>, items: seq<Item>, n: nat)
    requires n <= |quotes| == |items|
    requires forall k :: 0 <= k < |items| ==> quotes[k].amount == Some(items[k].amount)
    ensures QuotedTotal(quotes, n) == Sum(items[..n])
    ensures n == |items| ==> QuotedTotal(quotes, n) == Sum(items)
  {
    assert items[..|items|] == items;
    if n > 0 {
      QuotesSum(quotes, items, n - 1);
      assert items[..n][..n - 1] == items[..n - 1];
    }
  }

  lemma NextLine(w: World, ids: seq<nat>, i: nat)
    requires i < |ids| && AllPriced(w, ids[..i]) && ids[i] < |w.stones| && PriceOf(w, w.stones[ids[i]]).Some?
    ensures AllPriced(w, ids[..i + 1])
    ensures var st, lines := w.stones[ids[i]], Lines(w, ids[..i]);
            var line := Item(ids[i], Describe(st), PriceOf(w, st).value);
            && Lines(w, ids[..i + 1]) == lines + [line]
            && Sum(lines + [line]) == Sum(lines) + line.amount
  {
    var lines := Lines(w, ids[..i]);
    var line := Item(ids[i], Describe(w.stones[ids[i]]), PriceOf(w, w.stones[ids[i]]).value);
    assert ids[..i + 1] == ids[..i] + [ids[i]];
    assert (lines + [line])[..|lines|] == lines;
    assert Lines(w, ids[..i + 1]) == lines + [line];
  }

  lemma Unpriceable(w: World, ids: seq<nat>, i: nat)
    requires i < |ids| && ids[i] < |w.stones| && PriceOf(w, w.stones[ids[i]]).None?
    ensures !AllPriced(w, ids)
  {
  }
}
