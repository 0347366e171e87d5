/** Where an order has got to, stated twice: derived from the order, and as a filter
    over a table of orders. */
module Stages {
  import opened Common
  import opened Gems

  datatype Config = Config(autoBill: bool, ackCodes: set<string>)

  /** Soft-deleted stones stay in the table; the default manager hides them. */
  datatype StoneRow = StoneRow(status: StoneStatus, deleted: bool)

  datatype BillRow = BillRow(status: BillStatus, controlNumber: string, statusCode: string)

  datatype Order = Order(hold: OrderHold, stoneCount: nat, stones: seq<StoneRow>, bill: Option<BillRow>)

  /** The stones the default manager returns. */
  function Live(stones: seq<StoneRow>): (live: seq<StoneRow>)
    ensures |live| <= |stones|
    ensures forall st :: st in live <==> st in stones && !st.deleted
  {
    if stones == [] then []
    else (if stones[0].deleted then [] else [stones[0]]) + Live(stones[1..])
  }

  ghost function Statuses(stones: seq<StoneRow>): set<StoneStatus> {
    set st | st in stones :: st.status
  }

  predicate RejectedSubmission(cfg: Config, bill: BillRow) {
    bill.status == BillStatus.Pending && bill.controlNumber == "" && bill.statusCode !in cfg.ackCodes
  }

  // ---- The sequential derivation ----

  /** Once paid: the first finished stage whose status, or one before it in the list,
      every stone has. */
  ghost function FinishedStage(statuses: set<StoneStatus>): OrderStage {
    if statuses <= {StoneStatus.Collected} then OrderStage.Collected
    else if statuses <= {StoneStatus.ReadyForCollection, StoneStatus.Collected} then
      OrderStage.ReadyForCollection
    else if statuses <= {StoneStatus.Certified, StoneStatus.Collected, StoneStatus.ReadyForCollection} then
      OrderStage.Certified
    else InFindings
  }

  ghost function DerivedStage(cfg: Config, o: Order): OrderStage {
    if o.hold == OrderHold.Cancelled then OrderStage.Cancelled
    else if o.hold == OrderHold.OnHold then OrderStage.OnHold
    else
      var stones := Live(o.stones);
      var statuses := Statuses(stones);
      if stones == [] then Empty
      else if StoneStatus.Cancelled in statuses then OrderStage.Cancelled
      else if StoneStatus.OnHold in statuses then OrderStage.OnHold
      else if |stones| < o.stoneCount then Identifying
      else if o.bill.None? then (if cfg.autoBill then BillingAttention else ReadyToBill)
      else
        var bill := o.bill.value;
        if cfg.autoBill && RejectedSubmission(cfg, bill) then BillingAttention
        else if bill.status == PartiallyPaid then PartPaid
        else if bill.status != BillStatus.Paid then AwaitingPayment
        else FinishedStage(statuses)
  }

  // ---- The filter ----

  ghost predicate HasStoneAt(o: Order, status: StoneStatus) {
    exists st :: st in o.stones && !st.deleted && st.status == status
  }

  /** A stone outside the set; the filter negates this to say every stone is within. */
  ghost predicate StoneOutside(o: Order, statuses: set<StoneStatus>) {
    exists st :: st in o.stones && !st.deleted && st.status !in statuses
  }

  function AtOrBeyond(stage: OrderStage): Option<set<StoneStatus>> {
    match stage
    case Collected => Some({StoneStatus.Collected})
    case ReadyForCollection => Some({StoneStatus.Collected, StoneStatus.ReadyForCollection})
    case Certified =>
      Some({StoneStatus.Collected, StoneStatus.ReadyForCollection, StoneStatus.Certified})
    case _ => None
  }

  /** Whether a strictly more advanced finished stage already holds. */
  ghost predicate Beyond(o: Order, stage: OrderStage)
    requires AtOrBeyond(stage).Some?
  {
    exists other: OrderStage ::
      && AtOrBeyond(other).Some?
      && |AtOrBeyond(other).value| < |AtOrBeyond(stage).value|
      && !StoneOutside(o, AtOrBeyond(other).value)
  }

  /** The filter's condition on one order. Its stone count is a raw join, so it counts
      soft-deleted rows; its stone subqueries do not see them. */
  ghost predicate Selected(cfg: Config, stage: OrderStage, o: Order) {
    var held, cancelled := o.hold == OrderHold.OnHold, o.hold == OrderHold.Cancelled;
    var stoneCancelled := HasStoneAt(o, StoneStatus.Cancelled);
    var stoneHeld := HasStoneAt(o, StoneStatus.OnHold);
    var identified := |o.stones|;
    var running := o.hold == Active && !stoneCancelled && !stoneHeld;
    var hasStones := running && identified > 0;
    var full := hasStones && identified >= o.stoneCount;
    var rejected := o.bill.Some? && RejectedSubmission(cfg, o.bill.value);
    var billed := full && o.bill.Some? && !(cfg.autoBill && rejected);
    var paid := billed && o.bill.value.status == BillStatus.Paid;
    match stage
    case Cancelled => cancelled || (!held && stoneCancelled)
    case OnHold => held || (!cancelled && !stoneCancelled && stoneHeld)
    case Empty => running && identified == 0
    case Identifying => hasStones && identified < o.stoneCount
    case ReadyToBill => !cfg.autoBill && full && o.bill.None?
    case BillingAttention => cfg.autoBill && full && (o.bill.None? || rejected)
    case PartPaid => billed && o.bill.value.status == PartiallyPaid
    case AwaitingPayment =>
      billed && o.bill.value.status != PartiallyPaid && o.bill.value.status != BillStatus.Paid
    case InFindings => paid && StoneOutside(o, AtOrBeyond(OrderStage.Certified).value)
    case _ => paid && !StoneOutside(o, AtOrBeyond(stage).value) && !Beyond(o, stage)
  }

  ghost function Filter(orders: seq<Order>, keep: Order -> bool): (kept: seq<Order>) {
    if orders == [] then []
    else (if keep(orders[0]) then [orders[0]] else []) + Filter(orders[1..], keep)
  }

  /** An unknown stage name leaves the table alone. */
  ghost function OrdersAtStage(cfg: Config, orders: seq<Order>, stage: Option<OrderStage>): seq<Order> {
    match stage
    case None => orders
    case Some(s) => Filter(orders, o => Selected(cfg, s, o))
  }

  // ---- Agreement ----

  ghost predicate Agrees(cfg: Config, o: Order) {
    forall stage :: Selected(cfg, stage, o) <==> DerivedStage(cfg, o) == stage
  }

  /** A hold, or a parked live stone, decides the stage before any counting. */
  ghost predicate Stopped(o: Order) {
    o.hold != Active || HasStoneAt(o, StoneStatus.Cancelled) || HasStoneAt(o, StoneStatus.OnHold)
  }

  /** Counting soft-deleted stones changes neither "none" nor "too few". */
  predicate CountsAgree(o: Order) {
    var live, raw := |Live(o.stones)|, |o.stones|;
    (live == 0 <==> raw == 0) && (live < o.stoneCount <==> raw < o.stoneCount)
  }

  /** The derivation with the number of stones supplied; everything else as it is. */
  ghost function StageCounting(cfg: Config, o: Order, count: nat): OrderStage {
    if o.hold == OrderHold.Cancelled then OrderStage.Cancelled
    else if o.hold == OrderHold.OnHold then OrderStage.OnHold
    else if HasStoneAt(o, StoneStatus.Cancelled) then OrderStage.Cancelled
    else if HasStoneAt(o, StoneStatus.OnHold) then OrderStage.OnHold
    else if count == 0 then Empty
    else if count < o.stoneCount then Identifying
    else if o.bill.None? then (if cfg.autoBill then BillingAttention else ReadyToBill)
    else if cfg.autoBill && RejectedSubmission(cfg, o.bill.value) then BillingAttention
    else if o.bill.value.status == PartiallyPaid then PartPaid
    else if o.bill.value.status != BillStatus.Paid then AwaitingPayment
    else FinishedStage(Statuses(Live(o.stones)))
  }

  lemma OutsideIsNotSubset(o: Order, statuses: set<StoneStatus>)
    ensures StoneOutside(o, statuses) <==> !(Statuses(Live(o.stones)) <= statuses)
  {
    if StoneOutside(o, statuses) {
      var st :| st in o.stones && !st.deleted && st.status !in statuses;
      assert st in Live(o.stones);
      assert st.status in Statuses(Live(o.stones));
    }
    if !(Statuses(Live(o.stones)) <= statuses) {
      var s :| s in Statuses(Live(o.stones)) && s !in statuses;
      var st :| st in Live(o.stones) && st.status == s;
      assert st in o.stones && !st.deleted;
    }
  }

  lemma HasStoneIsMember(o: Order, status: StoneStatus)
    ensures HasStoneAt(o, status) <==> status in Statuses(Live(o.stones))
  {
    if HasStoneAt(o, status) {
      var st :| st in o.stones && !st.deleted && st.status == status;
      assert st in Live(o.stones);
    }
  }

  lemma DerivedCountsLive(cfg: Config, o: Order)
    ensures DerivedStage(cfg, o) == StageCounting(cfg, o, |Live(o.stones)|)
  {
    HasStoneIsMember(o, StoneStatus.Cancelled);
    HasStoneIsMember(o, StoneStatus.OnHold);
  }

  /** The finished stages of the filter: exactly one of the four holds, and it is the
      derivation's. */
  lemma FinishedAgrees(o: Order)
    ensures var stage := FinishedStage(Statuses(Live(o.stones)));
            && (StoneOutside(o, AtOrBeyond(OrderStage.Certified).value) <==> stage == InFindings)
            && forall s: OrderStage :: AtOrBeyond(s).Some? ==>
                 (!StoneOutside(o, AtOrBeyond(s).value) && !Beyond(o, s) <==> stage == s)
  {
    var c, r, f := OrderStage.Collected, OrderStage.ReadyForCollection, OrderStage.Certified;
    var cs, rs, fs := AtOrBeyond(c).value, AtOrBeyond(r).value, AtOrBeyond(f).value;
    assert |cs| == 1 && |rs| == 2 && |fs| == 3;
    OutsideIsNotSubset(o, cs);
    OutsideIsNotSubset(o, rs);
    OutsideIsNotSubset(o, fs);
    assert Beyond(o, r) <==> !StoneOutside(o, cs);
    assert Beyond(o, f) <==> !StoneOutside(o, rs) || !StoneOutside(o, cs);
    assert {StoneStatus.ReadyForCollection, StoneStatus.Collected} == rs;
    assert {StoneStatus.Certified, StoneStatus.Collected, StoneStatus.ReadyForCollection} == fs;
    forall s: OrderStage | AtOrBeyond(s).Some?
      ensures !StoneOutside(o, AtOrBeyond(s).value) && !Beyond(o, s) <==> FinishedStage(Statuses(Live(o.stones))) == s
    {
      match s
      case Collected =>
      case ReadyForCollection =>
      case Certified =>
    }
  }

  lemma SelectedCountsRaw(cfg: Config, o: Order, stage: OrderStage)
    ensures Selected(cfg, stage, o) <==> StageCounting(cfg, o, |o.stones|) == stage
  {
    if o.hold != Active || HasStoneAt(o, StoneStatus.Cancelled) || HasStoneAt(o, StoneStatus.OnHold) {
      SelectedStopped(cfg, o, stage);
    } else if AtOrBeyond(stage).Some? || stage == InFindings {
      SelectedFinished(cfg, o, stage);
    } else {
      NotFinished(o, stage);
    }
  }

  lemma SelectedStopped(cfg: Config, o: Order, stage: OrderStage)
    requires o.hold != Active || HasStoneAt(o, StoneStatus.Cancelled) || HasStoneAt(o, StoneStatus.OnHold)
    ensures Selected(cfg, stage, o) <==> StageCounting(cfg, o, |o.stones|) == stage
  {
  }

  lemma SelectedFinished(cfg: Config, o: Order, stage: OrderStage)
    requires o.hold == Active && !HasStoneAt(o, StoneStatus.Cancelled) && !HasStoneAt(o, StoneStatus.OnHold)
    requires AtOrBeyond(stage).Some? || stage == InFindings
    ensures Selected(cfg, stage, o) <==> StageCounting(cfg, o, |o.stones|) == stage
  {
    StageFinished(o, stage);
  }

  lemma StageFinished(o: Order, stage: OrderStage)
    ensures stage == InFindings ==>
              (StoneOutside(o, AtOrBeyond(OrderStage.Certified).value) <==> FinishedStage(Statuses(Live(o.stones))) == stage)
    ensures AtOrBeyond(stage).Some? ==>
              (!StoneOutside(o, AtOrBeyond(stage).value) && !Beyond(o, stage) <==>
               FinishedStage(Statuses(Live(o.stones))) == stage)
  {
    FinishedAgrees(o);
  }

  lemma NotFinished(o: Order, stage: OrderStage)
    requires AtOrBeyond(stage).None? && stage != InFindings
    ensures FinishedStage(Statuses(Live(o.stones))) != stage
  {
  }

  /** Every order is selected at exactly one stage, whatever its rows. */
  lemma FilterPartitions(cfg: Config, o: Order)
    ensures exists stage :: Selected(cfg, stage, o) && forall other :: Selected(cfg, other, o) ==> other == stage
  {
    var stage := StageCounting(cfg, o, |o.stones|);
    forall other ensures Selected(cfg, other, o) <==> other == stage {
      SelectedCountsRaw(cfg, o, other);
    }
    assert Selected(cfg, stage, o);
  }

  /** The two definitions agree on an order exactly when it is stopped or its soft-deleted
      stones leave the counts alike. */
  lemma AgreementIff(cfg: Config, o: Order)
    ensures Agrees(cfg, o) <==> Stopped(o) || CountsAgree(o)
  {
    var live, raw := StageCounting(cfg, o, |Live(o.stones)|), StageCounting(cfg, o, |o.stones|);
    DerivedCountsLive(cfg, o);
    forall stage ensures Selected(cfg, stage, o) <==> raw == stage {
      SelectedCountsRaw(cfg, o, stage);
    }
    if Agrees(cfg, o) {
      assert Selected(cfg, raw, o);
      assert live == raw;
    }
  }

  lemma {:induction false} NoneDeleted(stones: seq<StoneRow>)
    requires forall st <- stones :: !st.deleted
    ensures Live(stones) == stones
  {
    if stones != [] {
      NoneDeleted(stones[1..]);
    }
  }

  lemma {:induction false} FilterExtensional(orders: seq<Order>, p: Order -> bool, q: Order -> bool)
    requires forall o <- orders :: p(o) == q(o)
    ensures Filter(orders, p) == Filter(orders, q)
  {
    if orders != [] {
      FilterExtensional(orders[1..], p, q);
    }
  }

  /** With no soft-deleted stones the filter returns, in order, exactly the orders whose
      derived stage it was asked for. */
  lemma FilterIsDerivation(cfg: Config, orders: seq<Order>, stage: OrderStage)
    requires forall o <- orders :: forall st <- o.stones :: !st.deleted
    ensures OrdersAtStage(cfg, orders, Some(stage)) == Filter(orders, o => DerivedStage(cfg, o) == stage)
  {
    forall o | o in orders ensures Selected(cfg, stage, o) == (DerivedStage(cfg, o) == stage) {
      NoneDeleted(o.stones);
      AgreementIff(cfg, o);
    }
    FilterExtensional(orders, o => Selected(cfg, stage, o), o => DerivedStage(cfg, o) == stage);
  }

  /** One soft-deleted stone is enough to split them: the derivation calls the order empty,
      the filter lists it as waiting for payment. */
  lemma DeletedStoneSplitsThem(cfg: Config)
    requires !cfg.autoBill
    ensures var o := Order(Active, 1, [StoneRow(Received, true)], Some(BillRow(BillStatus.Pending, "", "")));
            DerivedStage(cfg, o) == Empty && Selected(cfg, AwaitingPayment, o) && !Selected(cfg, Empty, o)
  {
    var o := Order(Active, 1, [StoneRow(Received, true)], Some(BillRow(BillStatus.Pending, "", "")));
    assert Live(o.stones) == [];
  }

  // ---- The least advanced stone ----

  /** How far past payment a stone has got; 0 until it is certified. */
  function Rank(status: StoneStatus): nat {
    match status
    case Collected => 3
    case ReadyForCollection => 2
    case Certified => 1
    case _ => 0
  }

  function StageOfRank(rank: nat): OrderStage {
    if rank >= 3 then OrderStage.Collected
    else if rank == 2 then OrderStage.ReadyForCollection
    else if rank == 1 then OrderStage.Certified
    else InFindings
  }

  /** The least advanced of a non-empty collection of stones. */
  function Least(stones: seq<StoneRow>): (rank: nat)
    requires stones != []
    ensures rank <= 3
    ensures exists st :: st in stones && Rank(st.status) == rank
    ensures forall st <- stones :: rank <= Rank(st.status)
  {
    if |stones| == 1 then
      assert stones[0] in stones;
      Rank(stones[0].status)
    else
      var rest, first := Least(stones[1..]), Rank(stones[0].status);
      assert stones[0] in stones;
      assert forall st <- stones :: st == stones[0] || st in stones[1..];
      if first <= rest then first else rest
  }

  /** The statuses fit within a finished set exactly when no stone is behind its rank. */
  lemma WithinIffLeast(stones: seq<StoneRow>, within: set<StoneStatus>, rank: nat)
    requires stones != [] && forall s :: s in within <==> Rank(s) >= rank
    ensures Statuses(stones) <= within <==> Least(stones) >= rank
  {
    var least := Least(stones);
    if Statuses(stones) <= within {
      var behind :| behind in stones && Rank(behind.status) == least;
      assert behind.status in Statuses(stones);
    }
  }

  /** A paid order that nothing has stopped reports its furthest-behind stone. */
  lemma LeastAdvancedStone(cfg: Config, o: Order)
    requires !Stopped(o) && Live(o.stones) != [] && |Live(o.stones)| >= o.stoneCount
    requires o.bill.Some? && o.bill.value.status == BillStatus.Paid
    ensures DerivedStage(cfg, o) == StageOfRank(Least(Live(o.stones)))
  {
    DerivedCountsLive(cfg, o);
    PaidCounting(cfg, o, |Live(o.stones)|);
    FinishedByLeast(Live(o.stones));
  }

  lemma PaidCounting(cfg: Config, o: Order, count: nat)
    requires !Stopped(o) && 0 < count && o.stoneCount <= count
    requires o.bill.Some? && o.bill.value.status == BillStatus.Paid
    ensures StageCounting(cfg, o, count) == FinishedStage(Statuses(Live(o.stones)))
  {
  }

  lemma FinishedByLeast(stones: seq<StoneRow>)
    requires stones != []
    ensures FinishedStage(Statuses(stones)) == StageOfRank(Least(stones))
  {
    WithinIffLeast(stones, {StoneStatus.Collected}, 3);
    WithinIffLeast(stones, {StoneStatus.ReadyForCollection, StoneStatus.Collected}, 2);
    WithinIffLeast(stones, {StoneStatus.Certified, StoneStatus.Collected, StoneStatus.ReadyForCollection}, 1);
  }

  // ---- Each stage by itself ----

  /** A hold comes first, then a cancelled stone, then a held one. */
  lemma StoppedStages(cfg: Config, o: Order)
    ensures DerivedStage(cfg, o) == OrderStage.Cancelled <==>
            || o.hold == OrderHold.Cancelled
            || (o.hold == Active && exists st <- o.stones :: !st.deleted && st.status == StoneStatus.Cancelled)
    ensures DerivedStage(cfg, o) == OrderStage.OnHold <==>
            || o.hold == OrderHold.OnHold
            || (&& o.hold == Active && (exists st <- o.stones :: !st.deleted && st.status == StoneStatus.OnHold)
                && forall st <- o.stones :: st.deleted || st.status != StoneStatus.Cancelled)
  {
    DerivedCountsLive(cfg, o);
    NoStoneAt(o, StoneStatus.Cancelled);
  }

  lemma NoStoneAt(o: Order, status: StoneStatus)
    ensures HasStoneAt(o, status) <==> exists st <- o.stones :: !st.deleted && st.status == status
    ensures !HasStoneAt(o, status) <==> forall st <- o.stones :: st.deleted || st.status != status
  {
    if HasStoneAt(o, status) {
      var st :| st in o.stones && !st.deleted && st.status == status;
    }
  }

  /** Every stone the order is to have has been entered. */
  predicate Full(o: Order) {
    Live(o.stones) != [] && |Live(o.stones)| >= o.stoneCount
  }

  /** A bill that was never submitted, or whose submission the gateway did not acknowledge. */
  predicate Unanswered(cfg: Config, b: BillRow) {
    b.status == BillStatus.Pending && b.controlNumber == "" && !(b.statusCode in cfg.ackCodes)
  }

  predicate Finished(stage: OrderStage) {
    stage.Collected? || stage.ReadyForCollection? || stage.Certified? || stage.InFindings?
  }

  /** The derivation of an order nothing has stopped, with its finished stage supplied. */
  predicate RunsTo(cfg: Config, o: Order, finished: OrderStage, stage: OrderStage) {
    stage ==
    if Live(o.stones) == [] then Empty
    else if |Live(o.stones)| < o.stoneCount then Identifying
    else if o.bill.None? then (if cfg.autoBill then BillingAttention else ReadyToBill)
    else if cfg.autoBill && Unanswered(cfg, o.bill.value) then BillingAttention
    else if o.bill.value.status == PartiallyPaid then PartPaid
    else if o.bill.value.status != BillStatus.Paid then AwaitingPayment
    else finished
  }

  lemma Running(cfg: Config, o: Order)
    requires !Stopped(o)
    ensures var finished := FinishedStage(Statuses(Live(o.stones)));
            RunsTo(cfg, o, finished, DerivedStage(cfg, o)) && Finished(finished)
  {
    DerivedCountsLive(cfg, o);
  }

  lemma RunsToStages(cfg: Config, o: Order, finished: OrderStage, stage: OrderStage)
    requires RunsTo(cfg, o, finished, stage) && Finished(finished)
    ensures var bill := o.bill;
            && (stage == Empty <==> Live(o.stones) == [])
            && (stage == Identifying <==> 0 < |Live(o.stones)| < o.stoneCount)
            && (stage == ReadyToBill <==> Full(o) && !cfg.autoBill && bill.None?)
            && (stage == BillingAttention <==> Full(o) && cfg.autoBill && (bill.None? || Unanswered(cfg, bill.value)))
            && (stage == PartPaid <==> Full(o) && bill.Some? && bill.value.status == PartiallyPaid)
            && (stage == AwaitingPayment <==>
                && Full(o) && bill.Some? && !(cfg.autoBill && Unanswered(cfg, bill.value))
                && bill.value.status in {BillStatus.Pending, BillStatus.Cancelled, Expired})
    ensures if PaidInFull(o) then stage == finished else !Finished(stage)
  {
  }

  /** Up to payment, for an order nothing has stopped. Part payment needs no word on
      submission: a bill that has been paid in part is no longer pending. */
  lemma BillingStages(cfg: Config, o: Order)
    requires !Stopped(o)
    ensures var stage, bill := DerivedStage(cfg, o), o.bill;
            && (stage == Empty <==> forall st <- o.stones :: st.deleted)
            && (stage == Identifying <==> 0 < |Live(o.stones)| < o.stoneCount)
            && (stage == ReadyToBill <==> Full(o) && !cfg.autoBill && bill.None?)
            && (stage == BillingAttention <==> Full(o) && cfg.autoBill && (bill.None? || Unanswered(cfg, bill.value)))
            && (stage == PartPaid <==> Full(o) && bill.Some? && bill.value.status == PartiallyPaid)
            && (stage == AwaitingPayment <==>
                && Full(o) && bill.Some? && !(cfg.autoBill && Unanswered(cfg, bill.value))
                && bill.value.status in {BillStatus.Pending, BillStatus.Cancelled, Expired})
  {
    Running(cfg, o);
    RunsToStages(cfg, o, FinishedStage(Statuses(Live(o.stones))), DerivedStage(cfg, o));
    NoneLive(o.stones);
  }

  lemma NoneLive(stones: seq<StoneRow>)
    ensures Live(stones) == [] <==> forall st <- stones :: st.deleted
  {
    if st :| st in stones && !st.deleted {
      assert st in Live(stones);
    }
    if Live(stones) != [] {
      assert Live(stones)[0] in Live(stones);
    }
  }

  predicate PaidInFull(o: Order) {
    Full(o) && o.bill.Some? && o.bill.value.status == BillStatus.Paid
  }

  /** Every stone the default manager sees is at one of the statuses. */
  predicate AllAt(o: Order, statuses: set<StoneStatus>) {
    forall st <- o.stones :: st.deleted || st.status in statuses
  }

  lemma AllAtIff(o: Order, statuses: set<StoneStatus>)
    ensures AllAt(o, statuses) <==> Statuses(Live(o.stones)) <= statuses
  {
    OutsideIsNotSubset(o, statuses);
  }

  lemma FinishedByAll(o: Order)
    ensures var stage := FinishedStage(Statuses(Live(o.stones)));
            var collected := AllAt(o, {StoneStatus.Collected});
            var ready := AllAt(o, {StoneStatus.ReadyForCollection, StoneStatus.Collected});
            var certified := AllAt(o, {StoneStatus.Certified, StoneStatus.ReadyForCollection, StoneStatus.Collected});
            stage == if collected then OrderStage.Collected else if ready then OrderStage.ReadyForCollection
                     else if certified then OrderStage.Certified else InFindings
  {
    AllAtIff(o, {StoneStatus.Collected});
    AllAtIff(o, {StoneStatus.ReadyForCollection, StoneStatus.Collected});
    AllAtIff(o, {StoneStatus.Certified, StoneStatus.ReadyForCollection, StoneStatus.Collected});
    assert {StoneStatus.Certified, StoneStatus.ReadyForCollection, StoneStatus.Collected} ==
           {StoneStatus.Certified, StoneStatus.Collected, StoneStatus.ReadyForCollection};
  }

  /** After payment the stones decide: a stage is reached when every stone is there or
      further, and left when every stone is further. */
  lemma FinishedStages(cfg: Config, o: Order)
    requires !Stopped(o)
    ensures var stage := DerivedStage(cfg, o);
            var collected := AllAt(o, {StoneStatus.Collected});
            var ready := AllAt(o, {StoneStatus.ReadyForCollection, StoneStatus.Collected});
            var certified := AllAt(o, {StoneStatus.Certified, StoneStatus.ReadyForCollection, StoneStatus.Collected});
            && (stage == OrderStage.Collected <==> PaidInFull(o) && collected)
            && (stage == OrderStage.ReadyForCollection <==> PaidInFull(o) && ready && !collected)
            && (stage == OrderStage.Certified <==> PaidInFull(o) && certified && !ready)
            && (stage == InFindings <==> PaidInFull(o) && !certified)
  {
    Running(cfg, o);
    RunsToStages(cfg, o, FinishedStage(Statuses(Live(o.stones))), DerivedStage(cfg, o));
    FinishedByAll(o);
    Nested(o);
  }

  lemma Nested(o: Order)
    ensures AllAt(o, {StoneStatus.Collected}) ==> AllAt(o, {StoneStatus.ReadyForCollection, StoneStatus.Collected})
    ensures AllAt(o, {StoneStatus.ReadyForCollection, StoneStatus.Collected}) ==>
              AllAt(o, {StoneStatus.Certified, StoneStatus.ReadyForCollection, StoneStatus.Collected})
  {
  }
}
