/** The laboratory's tables and the atomic steps its services take on them. */
module Records {
  import opened Common
  import opened Gems
  import References

  /** One line of a stone's status ledger; the first comes from nowhere. */
  datatype Entry = Entry(from: Option<StoneStatus>, to: StoneStatus)

  datatype Report = NoReport | Draft | Finalized

  /** `mark` is the code point of the stone's letter; `kind` its exact type, once known. */
  datatype Stone = Stone(order: nat, mark: nat, category: nat, kind: Option<nat>, weight: Option<int>,
                         status: StoneStatus, deleted: bool, report: Report, history: seq<Entry>)

  datatype Order = Order(reference: string, stoneCount: nat, hold: OrderHold)

  datatype Description = OfKind(kind: nat) | OfCategory(category: nat)

  /** Amounts are in hundredths, the precision the database keeps. */
  datatype Item = Item(stone: nat, description: Description, amount: int)

  datatype Bill = Bill(order: nat, number: string, controlNumber: string, total: int, status: BillStatus,
                       statusCode: string, items: seq<Item>)

  datatype Payment = Payment(trx: string, bill: nat, amount: int)

  /** The money part of one transaction the gateway reports. */
  datatype Txn = Txn(trx: string, billNumber: string, controlNumber: string, amount: int)

  datatype Certificate = Certificate(stone: nat, number: string, deleted: bool)

  /** Rows are numbered by creation. `prices` and `kinds` are the reference tables:
      a category's fee, if set, and a type's category. */
  datatype World = World(autoBill: bool, orders: seq<Order>, stones: seq<Stone>, bills: seq<Bill>,
                         payments: seq<Payment>, certificates: seq<Certificate>,
                         prices: map<nat, Option<int>>, kinds: map<nat, nat>)

  // ---- Stones ----

  function Moved(st: Stone, to: StoneStatus): Stone {
    if st.status == to then st
    else st.(status := to, history := st.history + [Entry(Some(st.status), to)])
  }

  predicate LiveIn(st: Stone, order: nat) {
    st.order == order && !st.deleted
  }

  /** The live stones of an order among the first n rows. */
  function StonesOf(stones: seq<Stone>, n: nat, order: nat): (ids: seq<nat>)
    requires n <= |stones|
    ensures forall i: int :: i in ids <==> 0 <= i < n && LiveIn(stones[i], order)
    ensures forall k :: 0 <= k < |ids| ==> ids[k] < n
    ensures |ids| <= n
  {
    if n == 0 then []
    else StonesOf(stones, n - 1, order) + if LiveIn(stones[n - 1], order) then [n - 1] else []
  }

  function OrderStones(w: World, order: nat): seq<nat> {
    StonesOf(w.stones, |w.stones|, order)
  }

  /** Moving every live stone of an order. */
  function MoveOrder(stones: seq<Stone>, order: nat, to: StoneStatus): (r: seq<Stone>)
    ensures |r| == |stones|
    ensures forall i :: 0 <= i < |r| ==>
                          r[i] == if LiveIn(stones[i], order) then Moved(stones[i], to) else stones[i]
  {
    seq(|stones|, i requires 0 <= i < |stones| =>
      if LiveIn(stones[i], order) then Moved(stones[i], to) else stones[i])
  }

  function Received(order: nat, mark: nat, category: nat, kind: Option<nat>): Stone {
    Stone(order, mark, category, kind, None, StoneStatus.Received, false, NoReport,
          [Entry(None, StoneStatus.Received)])
  }

  /** Which category a new stone is priced under, or None when the request is refused. */
  function IntakeCategory(w: World, category: Option<nat>, kind: Option<nat>): Option<nat> {
    var chosen := if category.None? && kind.Some? && kind.value in w.kinds then Some(w.kinds[kind.value]) else category;
    if chosen.None? then None
    else if kind.Some? && (kind.value !in w.kinds || w.kinds[kind.value] != chosen.value) then None
    else chosen
  }

  predicate MayAddStone(w: World, order: nat, category: Option<nat>, kind: Option<nat>) {
    order < |w.orders| && IntakeCategory(w, category, kind).Some? &&
    |OrderStones(w, order)| < w.orders[order].stoneCount
  }

  function AddStone(w: World, order: nat, category: Option<nat>, kind: Option<nat>): World
    requires MayAddStone(w, order, category, kind)
  {
    w.(stones := w.stones + [Received(order, 65 + |OrderStones(w, order)|,
                                      IntakeCategory(w, category, kind).value, kind)])
  }

  predicate Retypeable(status: StoneStatus) {
    status == StoneStatus.Received || status == StoneStatus.OnHold || status == StoneStatus.Cancelled
  }

  /** An edit: each part is None when the request leaves it alone. */
  datatype Edit = Edit(category: Option<nat>, kind: Option<Option<nat>>, weight: Option<Option<int>>)

  function Edited(w: World, st: Stone, edit: Edit, mayEditFinal: bool): Option<Stone> {
    var recategorised := edit.category.Some? && edit.category.value != st.category;
    var retyped := edit.kind.Some? && edit.kind.value != st.kind;
    if w.autoBill && st.kind.Some? && (recategorised || retyped) then None
    else if st.report == Finalized && (!mayEditFinal || recategorised) then None
    else if recategorised && !Retypeable(st.status) then None
    else
      var category := if recategorised then edit.category.value else st.category;
      var kept := if recategorised && edit.kind.None? && st.kind.Some? &&
                     (st.kind.value !in w.kinds || w.kinds[st.kind.value] != category)
                  then None else st.kind;
      if edit.kind.Some? && edit.kind.value.Some? &&
         (edit.kind.value.value !in w.kinds || w.kinds[edit.kind.value.value] != category)
      then None
      else Some(st.(category := category,
                kind := if edit.kind.Some? then edit.kind.value else kept,
                weight := if edit.weight.Some? then edit.weight.value else st.weight))
  }

  // ---- Bills ----

  /** The newest of the first n bills that matches. */
  function Newest(bills: seq<Bill>, n: nat, matches: Bill -> bool): (found: Option<nat>)
    requires n <= |bills|
    ensures found.Some? ==> found.value < n && matches(bills[found.value])
  {
    if n == 0 then None
    else if matches(bills[n - 1]) then Some(n - 1) else Newest(bills, n - 1, matches)
  }

  lemma {:induction false} NewestMeaning(bills: seq<Bill>, n: nat, matches: Bill -> bool)
    requires n <= |bills|
    ensures var found := Newest(bills, n, matches);
            && (found.None? <==> forall i :: 0 <= i < n ==> !matches(bills[i]))
            && (found.Some? ==> forall i :: found.value < i < n ==> !matches(bills[i]))
  {
    if n > 0 {
      NewestMeaning(bills, n - 1, matches);
    }
  }

  function BillFor(w: World, order: nat): Option<nat> {
    Newest(w.bills, |w.bills|, (b: Bill) => b.order == order)
  }

  /** The bill a transaction names: by its number first, then by the control number. */
  function Resolve(w: World, txn: Txn): (bill: Option<nat>)
    ensures bill.Some? ==> bill.value < |w.bills|
  {
    var byNumber := Newest(w.bills, |w.bills|, (b: Bill) => b.number == txn.billNumber);
    if byNumber.Some? then byNumber
    else Newest(w.bills, |w.bills|, (b: Bill) => b.controlNumber == txn.controlNumber)
  }

  function PriceOf(w: World, st: Stone): Option<int> {
    if st.category in w.prices then w.prices[st.category] else None
  }

  function Describe(st: Stone): Description {
    if st.kind.Some? then OfKind(st.kind.value) else OfCategory(st.category)
  }

  predicate AllPriced(w: World, ids: seq<nat>) {
    forall k :: 0 <= k < |ids| ==> ids[k] < |w.stones| && PriceOf(w, w.stones[ids[k]]).Some?
  }

  /** One line per stone, at its category's fee. */
  function Lines(w: World, ids: seq<nat>): (items: seq<Item>)
    requires AllPriced(w, ids)
    ensures |items| == |ids|
    ensures forall k :: 0 <= k < |ids| ==>
                          && items[k].stone == ids[k]
                          && Some(items[k].amount) == PriceOf(w, w.stones[ids[k]])
  {
    seq(|ids|, k requires 0 <= k < |ids| =>
      Item(ids[k], Describe(w.stones[ids[k]]), PriceOf(w, w.stones[ids[k]]).value))
  }

  function Sum(items: seq<Item>): int {
    if items == [] then 0 else Sum(items[..|items| - 1]) + items[|items| - 1].amount
  }

  function BillNumber(w: World, order: nat): Option<string>
    requires order < |w.orders|
  {
    References.ReferenceForOrder(w.orders[order].reference, "BILL", None)
  }

  /** Bill numbers are unique: the database refuses a second bill of the same number. */
  predicate NumberFree(w: World, number: string) {
    forall i :: 0 <= i < |w.bills| ==> w.bills[i].number != number
  }

  /** Control numbers are unique too, except that any number of bills may have none. */
  predicate ControlFree(w: World, bill: nat, control: string) {
    control == "" || forall i :: 0 <= i < |w.bills| && i != bill ==> w.bills[i].controlNumber != control
  }

  predicate MayBill(w: World, order: nat) {
    order < |w.orders| && BillFor(w, order).None? && OrderStones(w, order) != [] &&
    BillNumber(w, order).Some? && NumberFree(w, BillNumber(w, order).value) &&
    AllPriced(w, OrderStones(w, order))
  }

  function CreateBill(w: World, order: nat): World
    requires MayBill(w, order)
  {
    var items := Lines(w, OrderStones(w, order));
    w.(bills := w.bills + [Bill(order, BillNumber(w, order).value, "", Sum(items), BillStatus.Pending, "", items)],
    stones := MoveOrder(w.stones, order, StoneStatus.Billed))
  }

  predicate AllIdentified(w: World, order: nat) {
    order < |w.orders| && |OrderStones(w, order)| == w.orders[order].stoneCount
  }

  // ---- Payments ----

  function PaymentOf(payments: seq<Payment>, trx: string): (found: Option<nat>)
    ensures found.Some? ==> found.value < |payments| && payments[found.value].trx == trx
  {
    if payments == [] then None
    else if payments[|payments| - 1].trx == trx then Some(|payments| - 1)
    else PaymentOf(payments[..|payments| - 1], trx)
  }

  lemma {:induction false} PaymentOfMeaning(payments: seq<Payment>, trx: string)
    ensures PaymentOf(payments, trx).None? <==> forall i :: 0 <= i < |payments| ==> payments[i].trx != trx
  {
    if payments != [] {
      PaymentOfMeaning(payments[..|payments| - 1], trx);
    }
  }

  /** What has been paid towards a bill. */
  function PaidTo(payments: seq<Payment>, bill: nat): int {
    if payments == [] then 0
    else PaidTo(payments[..|payments| - 1], bill) +
         if payments[|payments| - 1].bill == bill then payments[|payments| - 1].amount else 0
  }

  /** Settling after a new payment: every payment to the bill is summed again. */
  function Settle(w: World, bill: nat): World
    requires bill < |w.bills|
  {
    var b := w.bills[bill];
    if PaidTo(w.payments, bill) >= b.total then
      w.(bills := w.bills[bill := b.(status := BillStatus.Paid)],
      stones := MoveOrder(w.stones, b.order, StoneStatus.Paid))
    else w.(bills := w.bills[bill := b.(status := BillStatus.PartiallyPaid)])
  }

  /** One transaction. A known id overwrites its row and settles nothing; an unknown bill
      refuses. Fields kept only as evidence are not part of the row here. */
  function Deliver(w: World, txn: Txn): World {
    match Resolve(w, txn)
    case None => w
    case Some(bill) =>
      var row := Payment(txn.trx, bill, txn.amount);
      match PaymentOf(w.payments, txn.trx)
      case Some(k) => w.(payments := w.payments[k := row])
      case None => Settle(w.(payments := w.payments + [row]), bill)
  }

  // ---- Certificates ----

  /** A stone has one certificate for good: a soft-deleted one still takes its place. */
  predicate HasCertificate(w: World, stone: nat) {
    exists i :: 0 <= i < |w.certificates| && w.certificates[i].stone == stone
  }

  /** The letter of a stone as text; code points beyond a char's range are not modelled. */
  function Letter(mark: nat): string {
    if mark < 0xD800 then [mark as char] else "?"
  }

  function CertificateNumber(w: World, stone: nat): Option<string>
    requires stone < |w.stones|
  {
    if w.stones[stone].order < |w.orders| then
      References.ReferenceForOrder(w.orders[w.stones[stone].order].reference, "CERT", Some(Letter(w.stones[stone].mark)))
    else None
  }

  /** Live certificates other than the i-th leave a number free. */
  predicate CertificateFree(w: World, i: nat, number: string) {
    forall k :: 0 <= k < |w.certificates| && k != i && !w.certificates[k].deleted ==> w.certificates[k].number != number
  }

  predicate MayCertify(w: World, stone: nat) {
    stone < |w.stones| &&
    var st := w.stones[stone];
    var bill := BillFor(w, st.order);
    && !st.deleted && !HasCertificate(w, stone) && st.report == Finalized
    && bill.Some? && w.bills[bill.value].status == BillStatus.Paid
    && st.weight.Some? && st.kind.Some? && CertificateNumber(w, stone).Some?
    && CertificateFree(w, |w.certificates|, CertificateNumber(w, stone).value)
  }

  function Issue(w: World, stone: nat): World
    requires MayCertify(w, stone)
  {
    w.(certificates := w.certificates + [Certificate(stone, CertificateNumber(w, stone).value, false)],
    stones := w.stones[stone := Moved(w.stones[stone], StoneStatus.Certified)])
  }

  // ---- Steps ----

  datatype Event =
    | NewOrder(reference: string, stoneCount: nat)
    | HoldOrder(order: nat, hold: OrderHold)
    | Intake(order: nat, category: Option<nat>, kind: Option<nat>)
    | EditStone(stone: nat, edit: Edit, mayEditFinal: bool)
    | DeleteStone(stone: nat)
    | RestoreStone(stone: nat)
    | Transition(stone: nat, to: StoneStatus)
    | WriteReport(stone: nat, report: Report)
    | Reprice(tier: nat, price: Option<int>)
    | Generate(order: nat)
    | AutoBill(order: nat)
    | Retry(order: nat)
    | Submitted(bill: nat, success: bool, granted: Option<string>, code: string)
    | BillResponse(number: string, controlNumber: string, code: string)
    | CancelConfirmed(bill: nat)
    | CancelCallback(number: string, code: string)
    | Pay(txn: Txn)
    | Certify(stone: nat)
    | DeleteCertificate(certificate: nat)
    | RestoreCertificate(certificate: nat)

  predicate Held(w: World, order: nat)
    requires order < |w.orders|
  {
    w.orders[order].hold != Active
  }

  /** Cancelling a paid order is refused; releasing sets the hold back to active. */
  predicate MayHold(w: World, order: nat, hold: OrderHold) {
    order < |w.orders| &&
    (hold == OrderHold.Cancelled ==>
       var bill := BillFor(w, order); bill.Some? ==> w.bills[bill.value].status != BillStatus.Paid)
  }

  function WithBill(w: World, i: nat, b: Bill): World
    requires i < |w.bills|
  {
    w.(bills := w.bills[i := b])
  }

  function WithCertificate(w: World, i: nat, c: Certificate): World
    requires i < |w.certificates|
  {
    w.(certificates := w.certificates[i := c])
  }

  /** One atomic step; a refused request changes nothing. */
  function Step(w: World, e: Event): World {
    match e
    case NewOrder(reference, count) => w.(orders := w.orders + [Order(reference, count, Active)])
    case HoldOrder(order, hold) =>
      if MayHold(w, order, hold) then w.(orders := w.orders[order := w.orders[order].(hold := hold)]) else w
    case Intake(order, category, kind) =>
      if MayAddStone(w, order, category, kind) then AddStone(w, order, category, kind) else w
    case EditStone(s, edit, may) =>
      if s < |w.stones| && !w.stones[s].deleted && Edited(w, w.stones[s], edit, may).Some? then
        w.(stones := w.stones[s := Edited(w, w.stones[s], edit, may).value])
      else w
    case DeleteStone(s) =>
      if s < |w.stones| && !w.autoBill && Retypeable(w.stones[s].status) then
        w.(stones := w.stones[s := w.stones[s].(deleted := true)])
      else w
    case RestoreStone(s) =>
      if s < |w.stones| && w.stones[s].deleted then w.(stones := w.stones[s := w.stones[s].(deleted := false)]) else w
    case Transition(s, to) =>
      if s < |w.stones| && !w.stones[s].deleted then w.(stones := w.stones[s := Moved(w.stones[s], to)]) else w
    case WriteReport(s, report) =>
      if s < |w.stones| then w.(stones := w.stones[s := w.stones[s].(report := report)]) else w
    case Reprice(category, price) => w.(prices := w.prices[category := price])
    case Generate(order) => if MayBill(w, order) then CreateBill(w, order) else w
    case AutoBill(order) =>
      if w.autoBill && AllIdentified(w, order) && !Held(w, order) && MayBill(w, order)
      then CreateBill(w, order) else w
    case Retry(order) =>
      if AllIdentified(w, order) && w.orders[order].stoneCount > 0 && !Held(w, order) && MayBill(w, order)
      then CreateBill(w, order) else w
    case Submitted(i, success, control, code) =>
      if i < |w.bills| then
        var b := w.bills[i].(statusCode := code);
        if success && control.Some? && control.value != "PENDING" then
          if ControlFree(w, i, control.value) then WithBill(w, i, b.(controlNumber := control.value)) else w
        else WithBill(w, i, b)
      else w
    case BillResponse(number, control, code) =>
      var i := Newest(w.bills, |w.bills|, (b: Bill) => b.number == number);
      if i.Some? && code == "7101" && control != "" && control != "0" && ControlFree(w, i.value, control) then
        WithBill(w, i.value, w.bills[i.value].(controlNumber := control, statusCode := code))
      else w
    case CancelConfirmed(i) =>
      if i < |w.bills| then WithBill(w, i, w.bills[i].(status := BillStatus.Cancelled, statusCode := "7283")) else w
    case CancelCallback(number, code) =>
      var i := Newest(w.bills, |w.bills|, (b: Bill) => b.number == number);
      if i.Some? then
        var b := w.bills[i.value].(statusCode := code);
        WithBill(w, i.value, if code == "7283" then b.(status := BillStatus.Cancelled) else b)
      else w
    case Pay(txn) => Deliver(w, txn)
    case Certify(s) => if MayCertify(w, s) then Issue(w, s) else w
    case DeleteCertificate(c) =>
      if c < |w.certificates| then WithCertificate(w, c, w.certificates[c].(deleted := true)) else w
    case RestoreCertificate(c) =>
      if c < |w.certificates| && CertificateFree(w, c, w.certificates[c].number) then
        WithCertificate(w, c, w.certificates[c].(deleted := false))
      else w
  }

  function Run(w: World, run: seq<Event>): World
    decreases |run|
  {
    if run == [] then w else Run(Step(w, run[0]), run[1..])
  }

  lemma {:induction false} RunAppend(w: World, a: seq<Event>, b: seq<Event>)
    ensures Run(w, a + b) == Run(Run(w, a), b)
    decreases |a|
  {
    if a == [] {
      assert a + b == b;
    } else {
      assert (a + b)[1..] == a[1..] + b;
      RunAppend(Step(w, a[0]), a[1..], b);
    }
  }

  function Pays(txns: seq<Txn>): (run: seq<Event>)
    ensures |run| == |txns| && forall i :: 0 <= i < |txns| ==> run[i] == Pay(txns[i])
  {
    seq(|txns|, i requires 0 <= i < |txns| => Pay(txns[i]))
  }
}
