/** The specification of PurchaseOrderService and GRNService. */
module Procurement {
  import opened Results
  import opened Stock
  import opened Tables

  // ------------------------------------------------------------------
  // Purchase orders
  // ------------------------------------------------------------------

  datatype OrderLine = OrderLine(product: nat, ordered: nat)

  predicate ProductsKnown(s: State, lines: seq<OrderLine>) {
    forall i | 0 <= i < |lines| :: lines[i].product in s.products
  }

  function Unreceived(lines: seq<OrderLine>): seq<PoLine> {
    seq(|lines|, i requires 0 <= i < |lines| => PoLine(lines[i].product, lines[i].ordered, 0))
  }

  function CreatePo(s: State, supplier: nat, lines: seq<OrderLine>): Result<State> {
    if lines == [] then Err(Invalid)
    else if supplier !in s.suppliers || !ProductsKnown(s, lines) then Err(NotFound)
    else Ok(s.(pos := s.pos + [PurchaseOrder(supplier, PoDraft, false, 0, Unreceived(lines))]))
  }

  function UpdatePo(s: State, id: nat, supplier: Option<nat>, lines: Option<seq<OrderLine>>): Result<State> {
    if !LivePo(s.pos, id) then Err(NotFound)
    else if !s.pos[id].status.PoDraft? then Err(Invalid)
    else if supplier.Some? && supplier.value !in s.suppliers then Err(NotFound)
    else if lines.Some? && !ProductsKnown(s, lines.value) then Err(NotFound)
    else
      var p := s.pos[id];
      var q := p.(supplier := if supplier.Some? then supplier.value else p.supplier);
      Ok(s.(pos := s.pos[id :=
        if lines.Some? then q.(edition := q.edition + 1, lines := Unreceived(lines.value)) else q]))
  }

  function DeletePo(s: State, id: nat): Result<State> {
    if !LivePo(s.pos, id) then Err(NotFound)
    else if !s.pos[id].status.PoDraft? then Err(Invalid)
    else Ok(s.(pos := s.pos[id := s.pos[id].(deleted := true)]))
  }

  function MovePo(s: State, id: nat, from: set<PoStatus>, to: PoStatus): Result<State> {
    if !LivePo(s.pos, id) then Err(NotFound)
    else if s.pos[id].status !in from then Err(Invalid)
    else Ok(s.(pos := s.pos[id := s.pos[id].(status := to)]))
  }

  function SubmitPo(s: State, id: nat): Result<State> {
    if LivePo(s.pos, id) && s.pos[id].lines == [] then Err(Invalid)
    else MovePo(s, id, {PoDraft}, PoSubmitted)
  }

  function ApprovePo(s: State, id: nat): Result<State> {
    MovePo(s, id, {PoSubmitted}, PoApproved)
  }

  function RejectPo(s: State, id: nat): Result<State> {
    MovePo(s, id, {PoSubmitted}, PoRejected)
  }

  function CancelPo(s: State, id: nat): Result<State> {
    MovePo(s, id, {PoDraft, PoSubmitted}, PoCancelled)
  }

  function OrderLines(lines: seq<PoLine>): seq<OrderLine> {
    seq(|lines|, i requires 0 <= i < |lines| => OrderLine(lines[i].product, lines[i].ordered))
  }

  /** A copy goes through the request schema again, which refuses a quantity that was stored as zero. */
  function DuplicatePo(s: State, id: nat): Result<State> {
    if !LivePo(s.pos, id) then Err(NotFound)
    else if exists i | 0 <= i < |s.pos[id].lines| :: s.pos[id].lines[i].ordered == 0 then Err(Invalid)
    else CreatePo(s, s.pos[id].supplier, OrderLines(s.pos[id].lines))
  }

  // ------------------------------------------------------------------
  // Goods received notes
  // ------------------------------------------------------------------

  predicate Receivable(status: PoStatus) {
    status.PoApproved? || status.PartiallyReceived? || status.FullyReceived?
  }

  predicate OnOrder(pos: seq<PurchaseOrder>, key: LineKey) {
    key.po < |pos| && key.edition == pos[key.po].edition && key.pos < |pos[key.po].lines|
  }

  /** received quantity > remaining + 1e-6, on integers that count 10^-4. */
  predicate ExceedsRemaining(qty: nat, l: PoLine) {
    100 * qty > 100 * (l.ordered - l.received) + 1
  }

  /** The checks of one note line: it is looked up in the order's own items. */
  function CheckLine(pos: seq<PurchaseOrder>, po: nat, x: GrnLine, matchProduct: bool): Option<Error>
    requires po < |pos|
  {
    if x.poLine.po != po || !OnOrder(pos, x.poLine) then Some(NotFound)
    else
      var l := pos[po].lines[x.poLine.pos];
      if matchProduct && l.product != x.product then Some(Invalid)
      else if ExceedsRemaining(x.qty, l) then Some(Invalid)
      else None
  }

  /** The first line that is refused decides the error. */
  function CheckLines(pos: seq<PurchaseOrder>, po: nat, lines: seq<GrnLine>, matchProduct: bool): Option<Error>
    requires po < |pos|
    decreases |lines|
  {
    if lines == [] then None
    else match CheckLine(pos, po, lines[0], matchProduct)
      case Some(e) => Some(e)
      case None => CheckLines(pos, po, lines[1..], matchProduct)
  }

  function CreateGrn(s: State, po: nat, lines: seq<GrnLine>): Result<State> {
    if lines == [] then Err(Invalid)
    else if !LivePo(s.pos, po) then Err(NotFound)
    else if !(s.pos[po].status.PoApproved? || s.pos[po].status.PartiallyReceived?) then Err(Invalid)
    else match CheckLines(s.pos, po, lines, true)
      case Some(e) => Err(e)
      case None => Ok(s.(grns := s.grns + [Grn(po, Draft, lines)]))
  }

  /** Editing checks the remaining quantity again, but neither the product nor the order's status. */
  function UpdateGrn(s: State, id: nat, lines: Option<seq<GrnLine>>): Result<State> {
    if id >= |s.grns| then Err(NotFound)
    else if !s.grns[id].status.Draft? then Err(Invalid)
    else if lines.None? then Ok(s)
    else if !LivePo(s.pos, s.grns[id].po) then Err(NotFound)
    else match CheckLines(s.pos, s.grns[id].po, lines.value, false)
      case Some(e) => Err(e)
      case None => Ok(s.(grns := s.grns[id := s.grns[id].(lines := lines.value)]))
  }

  function SubmitGrn(s: State, id: nat): Result<State> {
    if id >= |s.grns| then Err(NotFound)
    else if !s.grns[id].status.Draft? || s.grns[id].lines == [] then Err(Invalid)
    else Ok(s.(grns := s.grns[id := s.grns[id].(status := Submitted)]))
  }

  function CancelGrn(s: State, id: nat): Result<State> {
    if id >= |s.grns| then Err(NotFound)
    else if s.grns[id].status.Approved? then Err(Invalid)
    else Ok(s.(grns := s.grns[id := s.grns[id].(status := Cancelled)]))
  }

  // The procurement ledger.

  predicate Newest(rs: seq<Receipt>, p: nat, i: nat) {
    && i < |rs| && rs[i].product == p
    && forall j | 0 <= j < |rs| && rs[j].product == p :: rs[j].at <= rs[i].at
  }

  /** The quantity_after of the row of a product inserted last, zero when it has none. */
  function LastInserted(rs: seq<Receipt>, p: nat): int
    decreases |rs|
  {
    if rs == [] then 0
    else
      var r := rs[|rs| - 1];
      if r.product == p then r.after else LastInserted(rs[..|rs| - 1], p)
  }

  /**
   * get_current_stock: ORDER BY created_at DESC LIMIT 1. Rows of one transaction tie, and the
   * database may return any of them; pick says which row it returned. A pick that is not one of the
   * newest rows stands for the row inserted last.
   */
  function CurrentStock(rs: seq<Receipt>, p: nat, pick: nat): int {
    if Newest(rs, p, pick) then rs[pick].after else LastInserted(rs, p)
  }

  function Head(picks: seq<nat>): nat {
    if picks == [] then 0 else picks[0]
  }

  function Tail(picks: seq<nat>): seq<nat> {
    if picks == [] then [] else picks[1..]
  }

  function ReceiptFor(rs: seq<Receipt>, x: GrnLine, pick: nat, grn: nat, at: nat): Receipt {
    var current := CurrentStock(rs, x.product, pick);
    Receipt(x.product, current, x.qty, current + x.qty, x.cost, grn, at)
  }

  /** The UPDATE of one order line by its id. */
  function ReceiveLine(pos: seq<PurchaseOrder>, x: GrnLine): seq<PurchaseOrder>
    requires OnOrder(pos, x.poLine)
  {
    var p := pos[x.poLine.po];
    var l := p.lines[x.poLine.pos];
    pos[x.poLine.po := p.(lines := p.lines[x.poLine.pos := l.(received := l.received + x.qty)])]
  }

  /** Everything the approval loop changes line by line. */
  datatype Desk = Desk(books: Books, receipts: seq<Receipt>, pos: seq<PurchaseOrder>)

  function PostLine(d: Desk, x: GrnLine, pick: nat, grn: nat, at: nat): Result<Desk> {
    if !OnOrder(d.pos, x.poLine) then Err(Crash)
    else match Post(d.books, Posting(x.product, Receive, x.qty, x.cost), Ref(GrnRef, grn))
      case Err(e) => Err(e)
      case Ok(books) =>
        Ok(Desk(books, d.receipts + [ReceiptFor(d.receipts, x, pick, grn, at)], ReceiveLine(d.pos, x)))
  }

  function PostLines(d: Desk, lines: seq<GrnLine>, picks: seq<nat>, grn: nat, at: nat): Result<Desk>
    decreases |lines|
  {
    if lines == [] then Ok(d)
    else match PostLine(d, lines[0], Head(picks), grn, at)
      case Err(e) => Err(e)
      case Ok(next) => PostLines(next, lines[1..], Tail(picks), grn, at)
  }

  // received >= ordered - 1e-6 and received > 1e-6, on integers that count 10^-4.

  predicate Complete(l: PoLine) {
    100 * l.received >= 100 * l.ordered - 1
  }

  predicate Begun(l: PoLine) {
    Complete(l) || 100 * l.received > 1
  }

  function StatusAfterReceipt(lines: seq<PoLine>, before: PoStatus): PoStatus {
    if forall i | 0 <= i < |lines| :: Complete(lines[i]) then FullyReceived
    else if exists i | 0 <= i < |lines| :: Begun(lines[i]) then PartiallyReceived
    else before
  }

  /** Approval of a note; the order is looked up without a guard after the loop. */
  function ApproveGrn(s: State, id: nat, picks: seq<nat>): Result<State> {
    if id >= |s.grns| then Err(NotFound)
    else if !s.grns[id].status.Submitted? then Err(Invalid)
    else
      var g := s.grns[id];
      match PostLines(Desk(s.books, s.receipts, s.pos), g.lines, picks, id, s.clock)
      case Err(e) => Err(e)
      case Ok(d) =>
        if !LivePo(d.pos, g.po) then Err(Crash)
        else
          var p := d.pos[g.po];
          Ok(s.(books := d.books, receipts := d.receipts, clock := s.clock + 1,
                pos := d.pos[g.po := p.(status := StatusAfterReceipt(p.lines, p.status))],
                grns := s.grns[id := g.(status := Approved)]))
  }
}
