/**
 * The rows the document services work on. A table is a sequence and a primary key is a row's
 * position in it: rows are only ever appended, since documents are deleted softly.
 */
module Tables {
  import opened Stock

  datatype Option<+T> = None | Some(value: T)

  datatype Status = Draft | Submitted | Approved | Cancelled

  datatype AdjustmentType = ByIncrease | ByDecrease | ByRecount
  datatype AdjustmentLine = AdjustmentLine(product: nat, qty: nat, cost: nat)
  datatype Adjustment = Adjustment(kind: AdjustmentType, status: Status, deleted: bool, lines: seq<AdjustmentLine>)

  datatype ReleaseLine = ReleaseLine(product: nat, qty: nat, unitCost: int, lineTotal: int)
  datatype StockRelease = StockRelease(
    status: Status, deleted: bool, lines: seq<ReleaseLine>, totalQty: int, totalCost: int)

  /** Replacing the items of an order gives them new ids: the edition counts the replacements. */
  datatype LineKey = LineKey(po: nat, edition: nat, pos: nat)

  datatype PoStatus =
    PoDraft | PoSubmitted | PoApproved | PoRejected | PoCancelled | PartiallyReceived | FullyReceived
  datatype PoLine = PoLine(product: nat, ordered: nat, received: nat)
  datatype PurchaseOrder = PurchaseOrder(
    supplier: nat, status: PoStatus, deleted: bool, edition: nat, lines: seq<PoLine>)

  datatype GrnLine = GrnLine(poLine: LineKey, product: nat, qty: nat, cost: nat)
  datatype Grn = Grn(po: nat, status: Status, lines: seq<GrnLine>)

  /** A row of the procurement ledger; at is the now() of its transaction, which its rows share. */
  datatype Receipt = Receipt(
    product: nat, before: int, change: int, after: int, unitCost: int, grn: nat, at: nat)

  datatype State = State(
    books: Books, receipts: seq<Receipt>, clock: nat,
    pos: seq<PurchaseOrder>, grns: seq<Grn>, adjustments: seq<Adjustment>, releases: seq<StockRelease>,
    products: set<nat>, suppliers: set<nat>)

  const EMPTY := State(Books(map[], []), [], 0, [], [], [], [], {}, {})

  // get_active: rows that exist and are not soft-deleted. GRNs have no such flag.

  predicate LivePo(pos: seq<PurchaseOrder>, id: nat) {
    id < |pos| && !pos[id].deleted
  }

  predicate LiveAdjustment(s: State, id: nat) {
    id < |s.adjustments| && !s.adjustments[id].deleted
  }

  predicate LiveRelease(s: State, id: nat) {
    id < |s.releases| && !s.releases[id].deleted
  }

  // What each document posts to the inventory ledger.

  function GrnPostings(lines: seq<GrnLine>): (ps: seq<Posting>) {
    seq(|lines|, i requires 0 <= i < |lines| => Posting(lines[i].product, Receive, lines[i].qty, lines[i].cost))
  }

  function MoveOf(kind: AdjustmentType): Move {
    match kind
    case ByIncrease => Increase
    case ByDecrease => Decrease
    case ByRecount => Recount
  }

  function AdjustmentPostings(kind: AdjustmentType, lines: seq<AdjustmentLine>): (ps: seq<Posting>) {
    seq(|lines|, i requires 0 <= i < |lines| =>
      Posting(lines[i].product, MoveOf(kind), lines[i].qty, lines[i].cost))
  }

  function ReleasePostings(lines: seq<ReleaseLine>): (ps: seq<Posting>) {
    seq(|lines|, i requires 0 <= i < |lines| => Posting(lines[i].product, Release, lines[i].qty, 0))
  }

  /** What a document owes the ledger: its lines once it is approved, nothing before and otherwise. */
  function Due(s: State, ref: Ref): seq<Posting> {
    match ref.kind
    case GrnRef =>
      if ref.id < |s.grns| && s.grns[ref.id].status.Approved? then GrnPostings(s.grns[ref.id].lines) else []
    case AdjustmentRef =>
      if ref.id < |s.adjustments| && s.adjustments[ref.id].status.Approved?
      then AdjustmentPostings(s.adjustments[ref.id].kind, s.adjustments[ref.id].lines)
      else []
    case ReleaseRef =>
      if ref.id < |s.releases| && s.releases[ref.id].status.Approved?
      then ReleasePostings(s.releases[ref.id].lines)
      else []
  }
}
