/**
 * What requests do, said on the tables alone: which are accepted, what an accepted one writes, and that
 * it leaves every other row as it was.
 */
module Requests {
  import opened Results
  import opened Stock
  import opened Postings
  import opened Sums
  import opened Tables
  import opened System
  import opened Receiving
  import opened Reconciliation
  import opened Lifecycle
  import opened Guarantees
  import Rel = Releases
  import Proc = Procurement

  // ------------------------------------------------------------------
  // Purchase orders
  // ------------------------------------------------------------------

  predicate OrderIs(s: State, id: nat, statuses: set<PoStatus>) {
    id < |s.pos| && !s.pos[id].deleted && s.pos[id].status in statuses
  }

  predicate OrderProductsKnown(s: State, asked: seq<Proc.OrderLine>) {
    forall i | 0 <= i < |asked| :: asked[i].product in s.products
  }

  /** The lines are those asked for, in their order, and nothing is received on them. */
  predicate OrdersAsked(lines: seq<PoLine>, asked: seq<Proc.OrderLine>) {
    && |lines| == |asked|
    && forall i | 0 <= i < |asked| ::
         lines[i].product == asked[i].product && lines[i].ordered == asked[i].ordered && lines[i].received == 0
  }

  predicate OrderAllowed(s: State, op: Op)
    requires OnPo(op)
  {
    match op
    case CreatePo(supplier, asked) => asked != [] && supplier in s.suppliers && OrderProductsKnown(s, asked)
    case UpdatePo(id, supplier, asked) =>
      && OrderIs(s, id, {PoDraft})
      && (supplier.Some? ==> supplier.value in s.suppliers)
      && (asked.Some? ==> OrderProductsKnown(s, asked.value))
    case DeletePo(id) => OrderIs(s, id, {PoDraft})
    case SubmitPo(id) => OrderIs(s, id, {PoDraft}) && s.pos[id].lines != []
    case ApprovePo(id) => OrderIs(s, id, {PoSubmitted})
    case RejectPo(id) => OrderIs(s, id, {PoSubmitted})
    case CancelPo(id) => OrderIs(s, id, {PoDraft, PoSubmitted})
    case DuplicatePo(id) =>
      && id < |s.pos| && !s.pos[id].deleted && s.pos[id].lines != [] && s.pos[id].supplier in s.suppliers
      && forall i | 0 <= i < |s.pos[id].lines| ::
           s.pos[id].lines[i].ordered > 0 && s.pos[id].lines[i].product in s.products
  }

  /** Not found: the order, or a supplier or product of a request that is otherwise in order. */
  predicate OrderUnknown(s: State, op: Op)
    requires OnPo(op)
  {
    if op.CreatePo? then
      op.orderLines != [] && (op.supplier !in s.suppliers || !OrderProductsKnown(s, op.orderLines))
    else if op.id >= |s.pos| || s.pos[op.id].deleted then
      true
    else if op.UpdatePo? then
      && s.pos[op.id].status.PoDraft?
      && (|| (op.newSupplier.Some? && op.newSupplier.value !in s.suppliers)
          || (op.newOrderLines.Some? && !OrderProductsKnown(s, op.newOrderLines.value)))
    else if op.DuplicatePo? then
      var p := s.pos[op.id];
      && p.lines != [] && (forall i | 0 <= i < |p.lines| :: p.lines[i].ordered > 0)
      && (p.supplier !in s.suppliers || exists i | 0 <= i < |p.lines| :: p.lines[i].product !in s.products)
    else
      false
  }

  /** One new row, everything else as before. */
  predicate OrderAdded(s: State, t: State, supplier: nat, asked: seq<Proc.OrderLine>) {
    && t == s.(pos := t.pos) && |t.pos| == |s.pos| + 1 && t.pos[..|s.pos|] == s.pos
    && var p := t.pos[|s.pos|];
    && p.supplier == supplier && p.status.PoDraft? && !p.deleted && OrdersAsked(p.lines, asked)
  }

  predicate OrderRewritten(s: State, t: State, id: nat, p: PurchaseOrder) {
    id < |s.pos| && t == s.(pos := s.pos[id := p])
  }

  predicate OrderEffect(s: State, op: Op, t: State)
    requires OnPo(op)
  {
    match op
    case CreatePo(supplier, asked) => OrderAdded(s, t, supplier, asked)
    case UpdatePo(id, supplier, asked) =>
      && id < |s.pos| && id < |t.pos|
      && var p, q := s.pos[id], t.pos[id];
      && OrderRewritten(s, t, id, q) && q.status == p.status && q.deleted == p.deleted
      && q.supplier == (if supplier.Some? then supplier.value else p.supplier)
      && (asked.Some? ==> OrdersAsked(q.lines, asked.value) && q.edition > p.edition)
      && (asked.None? ==> q.lines == p.lines && q.edition == p.edition)
    case DeletePo(id) => id < |s.pos| && OrderRewritten(s, t, id, s.pos[id].(deleted := true))
    case SubmitPo(id) => id < |s.pos| && OrderRewritten(s, t, id, s.pos[id].(status := PoSubmitted))
    case ApprovePo(id) => id < |s.pos| && OrderRewritten(s, t, id, s.pos[id].(status := PoApproved))
    case RejectPo(id) => id < |s.pos| && OrderRewritten(s, t, id, s.pos[id].(status := PoRejected))
    case CancelPo(id) => id < |s.pos| && OrderRewritten(s, t, id, s.pos[id].(status := PoCancelled))
    case DuplicatePo(id) =>
      && id < |s.pos| && |t.pos| == |s.pos| + 1
      && (forall i | 0 <= i < |s.pos[id].lines| && i < |t.pos[|s.pos|].lines| ::
            t.pos[|s.pos|].lines[i].product == s.pos[id].lines[i].product)
      && OrderAdded(s, t, s.pos[id].supplier, AskedAgain(s.pos[id].lines))
  }

  /** What an order asked for, without what was received. */
  function AskedAgain(lines: seq<PoLine>): seq<Proc.OrderLine> {
    if lines == [] then []
    else [Proc.OrderLine(lines[0].product, lines[0].ordered)] + AskedAgain(lines[1..])
  }

  lemma {:induction false} AskedAgainAt(lines: seq<PoLine>)
    ensures |AskedAgain(lines)| == |lines|
    ensures forall i | 0 <= i < |lines| ::
              AskedAgain(lines)[i].product == lines[i].product && AskedAgain(lines)[i].ordered == lines[i].ordered
  {
    if lines != [] {
      AskedAgainAt(lines[1..]);
    }
  }

  lemma DuplicateRequest(s: State, op: Op)
    requires op.DuplicatePo?
    ensures Apply(s, op).Ok? <==> OrderAllowed(s, op)
    ensures Apply(s, op).Ok? ==> OrderEffect(s, op, Apply(s, op).value)
    ensures Apply(s, op).Err? ==> Apply(s, op) == Err(if OrderUnknown(s, op) then NotFound else Invalid)
  {
    assert Apply(s, op) == Proc.DuplicatePo(s, op.id);
    if op.id < |s.pos| {
      var lines, asked := s.pos[op.id].lines, Proc.OrderLines(s.pos[op.id].lines);
      AskedAgainAt(lines);
      assert Proc.ProductsKnown(s, asked) <==> forall i | 0 <= i < |lines| :: lines[i].product in s.products by {
        assert forall i | 0 <= i < |lines| :: asked[i].product == lines[i].product;
      }
    }
  }

  lemma OwnOrderRequest(s: State, op: Op)
    requires OnPo(op) && !op.DuplicatePo?
    ensures Apply(s, op).Ok? <==> OrderAllowed(s, op)
    ensures Apply(s, op).Ok? ==> OrderEffect(s, op, Apply(s, op).value)
    ensures Apply(s, op).Err? ==> Apply(s, op) == Err(if OrderUnknown(s, op) then NotFound else Invalid)
  {
  }

  lemma OrderRequest(s: State, op: Op)
    requires OnPo(op)
    ensures Apply(s, op).Ok? <==> OrderAllowed(s, op)
    ensures Apply(s, op).Ok? ==> OrderEffect(s, op, Apply(s, op).value)
    ensures Apply(s, op).Err? ==> Apply(s, op) == Err(if OrderUnknown(s, op) then NotFound else Invalid)
  {
    if op.DuplicatePo? {
      DuplicateRequest(s, op);
    } else {
      OwnOrderRequest(s, op);
    }
  }

  // ------------------------------------------------------------------
  // Goods received notes
  // ------------------------------------------------------------------

  predicate LineFound(p: PurchaseOrder, po: nat, x: GrnLine) {
    x.poLine.po == po && x.poLine.edition == p.edition && x.poLine.pos < |p.lines|
  }

  /** The line is on the order, within what is left of it and, where that is asked, of its product. */
  predicate LineFits(p: PurchaseOrder, po: nat, x: GrnLine, sameProduct: bool) {
    && LineFound(p, po, x)
    && x.qty <= p.lines[x.poLine.pos].ordered - p.lines[x.poLine.pos].received
    && (sameProduct ==> x.product == p.lines[x.poLine.pos].product)
  }

  predicate LinesFit(p: PurchaseOrder, po: nat, lines: seq<GrnLine>, sameProduct: bool) {
    forall k | 0 <= k < |lines| :: LineFits(p, po, lines[k], sameProduct)
  }

  /** The first line that does not fit is not on the order at all. */
  predicate FirstMisfitUnknown(p: PurchaseOrder, po: nat, lines: seq<GrnLine>, sameProduct: bool) {
    exists k | 0 <= k < |lines| ::
      !LineFound(p, po, lines[k]) && forall j | 0 <= j < k :: LineFits(p, po, lines[j], sameProduct)
  }

  lemma {:induction false} LinesChecked(pos: seq<PurchaseOrder>, po: nat, lines: seq<GrnLine>, sameProduct: bool)
    requires po < |pos|
    ensures Proc.CheckLines(pos, po, lines, sameProduct) ==
            if LinesFit(pos[po], po, lines, sameProduct) then None
            else Some(if FirstMisfitUnknown(pos[po], po, lines, sameProduct) then NotFound else Invalid)
    decreases |lines|
  {
    if lines != [] {
      var p, rest := pos[po], lines[1..];
      LinesChecked(pos, po, rest, sameProduct);
      if LineFits(p, po, lines[0], sameProduct) {
        FitsFirst(p, po, lines, sameProduct);
      }
    }
  }

  lemma FitsFirst(p: PurchaseOrder, po: nat, lines: seq<GrnLine>, sameProduct: bool)
    requires lines != [] && LineFits(p, po, lines[0], sameProduct)
    ensures LinesFit(p, po, lines, sameProduct) <==> LinesFit(p, po, lines[1..], sameProduct)
    ensures FirstMisfitUnknown(p, po, lines, sameProduct) <==> FirstMisfitUnknown(p, po, lines[1..], sameProduct)
  {
    var rest := lines[1..];
    forall k | 0 <= k < |rest| ensures rest[k] == lines[k + 1] {
    }
    if LinesFit(p, po, rest, sameProduct) {
      forall k | 0 <= k < |lines| ensures LineFits(p, po, lines[k], sameProduct) {
        assert k > 0 ==> lines[k] == rest[k - 1];
      }
    }
    if FirstMisfitUnknown(p, po, lines, sameProduct) {
      var k :| 0 <= k < |lines| && !LineFound(p, po, lines[k])
               && forall j | 0 <= j < k :: LineFits(p, po, lines[j], sameProduct);
      assert !LineFound(p, po, rest[k - 1]);
      assert forall j | 0 <= j < k - 1 :: LineFits(p, po, rest[j], sameProduct);
    }
    if FirstMisfitUnknown(p, po, rest, sameProduct) {
      var k :| 0 <= k < |rest| && !LineFound(p, po, rest[k])
               && forall j | 0 <= j < k :: LineFits(p, po, rest[j], sameProduct);
      assert !LineFound(p, po, lines[k + 1]);
      forall j | 0 <= j < k + 1 ensures LineFits(p, po, lines[j], sameProduct) {
        assert j > 0 ==> lines[j] == rest[j - 1];
      }
    }
  }

  predicate NoteIs(s: State, id: nat, statuses: set<Status>) {
    id < |s.grns| && s.grns[id].status in statuses
  }

  predicate NoteAllowed(s: State, op: Op)
    requires OnGrn(op)
  {
    match op
    case CreateGrn(po, lines) =>
      lines != [] && OrderIs(s, po, {PoApproved, PartiallyReceived}) && LinesFit(s.pos[po], po, lines, true)
    case UpdateGrn(id, lines) =>
      && NoteIs(s, id, {Draft})
      && (lines.Some? ==>
            && LivePo(s.pos, s.grns[id].po)
            && LinesFit(s.pos[s.grns[id].po], s.grns[id].po, lines.value, false))
    case SubmitGrn(id) => NoteIs(s, id, {Draft}) && s.grns[id].lines != []
    case ApproveGrn(id, _) => NoteIs(s, id, {Submitted})
    case CancelGrn(id) => NoteIs(s, id, {Draft, Submitted, Cancelled})
  }

  predicate NoteUnknown(s: State, op: Op)
    requires OnGrn(op)
  {
    if op.CreateGrn? then
      && op.grnLines != []
      && (|| !LivePo(s.pos, op.po)
          || (&& s.pos[op.po].status in {PoApproved, PartiallyReceived}
              && FirstMisfitUnknown(s.pos[op.po], op.po, op.grnLines, true)))
    else if op.id >= |s.grns| then
      true
    else if op.UpdateGrn? then
      var po := s.grns[op.id].po;
      && s.grns[op.id].status.Draft? && op.newGrnLines.Some?
      && (!LivePo(s.pos, po) || FirstMisfitUnknown(s.pos[po], po, op.newGrnLines.value, false))
    else
      false
  }

  /** A note is created, rewritten or approved; approval is the only one that touches anything else. */
  ghost predicate NoteEffect(s: State, op: Op, t: State)
    requires OnGrn(op)
  {
    match op
    case CreateGrn(po, lines) => t == s.(grns := s.grns + [Grn(po, Draft, lines)])
    case UpdateGrn(id, lines) =>
      && id < |s.grns|
      && t == s.(grns := s.grns[id := s.grns[id].(lines := if lines.Some? then lines.value else s.grns[id].lines)])
    case SubmitGrn(id) => id < |s.grns| && t == s.(grns := s.grns[id := s.grns[id].(status := Submitted)])
    case CancelGrn(id) => id < |s.grns| && t == s.(grns := s.grns[id := s.grns[id].(status := Cancelled)])
    case ApproveGrn(id, _) =>
      && id < |s.grns| && OrderReceives(s, t, id)
      && t.adjustments == s.adjustments && t.releases == s.releases
      && t.products == s.products && t.suppliers == s.suppliers
  }

  lemma NoteRequest(s: State, op: Op)
    requires OnGrn(op) && GrnsOnOrder(s) && NoNegativeStock(s.books.stock)
    ensures Apply(s, op).Ok? <==> NoteAllowed(s, op)
    ensures Apply(s, op).Ok? ==> NoteEffect(s, op, Apply(s, op).value)
    ensures Apply(s, op).Err? ==> Apply(s, op) == Err(if NoteUnknown(s, op) then NotFound else Invalid)
  {
    if op.CreateGrn? {
      if op.po < |s.pos| {
        LinesChecked(s.pos, op.po, op.grnLines, true);
      }
    } else if op.UpdateGrn? {
      if op.id < |s.grns| && op.newGrnLines.Some? && s.grns[op.id].po < |s.pos| {
        LinesChecked(s.pos, s.grns[op.id].po, op.newGrnLines.value, false);
      }
    } else if op.ApproveGrn? {
      ApproveGrnSucceeds(s, op.id, op.picks);
      if Apply(s, op).Ok? {
        ApproveGrnReceives(s, op.id, op.picks);
      }
    }
  }

  // ------------------------------------------------------------------
  // Stock adjustments
  // ------------------------------------------------------------------

  predicate AdjustmentIs(s: State, id: nat, statuses: set<Status>) {
    id < |s.adjustments| && !s.adjustments[id].deleted && s.adjustments[id].status in statuses
  }

  predicate AdjustmentProductsKnown(s: State, lines: seq<AdjustmentLine>) {
    forall i | 0 <= i < |lines| :: lines[i].product in s.products
  }

  predicate DistinctAdjusted(lines: seq<AdjustmentLine>) {
    forall i, j | 0 <= i < j < |lines| :: lines[i].product != lines[j].product
  }

  ghost predicate AdjustmentAllowed(s: State, op: Op)
    requires OnAdjustment(op)
  {
    match op
    case CreateAdjustment(_, lines) => lines != [] && DistinctAdjusted(lines) && AdjustmentProductsKnown(s, lines)
    case UpdateAdjustment(id, _, lines) =>
      AdjustmentIs(s, id, {Draft}) && (lines.Some? ==> AdjustmentProductsKnown(s, lines.value))
    case DeleteAdjustment(id) => AdjustmentIs(s, id, {Draft})
    case SubmitAdjustment(id) => AdjustmentIs(s, id, {Draft}) && s.adjustments[id].lines != []
    case ApproveAdjustment(id) =>
      && AdjustmentIs(s, id, {Submitted})
      && (s.adjustments[id].kind.ByDecrease? ==>
            forall p: nat :: Sum(s.adjustments[id].lines, AdjustedQty(p)) <= LevelOf(s.books.stock, p).qty)
    case CancelAdjustment(id) => AdjustmentIs(s, id, {Draft, Submitted})
  }

  predicate AdjustmentUnknown(s: State, op: Op)
    requires OnAdjustment(op)
  {
    if op.CreateAdjustment? then
      op.lines != [] && DistinctAdjusted(op.lines) && !AdjustmentProductsKnown(s, op.lines)
    else if !LiveAdjustment(s, op.id) then
      true
    else
      && op.UpdateAdjustment? && s.adjustments[op.id].status.Draft?
      && op.newLines.Some? && !AdjustmentProductsKnown(s, op.newLines.value)
  }

  predicate AdjustmentEffect(s: State, op: Op, t: State)
    requires OnAdjustment(op)
  {
    if op.CreateAdjustment? then
      t == s.(adjustments := s.adjustments + [Adjustment(op.kind, Draft, false, op.lines)])
    else
      && op.id < |s.adjustments| && op.id < |t.adjustments|
      && t == s.(books := t.books, adjustments := s.adjustments[op.id := t.adjustments[op.id]])
      && (!op.ApproveAdjustment? ==> t.books == s.books)
      && AdjustmentRow(op, s.adjustments[op.id], t.adjustments[op.id])
  }

  /** The row before and after. */
  predicate AdjustmentRow(op: Op, a: Adjustment, b: Adjustment) {
    && (op.UpdateAdjustment? ==>
          && b.status == a.status && b.deleted == a.deleted
          && b.kind == (if op.newKind.Some? then op.newKind.value else a.kind)
          && b.lines == (if op.newLines.Some? then op.newLines.value else a.lines))
    && (op.DeleteAdjustment? ==> b == a.(deleted := true))
    && (op.SubmitAdjustment? ==> b == a.(status := Submitted))
    && (op.ApproveAdjustment? ==> b == a.(status := Approved))
    && (op.CancelAdjustment? ==> b == a.(status := Cancelled))
  }

  lemma AdjustmentApproval(s: State, op: Op)
    requires op.ApproveAdjustment? && NoNegativeStock(s.books.stock)
    ensures Apply(s, op).Ok? <==> AdjustmentAllowed(s, op)
    ensures Apply(s, op).Ok? ==> AdjustmentEffect(s, op, Apply(s, op).value)
    ensures Apply(s, op).Err? ==> Apply(s, op) == Err(if AdjustmentUnknown(s, op) then NotFound else Invalid)
  {
    AdjustmentApprovedIff(s, op.id);
    if LiveAdjustment(s, op.id) {
      var a := s.adjustments[op.id];
      PostingError(s.books, AdjustmentPostings(a.kind, a.lines), Ref(AdjustmentRef, op.id));
    }
  }

  lemma AdjustmentEdit(s: State, op: Op)
    requires OnAdjustment(op) && !op.ApproveAdjustment? && NoNegativeStock(s.books.stock)
    ensures Apply(s, op).Ok? <==> AdjustmentAllowed(s, op)
    ensures Apply(s, op).Ok? ==> AdjustmentEffect(s, op, Apply(s, op).value)
    ensures Apply(s, op).Err? ==> Apply(s, op) == Err(if AdjustmentUnknown(s, op) then NotFound else Invalid)
  {
  }

  lemma AdjustmentRequest(s: State, op: Op)
    requires OnAdjustment(op) && NoNegativeStock(s.books.stock)
    ensures Apply(s, op).Ok? <==> AdjustmentAllowed(s, op)
    ensures Apply(s, op).Ok? ==> AdjustmentEffect(s, op, Apply(s, op).value)
    ensures Apply(s, op).Err? ==> Apply(s, op) == Err(if AdjustmentUnknown(s, op) then NotFound else Invalid)
  {
    if op.ApproveAdjustment? {
      AdjustmentApproval(s, op);
    } else {
      AdjustmentEdit(s, op);
    }
  }

  /** Posting can only fail for lack of stock. */
  lemma {:induction false} PostingError(b: Books, ps: seq<Posting>, ref: Ref)
    ensures PostAll(b, ps, ref).Err? ==> PostAll(b, ps, ref) == Err(Invalid)
    decreases |ps|
  {
    if ps != [] && Post(b, ps[0], ref).Ok? {
      PostingError(Post(b, ps[0], ref).value, ps[1..], ref);
    }
  }

  // ------------------------------------------------------------------
  // Stock releases
  // ------------------------------------------------------------------

  predicate ReleaseIs(s: State, id: nat, statuses: set<Status>) {
    id < |s.releases| && !s.releases[id].deleted && s.releases[id].status in statuses
  }

  predicate ReleaseProductsKnown(s: State, asked: seq<Rel.Request>) {
    forall i | 0 <= i < |asked| :: asked[i].product in s.products
  }

  predicate DistinctReleased(asked: seq<Rel.Request>) {
    forall i, j | 0 <= i < j < |asked| :: asked[i].product != asked[j].product
  }

  /** The lines are those asked for, in their order, at no cost yet. */
  predicate ReleasesAsked(lines: seq<ReleaseLine>, asked: seq<Rel.Request>) {
    && |lines| == |asked|
    && forall i | 0 <= i < |asked| :: lines[i] == ReleaseLine(asked[i].product, asked[i].qty, 0, 0)
  }

  ghost predicate ReleaseAllowed(s: State, op: Op)
    requires OnRelease(op)
  {
    match op
    case CreateRelease(asked) => asked != [] && DistinctReleased(asked) && ReleaseProductsKnown(s, asked)
    case UpdateRelease(id, asked) =>
      ReleaseIs(s, id, {Draft}) && (asked.Some? ==> ReleaseProductsKnown(s, asked.value))
    case DeleteRelease(id) => ReleaseIs(s, id, {Draft})
    case SubmitRelease(id) => ReleaseIs(s, id, {Draft}) && s.releases[id].lines != []
    case ApproveRelease(id) =>
      && ReleaseIs(s, id, {Submitted})
      && forall p: nat :: Sum(s.releases[id].lines, ReleaseQty(p)) <= LevelOf(s.books.stock, p).qty
    case CancelRelease(id) => ReleaseIs(s, id, {Draft, Submitted})
  }

  predicate ReleaseUnknown(s: State, op: Op)
    requires OnRelease(op)
  {
    if op.CreateRelease? then
      op.requests != [] && DistinctReleased(op.requests) && !ReleaseProductsKnown(s, op.requests)
    else if !LiveRelease(s, op.id) then
      true
    else
      && op.UpdateRelease? && s.releases[op.id].status.Draft?
      && op.newRequests.Some? && !ReleaseProductsKnown(s, op.newRequests.value)
  }

  predicate ReleaseEffect(s: State, op: Op, t: State)
    requires OnRelease(op)
  {
    if op.CreateRelease? then
      && t == s.(releases := t.releases) && |t.releases| == |s.releases| + 1
      && t.releases[..|s.releases|] == s.releases
      && var r := t.releases[|s.releases|];
      r == StockRelease(Draft, false, r.lines, 0, 0) && ReleasesAsked(r.lines, op.requests)
    else
      && op.id < |s.releases| && op.id < |t.releases|
      && t == s.(books := t.books, releases := s.releases[op.id := t.releases[op.id]])
      && (!op.ApproveRelease? ==> t.books == s.books)
      && ReleaseRow(op, s.releases[op.id], t.releases[op.id])
  }

  predicate ReleaseRow(op: Op, a: StockRelease, b: StockRelease) {
    && (op.UpdateRelease? ==>
          && b == a.(lines := b.lines)
          && (op.newRequests.Some? ==> ReleasesAsked(b.lines, op.newRequests.value))
          && (op.newRequests.None? ==> b.lines == a.lines))
    && (op.DeleteRelease? ==> b == a.(deleted := true))
    && (op.SubmitRelease? ==> b == a.(status := Submitted))
    && (op.ApproveRelease? ==> b.status.Approved? && b.deleted == a.deleted && Asked(b.lines) == Asked(a.lines))
    && (op.CancelRelease? ==> b == a.(status := Cancelled))
  }

  lemma ReleaseApproval(s: State, op: Op)
    requires op.ApproveRelease? && NoNegativeStock(s.books.stock)
    ensures Apply(s, op).Ok? <==> ReleaseAllowed(s, op)
    ensures Apply(s, op).Ok? ==> ReleaseEffect(s, op, Apply(s, op).value)
    ensures Apply(s, op).Err? ==> Apply(s, op) == Err(if ReleaseUnknown(s, op) then NotFound else Invalid)
  {
    ReleaseApprovedIff(s, op.id);
    if LiveRelease(s, op.id) {
      PostingError(s.books, ReleasePostings(s.releases[op.id].lines), Ref(ReleaseRef, op.id));
    }
    if Apply(s, op).Ok? {
      assert Asked(Apply(s, op).value.releases[op.id].lines) == Asked(s.releases[op.id].lines);
    }
  }

  lemma ReleaseEdit(s: State, op: Op)
    requires OnRelease(op) && !op.ApproveRelease? && NoNegativeStock(s.books.stock)
    ensures Apply(s, op).Ok? <==> ReleaseAllowed(s, op)
    ensures Apply(s, op).Ok? ==> ReleaseEffect(s, op, Apply(s, op).value)
    ensures Apply(s, op).Err? ==> Apply(s, op) == Err(if ReleaseUnknown(s, op) then NotFound else Invalid)
  {
  }

  lemma ReleaseRequest(s: State, op: Op)
    requires OnRelease(op) && NoNegativeStock(s.books.stock)
    ensures Apply(s, op).Ok? <==> ReleaseAllowed(s, op)
    ensures Apply(s, op).Ok? ==> ReleaseEffect(s, op, Apply(s, op).value)
    ensures Apply(s, op).Err? ==> Apply(s, op) == Err(if ReleaseUnknown(s, op) then NotFound else Invalid)
  {
    if op.ApproveRelease? {
      ReleaseApproval(s, op);
    } else {
      ReleaseEdit(s, op);
    }
  }

  // ------------------------------------------------------------------
  // Every request of every run
  // ------------------------------------------------------------------

  ghost predicate Allowed(s: State, op: Op) {
    if OnPo(op) then OrderAllowed(s, op)
    else if OnGrn(op) then NoteAllowed(s, op)
    else if OnAdjustment(op) then AdjustmentAllowed(s, op)
    else if OnRelease(op) then ReleaseAllowed(s, op)
    else true
  }

  predicate Unknown(s: State, op: Op) {
    if OnPo(op) then OrderUnknown(s, op)
    else if OnGrn(op) then NoteUnknown(s, op)
    else if OnAdjustment(op) then AdjustmentUnknown(s, op)
    else if OnRelease(op) then ReleaseUnknown(s, op)
    else false
  }

  ghost predicate Effect(s: State, op: Op, t: State) {
    if OnPo(op) then OrderEffect(s, op, t)
    else if OnGrn(op) then NoteEffect(s, op, t)
    else if OnAdjustment(op) then AdjustmentEffect(s, op, t)
    else if OnRelease(op) then ReleaseEffect(s, op, t)
    else t == s.(products := op.products, suppliers := op.suppliers)
  }

  lemma RequestOn(s: State, op: Op)
    requires GrnsOnOrder(s) && NoNegativeStock(s.books.stock)
    ensures Apply(s, op).Ok? <==> Allowed(s, op)
    ensures Apply(s, op).Ok? ==> Effect(s, op, Apply(s, op).value)
    ensures Apply(s, op).Err? ==> Apply(s, op) == Err(if Unknown(s, op) then NotFound else Invalid)
  {
    if OnPo(op) {
      OrderRequest(s, op);
    } else if OnGrn(op) {
      NoteRequest(s, op);
    } else if OnAdjustment(op) {
      AdjustmentRequest(s, op);
    } else if OnRelease(op) {
      ReleaseRequest(s, op);
    }
  }

  /**
   * In every run a request is accepted exactly when the rows and quantities it needs are there, and then
   * it writes exactly its effect. Otherwise it changes nothing and says whether something was not found.
   */
  lemma RequestsDoWhatTheySay(ops: seq<Op>, op: Op)
    ensures Apply(Run(ops), op).Ok? <==> Allowed(Run(ops), op)
    ensures Apply(Run(ops), op).Ok? ==> Effect(Run(ops), op, Run(ops + [op]))
    ensures Apply(Run(ops), op).Err? ==>
              && Run(ops + [op]) == Run(ops)
              && Apply(Run(ops), op) == Err(if Unknown(Run(ops), op) then NotFound else Invalid)
  {
    EveryRunIsHealthy(ops);
    StockIsNeverNegative(ops);
    RequestOn(Run(ops), op);
    RunSnoc(ops, op);
  }
}
