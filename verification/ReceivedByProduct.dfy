/**
 * Joining receipts to stock by product. An order line is credited by its id, stock by the product the
 * note line names; this file says when the two totals of a product agree.
 */
module ReceivedByProduct {
  import opened Stock
  import opened Sums
  import opened Tables
  import opened System
  import opened Effects
  import opened Receiving
  import opened ReceivingRuns
  import opened TwoLedgers
  import opened Reconciliation
  import opened Lifecycle
  import Proc = Procurement

  function ReceivedOf(p: nat): PoLine -> int {
    (l: PoLine) => if l.product == p then l.received else 0
  }

  function OrderReceived(p: nat): PurchaseOrder -> int {
    (o: PurchaseOrder) => Sum(o.lines, ReceivedOf(p))
  }

  /** The quantity of a note line, counted for the product of the order line it is booked on. */
  function BookedQty(pos: seq<PurchaseOrder>, p: nat): GrnLine -> int {
    (x: GrnLine) =>
      if Proc.OnOrder(pos, x.poLine) && pos[x.poLine.po].lines[x.poLine.pos].product == p then x.qty else 0
  }

  function ApprovedBooked(pos: seq<PurchaseOrder>, p: nat): Grn -> int {
    (g: Grn) => if g.status.Approved? then Sum(g.lines, BookedQty(pos, p)) else 0
  }

  // ------------------------------------------------------------------
  // One approval
  // ------------------------------------------------------------------

  lemma ReceiveLineAdds(pos: seq<PurchaseOrder>, x: GrnLine, p: nat)
    requires Proc.OnOrder(pos, x.poLine)
    ensures Sum(Proc.ReceiveLine(pos, x), OrderReceived(p)) == Sum(pos, OrderReceived(p)) + BookedQty(pos, p)(x)
  {
    var next, po, i := Proc.ReceiveLine(pos, x), x.poLine.po, x.poLine.pos;
    SumUpdate(pos, po, next[po], OrderReceived(p));
    SumUpdate(pos[po].lines, i, next[po].lines[i], ReceivedOf(p));
  }

  lemma SameBooking(pos: seq<PurchaseOrder>, x: GrnLine, y: GrnLine, p: nat)
    requires Proc.OnOrder(pos, x.poLine)
    ensures BookedQty(Proc.ReceiveLine(pos, x), p)(y) == BookedQty(pos, p)(y)
  {
  }

  /** The approval loop adds each line to the product of its order line. */
  lemma {:induction false} PostLinesBooked(
    d: Proc.Desk, lines: seq<GrnLine>, picks: seq<nat>, grn: nat, at: nat, p: nat)
    requires Proc.PostLines(d, lines, picks, grn, at).Ok?
    ensures Sum(Proc.PostLines(d, lines, picks, grn, at).value.pos, OrderReceived(p)) ==
            Sum(d.pos, OrderReceived(p)) + Sum(lines, BookedQty(d.pos, p))
    decreases |lines|
  {
    if lines != [] {
      var next := Proc.PostLine(d, lines[0], Proc.Head(picks), grn, at).value;
      ReceiveLineAdds(d.pos, lines[0], p);
      PostLinesBooked(next, lines[1..], Proc.Tail(picks), grn, at, p);
      var rest := lines[1..];
      forall i | 0 <= i < |rest| ensures BookedQty(d.pos, p)(rest[i]) == BookedQty(next.pos, p)(rest[i]) {
        SameBooking(d.pos, lines[0], rest[i], p);
      }
      SumPointwise(rest, rest, BookedQty(d.pos, p), BookedQty(next.pos, p));
    }
  }

  lemma ApprovalBooks(s: State, id: nat, picks: seq<nat>, p: nat)
    requires Proc.ApproveGrn(s, id, picks).Ok?
    ensures
      var g, t := s.grns[id], Proc.ApproveGrn(s, id, picks).value;
      && Sum(t.pos, OrderReceived(p)) == Sum(s.pos, OrderReceived(p)) + Sum(g.lines, BookedQty(s.pos, p))
      && Sum(t.grns, ApprovedQty(p)) == Sum(s.grns, ApprovedQty(p)) + Sum(g.lines, LineQty(p))
  {
    var g, t := s.grns[id], Proc.ApproveGrn(s, id, picks).value;
    var d := Proc.Desk(s.books, s.receipts, s.pos);
    PostLinesBooked(d, g.lines, picks, id, s.clock, p);
    var next := Proc.PostLines(d, g.lines, picks, id, s.clock).value;
    SumUpdate(next.pos, g.po, t.pos[g.po], OrderReceived(p));
    SumUpdate(s.grns, id, g.(status := Approved), ApprovedQty(p));
  }

  /** What the orders received of a product is what approved notes that name the product brought. */
  ghost predicate ProductConserved(s: State, p: nat) {
    Sum(s.pos, OrderReceived(p)) == Sum(s.grns, ApprovedQty(p))
  }

  /**
   * An approval keeps the totals of all products equal exactly when, before the call, the note's lines
   * that name a product total the same as its lines that are booked on order lines of that product.
   */
  lemma ApprovalConservesProductsIff(s: State, id: nat, picks: seq<nat>)
    requires Proc.ApproveGrn(s, id, picks).Ok?
    requires forall p: nat :: ProductConserved(s, p)
    ensures
      var g, t := s.grns[id], Proc.ApproveGrn(s, id, picks).value;
      (forall p: nat :: ProductConserved(t, p)) <==>
      (forall p: nat :: Sum(g.lines, LineQty(p)) == Sum(g.lines, BookedQty(s.pos, p)))
  {
    var g, t := s.grns[id], Proc.ApproveGrn(s, id, picks).value;
    forall p: nat
      ensures ProductConserved(t, p) <==> Sum(g.lines, LineQty(p)) == Sum(g.lines, BookedQty(s.pos, p))
    {
      assert ProductConserved(s, p);
      ApprovalBooks(s, id, picks, p);
    }
  }

  // ------------------------------------------------------------------
  // Whole runs
  // ------------------------------------------------------------------

  /** By the order line's product the two totals always agree. */
  ghost predicate Booked(s: State, p: nat) {
    Sum(s.pos, OrderReceived(p)) == Sum(s.grns, ApprovedBooked(s.pos, p))
  }

  lemma NothingReceivedSum(o: PurchaseOrder, p: nat)
    requires NothingReceived(o.lines)
    ensures OrderReceived(p)(o) == 0
  {
    SumZero(o.lines, ReceivedOf(p));
  }

  lemma PoRewriteReceived(s: State, t: State, p: nat)
    requires StatusesTrue(s) && PoRewrite(s.pos, t.pos)
    ensures Sum(t.pos, OrderReceived(p)) == Sum(s.pos, OrderReceived(p))
  {
    var n := |s.pos|;
    assert t.pos == t.pos[..n] + t.pos[n..];
    SumConcat(t.pos[..n], t.pos[n..], OrderReceived(p));
    forall po | 0 <= po < n ensures OrderReceived(p)(t.pos[..n][po]) == OrderReceived(p)(s.pos[po]) {
      if t.pos[po] != s.pos[po] {
        assert StatusTrue(s.pos[po]);
        NothingReceivedSum(s.pos[po], p);
        NothingReceivedSum(t.pos[po], p);
      }
    }
    SumPointwise(t.pos[..n], s.pos, OrderReceived(p), OrderReceived(p));
    forall i | 0 <= i < |t.pos[n..]| ensures OrderReceived(p)(t.pos[n..][i]) == 0 {
      NothingReceivedSum(t.pos[n + i], p);
    }
    SumZero(t.pos[n..], OrderReceived(p));
  }

  /** Every line of every note finds the same product on its order before and after. */
  ghost predicate SameTargets(pos: seq<PurchaseOrder>, next: seq<PurchaseOrder>, grns: seq<Grn>) {
    forall g | 0 <= g < |grns| :: SameTargetsOf(pos, next, grns[g].lines)
  }

  ghost predicate SameTargetsOf(pos: seq<PurchaseOrder>, next: seq<PurchaseOrder>, lines: seq<GrnLine>) {
    forall k | 0 <= k < |lines| ::
      && Proc.OnOrder(pos, lines[k].poLine) && Proc.OnOrder(next, lines[k].poLine)
      && next[lines[k].poLine.po].lines[lines[k].poLine.pos].product ==
         pos[lines[k].poLine.po].lines[lines[k].poLine.pos].product
  }

  lemma SameTargetsSum(pos: seq<PurchaseOrder>, next: seq<PurchaseOrder>, grns: seq<Grn>, p: nat)
    requires SameTargets(pos, next, grns)
    ensures Sum(grns, ApprovedBooked(next, p)) == Sum(grns, ApprovedBooked(pos, p))
  {
    forall g | 0 <= g < |grns| ensures ApprovedBooked(next, p)(grns[g]) == ApprovedBooked(pos, p)(grns[g]) {
      assert SameTargetsOf(pos, next, grns[g].lines);
      SumPointwise(grns[g].lines, grns[g].lines, BookedQty(next, p), BookedQty(pos, p));
    }
    SumPointwise(grns, grns, ApprovedBooked(next, p), ApprovedBooked(pos, p));
  }

  lemma PoRewriteTargets(s: State, t: State)
    requires GrnsOnOrder(s) && PoRewrite(s.pos, t.pos)
    ensures SameTargets(s.pos, t.pos, s.grns)
  {
  }

  lemma ReceivingTargets(s: State, t: State, id: nat)
    requires GrnsOnOrder(s) && id < |s.grns| && OrderReceives(s, t, id)
    ensures SameTargets(s.pos, t.pos, s.grns)
  {
  }

  lemma ApprovalKeepsBooked(s: State, id: nat, picks: seq<nat>, p: nat)
    requires GrnsOnOrder(s) && Booked(s, p) && Proc.ApproveGrn(s, id, picks).Ok?
    ensures Booked(Proc.ApproveGrn(s, id, picks).value, p)
  {
    var g, t := s.grns[id], Proc.ApproveGrn(s, id, picks).value;
    ApprovalBooks(s, id, picks, p);
    ApproveGrnReceives(s, id, picks);
    ReceivingTargets(s, t, id);
    SameTargetsSum(s.pos, t.pos, s.grns, p);
    assert SameTargetsOf(s.pos, t.pos, g.lines);
    SumPointwise(g.lines, g.lines, BookedQty(t.pos, p), BookedQty(s.pos, p));
    SumUpdate(s.grns, id, g.(status := Approved), ApprovedBooked(t.pos, p));
  }

  lemma SameApprovedBooked(grns: seq<Grn>, next: seq<Grn>, pos: seq<PurchaseOrder>, p: nat)
    requires SameApproved(grns, next)
    ensures Sum(next, ApprovedBooked(pos, p)) == Sum(grns, ApprovedBooked(pos, p))
  {
    var n := |grns|;
    assert next == next[..n] + next[n..];
    SumConcat(next[..n], next[n..], ApprovedBooked(pos, p));
    SumZero(next[n..], ApprovedBooked(pos, p));
    SumPointwise(next[..n], grns, ApprovedBooked(pos, p), ApprovedBooked(pos, p));
  }

  lemma StepKeepsBooked(s: State, op: Op, p: nat)
    requires ReceivingInv(s) && Booked(s, p)
    ensures Booked(Exec(s, op), p)
  {
    var t := Exec(s, op);
    if op.ApproveGrn? {
      if Apply(s, op).Ok? {
        ApprovalKeepsBooked(s, op.id, op.picks, p);
      }
    } else if OnPo(op) {
      PoStepRewrites(s, op);
      PoRewriteReceived(s, t, p);
      PoRewriteTargets(s, t);
      SameTargetsSum(s.pos, t.pos, s.grns, p);
    } else {
      OtherStepsKeepReceipts(s, op);
      SameApprovedBooked(s.grns, t.grns, s.pos, p);
      SamePos(s, op);
    }
  }

  lemma SamePos(s: State, op: Op)
    requires !OnPo(op) && !op.ApproveGrn?
    ensures Exec(s, op).pos == s.pos
  {
  }

  lemma {:induction false} BookedAfter(s: State, ops: seq<Op>, p: nat)
    requires ReceivingInv(s) && Booked(s, p)
    ensures Booked(After(s, ops), p)
    decreases |ops|
  {
    if ops != [] {
      StepKeepsReceiving(s, ops[0]);
      StepKeepsBooked(s, ops[0], p);
      BookedAfter(Exec(s, ops[0]), ops[1..], p);
    }
  }

  /**
   * In every run the orders' received quantity of a product is that of the approved note lines booked on
   * its order lines. It is the quantity the notes brought into stock exactly when those lines total the
   * same as the approved lines that name the product.
   */
  lemma ReceivedIsBooked(ops: seq<Op>, p: nat)
    ensures
      var s := Run(ops);
      && Sum(s.pos, OrderReceived(p)) == Sum(s.grns, ApprovedBooked(s.pos, p))
      && LevelOf(s.books.stock, p).qty ==
         Sum(s.pos, OrderReceived(p))
         + (Sum(s.grns, ApprovedQty(p)) - Sum(s.grns, ApprovedBooked(s.pos, p)))
         + NetAdjustments(s, p, |s.adjustments|) - Sum(s.releases, ReleasedQty(p))
  {
    EveryRunIsHealthy(ops);
    BookedAfter(EMPTY, ops, p);
    OnHandIsBalance(Run(ops), p);
  }

  // ------------------------------------------------------------------
  // Notes whose lines name their order lines' products
  // ------------------------------------------------------------------

  ghost predicate NamesOrdered(pos: seq<PurchaseOrder>, lines: seq<GrnLine>) {
    forall k | 0 <= k < |lines| ::
      && Proc.OnOrder(pos, lines[k].poLine)
      && pos[lines[k].poLine.po].lines[lines[k].poLine.pos].product == lines[k].product
  }

  ghost predicate NotesNameOrdered(s: State) {
    forall g | 0 <= g < |s.grns| :: NamesOrdered(s.pos, s.grns[g].lines)
  }

  /** The check that editing a note leaves out. */
  ghost predicate EditNamesOrdered(s: State, op: Op) {
    op.UpdateGrn? && Apply(s, op).Ok? && op.newGrnLines.Some? ==> NamesOrdered(s.pos, op.newGrnLines.value)
  }

  ghost predicate EditsNameOrdered(s: State, ops: seq<Op>)
    decreases |ops|
  {
    ops != [] ==> EditNamesOrdered(s, ops[0]) && EditsNameOrdered(Exec(s, ops[0]), ops[1..])
  }

  lemma NewPosKeepNames(s: State, t: State)
    requires NotesNameOrdered(s) && SameTargets(s.pos, t.pos, s.grns)
    requires |t.grns| == |s.grns| && forall g | 0 <= g < |s.grns| :: t.grns[g].lines == s.grns[g].lines
    ensures NotesNameOrdered(t)
  {
  }

  lemma NoteStepNames(s: State, op: Op)
    requires NotesNameOrdered(s) && EditNamesOrdered(s, op) && OnGrn(op) && !op.ApproveGrn?
    ensures NotesNameOrdered(Exec(s, op))
  {
    GrnStepsAreQuiet(s, op);
    var t := Exec(s, op);
    if op.CreateGrn? && Apply(s, op).Ok? {
      CheckedLines(s.pos, op.po, op.grnLines, true);
    }
    forall g | 0 <= g < |t.grns| ensures NamesOrdered(t.pos, t.grns[g].lines) {
      if g < |s.grns| {
        assert NamesOrdered(s.pos, s.grns[g].lines);
      }
    }
  }

  lemma StepNames(s: State, op: Op)
    requires ReceivingInv(s) && NotesNameOrdered(s) && EditNamesOrdered(s, op)
    ensures NotesNameOrdered(Exec(s, op))
  {
    var t := Exec(s, op);
    if op.ApproveGrn? {
      if Apply(s, op).Ok? {
        ApproveGrnReceives(s, op.id, op.picks);
        ReceivingTargets(s, t, op.id);
        NewPosKeepNames(s, t);
      }
    } else if OnGrn(op) {
      NoteStepNames(s, op);
    } else if OnPo(op) {
      PoStepRewrites(s, op);
      PoRewriteTargets(s, t);
      NewPosKeepNames(s, t);
    } else {
      assert t.pos == s.pos && t.grns == s.grns;
      forall g | 0 <= g < |t.grns| ensures NamesOrdered(t.pos, t.grns[g].lines) {
        assert NamesOrdered(s.pos, s.grns[g].lines);
      }
    }
  }

  lemma {:induction false} NamesAfter(s: State, ops: seq<Op>)
    requires ReceivingInv(s) && NotesNameOrdered(s) && EditsNameOrdered(s, ops)
    ensures NotesNameOrdered(After(s, ops))
    decreases |ops|
  {
    if ops != [] {
      StepKeepsReceiving(s, ops[0]);
      StepNames(s, ops[0]);
      NamesAfter(Exec(s, ops[0]), ops[1..]);
    }
  }

  /**
   * If every accepted edit of a note names its order lines' products, then in every run the orders'
   * received quantity of each product is what approved notes brought, and stock is what the orders
   * received plus net adjustments minus releases.
   */
  lemma OrdersReceiveTheirProducts(ops: seq<Op>, p: nat)
    requires EditsNameOrdered(EMPTY, ops)
    ensures
      var s := Run(ops);
      && Sum(s.pos, OrderReceived(p)) == Sum(s.grns, ApprovedQty(p))
      && LevelOf(s.books.stock, p).qty ==
         Sum(s.pos, OrderReceived(p)) + NetAdjustments(s, p, |s.adjustments|) - Sum(s.releases, ReleasedQty(p))
  {
    NamesAfter(EMPTY, ops);
    ReceivedIsBooked(ops, p);
    var s := Run(ops);
    forall g | 0 <= g < |s.grns| ensures ApprovedBooked(s.pos, p)(s.grns[g]) == ApprovedQty(p)(s.grns[g]) {
      assert NamesOrdered(s.pos, s.grns[g].lines);
      SumPointwise(s.grns[g].lines, s.grns[g].lines, BookedQty(s.pos, p), LineQty(p));
    }
    SumPointwise(s.grns, s.grns, ApprovedBooked(s.pos, p), ApprovedQty(p));
  }

  // ------------------------------------------------------------------
  // The exact condition
  // ------------------------------------------------------------------

  /** The lines total the same for every product by their own product and by their order lines' product. */
  ghost predicate Balanced(pos: seq<PurchaseOrder>, lines: seq<GrnLine>) {
    forall p: nat :: Sum(lines, LineQty(p)) == Sum(lines, BookedQty(pos, p))
  }

  ghost predicate AllBalanced(s: State) {
    forall g | 0 <= g < |s.grns| && s.grns[g].status.Approved? :: Balanced(s.pos, s.grns[g].lines)
  }

  ghost predicate AllConserved(s: State) {
    forall p: nat :: ProductConserved(s, p)
  }

  ghost predicate AllBooked(s: State) {
    forall p: nat :: Booked(s, p)
  }

  lemma BalancedIsConserved(s: State)
    requires AllBooked(s) && AllBalanced(s)
    ensures AllConserved(s)
  {
    forall p: nat ensures ProductConserved(s, p) {
      assert Booked(s, p);
      forall g | 0 <= g < |s.grns| ensures ApprovedBooked(s.pos, p)(s.grns[g]) == ApprovedQty(p)(s.grns[g]) {
        assert s.grns[g].status.Approved? ==> Balanced(s.pos, s.grns[g].lines);
      }
      SumPointwise(s.grns, s.grns, ApprovedBooked(s.pos, p), ApprovedQty(p));
    }
  }

  lemma SameTargetsBalance(pos: seq<PurchaseOrder>, next: seq<PurchaseOrder>, lines: seq<GrnLine>)
    requires SameTargetsOf(pos, next, lines)
    ensures Balanced(next, lines) <==> Balanced(pos, lines)
  {
    forall p: nat ensures Sum(lines, BookedQty(next, p)) == Sum(lines, BookedQty(pos, p)) {
      SumPointwise(lines, lines, BookedQty(next, p), BookedQty(pos, p));
    }
  }

  /** No step moves a note's lines to other products. */
  lemma StepTargets(s: State, op: Op)
    requires ReceivingInv(s)
    ensures SameTargets(s.pos, Exec(s, op).pos, s.grns)
  {
    var t := Exec(s, op);
    if op.ApproveGrn? && Apply(s, op).Ok? {
      ApproveGrnReceives(s, op.id, op.picks);
      ReceivingTargets(s, t, op.id);
    } else if OnPo(op) {
      PoStepRewrites(s, op);
      PoRewriteTargets(s, t);
    } else {
      if !op.ApproveGrn? {
        SamePos(s, op);
      }
      forall g | 0 <= g < |s.grns| ensures SameTargetsOf(s.pos, t.pos, s.grns[g].lines) {
        assert GrnOnOrder(s.pos, s.grns[g]);
      }
    }
  }

  /** An approved note is balanced for good, or not. */
  lemma {:induction false} ImbalanceStays(s: State, ops: seq<Op>)
    requires ReceivingInv(s) && AllBalanced(After(s, ops))
    ensures AllBalanced(s)
    decreases |ops|
  {
    if ops != [] {
      var op, t := ops[0], Exec(s, ops[0]);
      StepKeepsReceiving(s, op);
      ImbalanceStays(t, ops[1..]);
      StepTargets(s, op);
      forall g | 0 <= g < |s.grns| && s.grns[g].status.Approved? ensures Balanced(s.pos, s.grns[g].lines) {
        ApprovedNoteStays(s, op, g);
        assert Balanced(t.pos, t.grns[g].lines);
        SameTargetsBalance(s.pos, t.pos, s.grns[g].lines);
      }
    }
  }

  lemma ApprovedNoteStays(s: State, op: Op, g: nat)
    requires g < |s.grns| && s.grns[g].status.Approved?
    ensures g < |Exec(s, op).grns| && Exec(s, op).grns[g] == s.grns[g]
  {
    if !op.ApproveGrn? {
      OtherStepsKeepReceipts(s, op);
    }
  }

  /** The step after which the totals first differ is the approval of a note that is not balanced. */
  lemma StepConservesIff(s: State, op: Op)
    requires ReceivingInv(s) && AllBooked(s) && AllBalanced(s)
    ensures AllBooked(Exec(s, op))
    ensures AllConserved(Exec(s, op)) <==> AllBalanced(Exec(s, op))
  {
    var t := Exec(s, op);
    forall p: nat ensures Booked(t, p) {
      assert Booked(s, p);
      StepKeepsBooked(s, op, p);
    }
    if AllBalanced(t) {
      BalancedIsConserved(t);
    } else if op.ApproveGrn? && Apply(s, op).Ok? {
      BalancedIsConserved(s);
      ApprovalConservesProductsIff(s, op.id, op.picks);
      BalanceAfterApproval(s, op);
    } else {
      OthersKeepBalance(s, op);
      assert false;
    }
  }

  lemma BalanceAfterApproval(s: State, op: Op)
    requires ReceivingInv(s) && AllBalanced(s) && op.ApproveGrn? && Apply(s, op).Ok?
    ensures Balanced(s.pos, s.grns[op.id].lines) ==> AllBalanced(Exec(s, op))
  {
    var t := Exec(s, op);
    StepTargets(s, op);
    if Balanced(s.pos, s.grns[op.id].lines) {
      forall g | 0 <= g < |t.grns| && t.grns[g].status.Approved? ensures Balanced(t.pos, t.grns[g].lines) {
        assert t.grns[g].lines == s.grns[g].lines;
        assert g != op.id ==> Balanced(s.pos, s.grns[g].lines);
        assert SameTargetsOf(s.pos, t.pos, s.grns[g].lines);
        SameTargetsBalance(s.pos, t.pos, s.grns[g].lines);
      }
    }
  }

  lemma OthersKeepBalance(s: State, op: Op)
    requires ReceivingInv(s) && AllBalanced(s) && (op.ApproveGrn? ==> Apply(s, op).Err?)
    ensures AllBalanced(Exec(s, op))
  {
    var t := Exec(s, op);
    if !op.ApproveGrn? {
      OtherStepsKeepReceipts(s, op);
      StepTargets(s, op);
      forall g | 0 <= g < |t.grns| && t.grns[g].status.Approved? ensures Balanced(t.pos, t.grns[g].lines) {
        assert t.grns[g] == s.grns[g] && Balanced(s.pos, s.grns[g].lines);
        SameTargetsBalance(s.pos, t.pos, s.grns[g].lines);
      }
    }
  }

  lemma {:induction false} ConservedFromIff(s: State, ops: seq<Op>)
    requires ReceivingInv(s) && AllBooked(s) && AllBalanced(s)
    ensures Throughout(s, ops, AllConserved) <==> AllBalanced(After(s, ops))
    decreases |ops|
  {
    BalancedIsConserved(s);
    if ops == [] {
      assert ops[..0] == [];
    } else {
      var next := Exec(s, ops[0]);
      StepKeepsReceiving(s, ops[0]);
      StepConservesIff(s, ops[0]);
      ThroughoutTail(s, ops, AllConserved);
      if AllBalanced(next) {
        ConservedFromIff(next, ops[1..]);
      } else {
        if AllBalanced(After(s, ops)) {
          ImbalanceStays(next, ops[1..]);
        }
        assert After(next, ops[1..][..0]) == next;
      }
    }
  }

  /**
   * What the orders received is what came into stock, for every product and at every moment of a run,
   * exactly when each approved note totals the same per product by its own lines' products and by the
   * products of their order lines.
   */
  lemma ProductsConservedIff(ops: seq<Op>)
    ensures (forall n | 0 <= n <= |ops| :: AllConserved(Run(ops[..n]))) <==> AllBalanced(Run(ops))
  {
    ConservedFromIff(EMPTY, ops);
    assert Throughout(EMPTY, ops, AllConserved) <==> forall n | 0 <= n <= |ops| :: AllConserved(Run(ops[..n]));
  }
}
