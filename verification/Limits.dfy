/** Where a tempting promise is false: runs that the code accepts. */
module Limits {
  import opened Results
  import opened Stock
  import opened Postings
  import opened Sums
  import opened Tables
  import opened System
  import opened ReceivingRuns
  import opened TwoLedgers
  import opened ReceivedByProduct
  import opened Lifecycle
  import opened Guarantees
  import Adj = Adjustments
  import Rel = Releases
  import Proc = Procurement

  // ------------------------------------------------------------------
  // An approved order and a submitted note
  // ------------------------------------------------------------------

  /** Requests that lead to an approved order with the given lines. */
  function OrderOps(order: seq<Proc.OrderLine>): seq<Op> {
    [SetCatalogue({0, 1}, {0})] + [CreatePo(0, order)] + [SubmitPo(0)] + [ApprovePo(0)]
  }

  function OrderIn(status: PoStatus, order: seq<Proc.OrderLine>): seq<PurchaseOrder> {
    [PurchaseOrder(0, status, false, 0, Proc.Unreceived(order))]
  }

  /** The tables with one approved order and some notes, before any receipt. */
  function Ordered(order: seq<Proc.OrderLine>, grns: seq<Grn>): State {
    State(Books(map[], []), [], 0, OrderIn(PoApproved, order), grns, [], [], {0, 1}, {0})
  }

  predicate Orderable(order: seq<Proc.OrderLine>) {
    order != [] && forall i | 0 <= i < |order| :: order[i].product in {0, 1}
  }

  lemma OrderCreated(s: State, order: seq<Proc.OrderLine>)
    requires Orderable(order) && s.pos == [] && s.products == {0, 1} && s.suppliers == {0}
    ensures Exec(s, CreatePo(0, order)) == s.(pos := OrderIn(PoDraft, order))
  {
  }

  lemma OrderMoved(s: State, order: seq<Proc.OrderLine>)
    requires order != []
    ensures s.pos == OrderIn(PoDraft, order) ==> Exec(s, SubmitPo(0)) == s.(pos := OrderIn(PoSubmitted, order))
    ensures s.pos == OrderIn(PoSubmitted, order) ==> Exec(s, ApprovePo(0)) == s.(pos := OrderIn(PoApproved, order))
  {
  }

  lemma OrderApproved(order: seq<Proc.OrderLine>)
    requires Orderable(order)
    ensures Run(OrderOps(order)) == Ordered(order, [])
  {
    var a: seq<Op> := [SetCatalogue({0, 1}, {0})];
    var b := a + [CreatePo(0, order)];
    var c := b + [SubmitPo(0)];
    RunSnoc([], a[0]);
    assert [] + [a[0]] == a;
    RunSnoc(a, CreatePo(0, order));
    OrderCreated(Run(a), order);
    RunSnoc(b, SubmitPo(0));
    OrderMoved(Run(b), order);
    RunSnoc(c, ApprovePo(0));
    OrderMoved(Run(c), order);
  }

  /** An ordered quantity stored as zero counts as received at once, but the status does not say so. */
  lemma ZeroOrderIsNotClassified()
    ensures
      var s := Run(OrderOps([Proc.OrderLine(0, 0)]));
      |s.pos| == 1 && s.pos[0].status.PoApproved? && Classification(s.pos[0].lines).FullyReceived?
  {
    OrderApproved([Proc.OrderLine(0, 0)]);
  }

  function NoteOps(order: seq<Proc.OrderLine>, note: seq<GrnLine>): seq<Op> {
    OrderOps(order) + [CreateGrn(0, note)] + [SubmitGrn(0)]
  }

  lemma NoteSubmitted(order: seq<Proc.OrderLine>, note: seq<GrnLine>)
    requires Orderable(order) && note != []
    requires Proc.CheckLines(OrderIn(PoApproved, order), 0, note, true).None?
    ensures Run(NoteOps(order, note)) == Ordered(order, [Grn(0, Submitted, note)])
  {
    OrderApproved(order);
    var a := OrderOps(order);
    RunSnoc(a, CreateGrn(0, note));
    RunSnoc(a + [CreateGrn(0, note)], SubmitGrn(0));
  }

  /** What one approved note of one line does to its order and to the stock. */
  lemma OneLineApproved(order: seq<Proc.OrderLine>, x: GrnLine)
    requires x.poLine == LineKey(0, 0, x.poLine.pos) && x.poLine.pos < |order|
    ensures
      var t := Exec(Ordered(order, [Grn(0, Submitted, [x])]), ApproveGrn(0, []));
      var i := x.poLine.pos;
      var lines := Proc.Unreceived(order)[i := PoLine(order[i].product, order[i].ordered, x.qty)];
      && t.pos == [PurchaseOrder(0, Proc.StatusAfterReceipt(lines, PoApproved), false, 0, lines)]
      && t.books.stock == map[x.product := Next(Level(0, 0), x.qty, x.cost)]
      && t.grns == [Grn(0, Approved, [x])]
  {
    var s := Ordered(order, [Grn(0, Submitted, [x])]);
    var d := Proc.Desk(s.books, s.receipts, s.pos);
    assert [x][1..] == [];
    assert Proc.PostLines(d, [x], [], 0, 0) == Proc.PostLine(d, x, 0, 0, 0);
  }

  // ------------------------------------------------------------------
  // The order's status
  // ------------------------------------------------------------------

  function ZeroAndTen(): seq<Proc.OrderLine> {
    [Proc.OrderLine(0, 0), Proc.OrderLine(1, 10)]
  }

  function NothingOfTen(): GrnLine {
    GrnLine(LineKey(0, 0, 1), 1, 0, 1)
  }

  /** A note of quantity zero makes an order with a line stored as zero partially received, with nothing received. */
  lemma ZeroNoteIsNotClassified()
    ensures
      var s := Run(NoteOps(ZeroAndTen(), [NothingOfTen()]) + [ApproveGrn(0, [])]);
      |s.pos| == 1 && s.pos[0].status.PartiallyReceived? && Classification(s.pos[0].lines).PoApproved?
  {
    var order, x := ZeroAndTen(), NothingOfTen();
    assert [x][1..] == [];
    assert Proc.CheckLines(OrderIn(PoApproved, order), 0, [x], true).None?;
    NoteSubmitted(order, [x]);
    RunSnoc(NoteOps(order, [x]), ApproveGrn(0, []));
    OneLineApproved(order, x);
    var lines := Proc.Unreceived(order)[1 := PoLine(1, 10, 0)];
    assert Proc.Begun(lines[0]) && !Proc.Complete(lines[1]);
  }

  // ------------------------------------------------------------------
  // Over-receipt
  // ------------------------------------------------------------------

  function Ten(): seq<Proc.OrderLine> {
    [Proc.OrderLine(0, 10)]
  }

  function NoteFor10(): GrnLine {
    GrnLine(LineKey(0, 0, 0), 0, 10, 1)
  }

  function DraftNote(): Grn {
    Grn(0, Draft, [NoteFor10()])
  }

  function TwoNotesOps(): seq<Op> {
    OrderOps(Ten()) + [CreateGrn(0, [NoteFor10()])] + [CreateGrn(0, [NoteFor10()])] + [SubmitGrn(0)] + [SubmitGrn(1)]
  }

  function TwoNotes(): State {
    Ordered(Ten(), [DraftNote().(status := Submitted), DraftNote().(status := Submitted)])
  }

  lemma CreateNote(s: State)
    requires s.pos == OrderIn(PoApproved, Ten())
    ensures Exec(s, CreateGrn(0, [NoteFor10()])) == s.(grns := s.grns + [DraftNote()])
  {
  }

  lemma SubmitNote(s: State, id: nat)
    requires id < |s.grns| && s.grns[id] == DraftNote()
    ensures Exec(s, SubmitGrn(id)) == s.(grns := s.grns[id := DraftNote().(status := Submitted)])
  {
  }

  /** Both notes pass the remaining-quantity check, because it looks at approved receipts only. */
  lemma TwoNotesReachable()
    ensures Run(TwoNotesOps()) == TwoNotes()
  {
    OrderApproved(Ten());
    var a := OrderOps(Ten());
    var create := CreateGrn(0, [NoteFor10()]);
    RunSnoc(a, create);
    CreateNote(Run(a));
    var b := a + [create];
    RunSnoc(b, create);
    CreateNote(Run(b));
    var c := b + [create];
    RunSnoc(c, SubmitGrn(0));
    SubmitNote(Run(c), 0);
    var e := c + [SubmitGrn(0)];
    RunSnoc(e, SubmitGrn(1));
    SubmitNote(Run(e), 1);
    assert Run(TwoNotesOps()).grns == TwoNotes().grns;
  }

  lemma PostOneLine(d: Proc.Desk, id: nat, at: nat)
    requires Proc.OnOrder(d.pos, LineKey(0, 0, 0)) && LevelOf(d.books.stock, 0).qty >= 0
    ensures
      var r := Proc.PostLines(d, [NoteFor10()], [], id, at);
      && r.Ok? && r.value.pos == Proc.ReceiveLine(d.pos, NoteFor10())
      && LevelOf(r.value.books.stock, 0).qty == LevelOf(d.books.stock, 0).qty + 10
  {
  }

  lemma ApproveOneNote(s: State, id: nat)
    requires id < |s.grns| && s.grns[id] == DraftNote().(status := Submitted)
    requires |s.pos| == 1 && Proc.OnOrder(s.pos, LineKey(0, 0, 0)) && !s.pos[0].deleted
    requires LevelOf(s.books.stock, 0).qty >= 0
    ensures
      var t, l := Exec(s, ApproveGrn(id, [])), s.pos[0].lines[0];
      && |t.pos| == 1
      && t.pos[0].lines == s.pos[0].lines[0 := l.(received := l.received + 10)]
      && t.pos[0].edition == s.pos[0].edition && !t.pos[0].deleted
      && t.grns == s.grns[id := DraftNote().(status := Approved)]
      && LevelOf(t.books.stock, 0).qty == LevelOf(s.books.stock, 0).qty + 10
  {
    PostOneLine(Proc.Desk(s.books, s.receipts, s.pos), id, s.clock);
    assert Apply(s, ApproveGrn(id, [])) == Proc.ApproveGrn(s, id, []);
  }

  /** Approving both receives twenty units on an order of ten. */
  lemma OverReceiptIsReachable()
    ensures
      var s := Run(TwoNotesOps() + [ApproveGrn(0, [])] + [ApproveGrn(1, [])]);
      |s.pos| == 1 && s.pos[0].lines == [PoLine(0, 10, 20)]
  {
    TwoNotesReachable();
    var ops := TwoNotesOps();
    RunSnoc(ops, ApproveGrn(0, []));
    ApproveOneNote(Run(ops), 0);
    RunSnoc(ops + [ApproveGrn(0, [])], ApproveGrn(1, []));
    ApproveOneNote(Run(ops + [ApproveGrn(0, [])]), 1);
  }

  // ------------------------------------------------------------------
  // The product of a note's line
  // ------------------------------------------------------------------

  /** Ten units of product 1, booked on an order line of product 0. */
  function WrongProduct(): GrnLine {
    NoteFor10().(product := 1)
  }

  function WrongProductOps(): seq<Op> {
    OrderOps(Ten()) + [CreateGrn(0, [NoteFor10()])] + [UpdateGrn(0, Some([WrongProduct()]))] + [SubmitGrn(0)]
  }

  lemma WrongProductSubmitted()
    ensures Run(WrongProductOps()) == Ordered(Ten(), [Grn(0, Submitted, [WrongProduct()])])
  {
    OrderApproved(Ten());
    var a := OrderOps(Ten());
    RunSnoc(a, CreateGrn(0, [NoteFor10()]));
    CreateNote(Run(a));
    var b, edit := a + [CreateGrn(0, [NoteFor10()])], UpdateGrn(0, Some([WrongProduct()]));
    RunSnoc(b, edit);
    assert [WrongProduct()][1..] == [];
    assert Proc.CheckLines(Run(b).pos, 0, [WrongProduct()], false).None?;
    RunSnoc(b + [edit], SubmitGrn(0));
  }

  lemma WrongProductTotals(s: State, p: nat)
    requires s.pos == [PurchaseOrder(0, FullyReceived, false, 0, [PoLine(0, 10, 10)])]
    requires s.grns == [Grn(0, Approved, [WrongProduct()])]
    ensures ProductConserved(s, p) <==> p != 0 && p != 1
  {
    var o, g := s.pos[0], s.grns[0];
    assert o.lines[1..] == [] && g.lines[1..] == [] && s.pos[1..] == [] && s.grns[1..] == [];
    assert Sum(s.pos, OrderReceived(p)) == OrderReceived(p)(o) == ReceivedOf(p)(o.lines[0]);
    assert Sum(s.grns, ApprovedQty(p)) == ApprovedQty(p)(g) == LineQty(p)(g.lines[0]);
  }

  lemma WrongProductApproved(s: State)
    requires s == Ordered(Ten(), [Grn(0, Submitted, [WrongProduct()])])
    ensures
      var t := Exec(s, ApproveGrn(0, []));
      && t.pos == [PurchaseOrder(0, FullyReceived, false, 0, [PoLine(0, 10, 10)])]
      && t.grns == [Grn(0, Approved, [WrongProduct()])]
      && LevelOf(t.books.stock, 0).qty == 0 && LevelOf(t.books.stock, 1).qty == 10
  {
    OneLineApproved(Ten(), WrongProduct());
    assert Proc.Unreceived(Ten())[0 := PoLine(0, 10, 10)] == [PoLine(0, 10, 10)];
  }

  /** The order received all of product 0; the stock has ten units of product 1 and none of product 0. */
  lemma WrongProductIsReceived()
    ensures
      var s := Run(WrongProductOps() + [ApproveGrn(0, [])]);
      && |s.pos| == 1 && s.pos[0].status.FullyReceived? && s.pos[0].lines == [PoLine(0, 10, 10)]
      && LevelOf(s.books.stock, 0).qty == 0 && LevelOf(s.books.stock, 1).qty == 10
      && !ProductConserved(s, 0) && !ProductConserved(s, 1)
  {
    var ops := WrongProductOps();
    RunSnoc(ops, ApproveGrn(0, []));
    WrongProductSubmitted();
    WrongProductApproved(Run(ops));
    WrongProductTotals(Run(ops + [ApproveGrn(0, [])]), 0);
    WrongProductTotals(Run(ops + [ApproveGrn(0, [])]), 1);
  }

  // ------------------------------------------------------------------
  // The procurement ledger's current stock
  // ------------------------------------------------------------------

  /** Approving a note that repeats a product makes the first wrong reading of it in any run. */
  lemma ApprovalMisleads(ops: seq<Op>, id: nat, picks: seq<nat>, p: nat)
    requires id < |Run(ops).grns| && Run(ops).grns[id].status.Submitted?
    requires NeverMisleads(Run(ops).grns, p) && !LaterZero(Run(ops).grns[id].lines, p)
    ensures !ReadsRight(Run(ops + [ApproveGrn(id, picks)]), p)
  {
    NoteApprovalNeverCrashes(ops, id, picks);
    EveryRunIsHealthy(ops);
    assert ReceiptsFor(Run(ops), p);
    ApprovalReadsRightIff(Run(ops), id, picks, p);
    RunSnoc(ops, ApproveGrn(id, picks));
  }

  /** Five units twice: each line is within the ten ordered. */
  function Halves(): seq<GrnLine> {
    [NoteFor10().(qty := 5), NoteFor10().(qty := 5)]
  }

  lemma HalvesSubmitted()
    ensures Run(NoteOps(Ten(), Halves())) == Ordered(Ten(), [Grn(0, Submitted, Halves())])
  {
    var pos, note := OrderIn(PoApproved, Ten()), Halves();
    assert note[1..] == [note[1]] && note[1..][1..] == [];
    assert Proc.CheckLines(pos, 0, note[1..], true).None?;
    assert Proc.CheckLines(pos, 0, note, true).None?;
    NoteSubmitted(Ten(), note);
  }

  /** A note that lists its product twice, five units each, may be read as five where ten were received. */
  lemma RepeatedProductIsMisread()
    ensures !ReadsRight(Run(NoteOps(Ten(), Halves()) + [ApproveGrn(0, [])]), 0)
  {
    HalvesSubmitted();
    assert Halves()[0].product == 0 == Halves()[1].product && Halves()[1].qty == 5;
    ApprovalMisleads(NoteOps(Ten(), Halves()), 0, [], 0);
  }

  // ------------------------------------------------------------------
  // The first pass of release approval
  // ------------------------------------------------------------------

  function FiveInStock(): AdjustmentLine {
    AdjustmentLine(0, 5, 1)
  }

  function Increase5(status: Status): Adjustment {
    Adjustment(ByIncrease, status, false, [FiveInStock()])
  }

  function Three(): Rel.Request {
    Rel.Request(0, 3)
  }

  function ReleaseOf(status: Status, lines: seq<Rel.Request>): StockRelease {
    StockRelease(status, false, Rel.Uncosted(lines), 0, 0)
  }

  /** Five units are put in stock; a release of three is edited to list the product twice, and submitted. */
  function StockOps(): seq<Op> {
    IncreaseOps() + [ApproveAdjustment(0)]
  }

  function EditedReleaseOps(): seq<Op> {
    StockOps() + [CreateRelease([Three()])] + [UpdateRelease(0, Some([Three(), Three()]))] + [SubmitRelease(0)]
  }

  function Stocked(stock: map<nat, Level>, ledger: seq<Entry>, status: Status, releases: seq<StockRelease>): State {
    State(Books(stock, ledger), [], 0, [], [], [Increase5(status)], releases, {0, 1}, {0})
  }

  lemma OneIncreasePosted(b: Books, x: AdjustmentLine, ref: Ref)
    requires b.stock == map[]
    ensures
      var r := PostAll(b, AdjustmentPostings(ByIncrease, [x]), ref);
      r.Ok? && r.value.stock == map[x.product := Next(Level(0, 0), x.qty, x.cost)]
  {
  }

  lemma IncreaseApproved(s: State, x: AdjustmentLine)
    requires s.books.stock == map[] && s.adjustments == [Adjustment(ByIncrease, Submitted, false, [x])]
    ensures
      var t := Exec(s, ApproveAdjustment(0));
      && t.books.stock == map[x.product := Next(Level(0, 0), x.qty, x.cost)]
      && t == s.(books := t.books, adjustments := [Adjustment(ByIncrease, Approved, false, [x])])
  {
    OneIncreasePosted(s.books, x, Ref(AdjustmentRef, 0));
    assert Apply(s, ApproveAdjustment(0)) == Adj.Approve(s, 0);
  }

  lemma IncreaseCreated(s: State)
    requires s == EMPTY.(products := {0, 1}, suppliers := {0})
    ensures Exec(s, CreateAdjustment(ByIncrease, [FiveInStock()])) == Stocked(map[], [], Draft, [])
  {
  }

  lemma IncreaseSubmitted(s: State)
    requires s == Stocked(map[], [], Draft, [])
    ensures Exec(s, SubmitAdjustment(0)) == Stocked(map[], [], Submitted, [])
  {
  }

  function IncreaseOps(): seq<Op> {
    [SetCatalogue({0, 1}, {0})] + [CreateAdjustment(ByIncrease, [FiveInStock()])] + [SubmitAdjustment(0)]
  }

  lemma IncreaseReachable()
    ensures Run(IncreaseOps()) == Stocked(map[], [], Submitted, [])
  {
    var a: seq<Op> := [SetCatalogue({0, 1}, {0})];
    var b := a + [CreateAdjustment(ByIncrease, [FiveInStock()])];
    RunSnoc([], a[0]);
    assert [] + [a[0]] == a;
    RunSnoc(a, CreateAdjustment(ByIncrease, [FiveInStock()]));
    IncreaseCreated(Run(a));
    RunSnoc(b, SubmitAdjustment(0));
    IncreaseSubmitted(Run(b));
  }

  lemma FiveAreInStock()
    ensures
      var s := Run(StockOps());
      s == Stocked(map[0 := Level(5, 1)], s.books.ledger, Approved, [])
  {
    var s := Run(IncreaseOps());
    IncreaseReachable();
    RunSnoc(IncreaseOps(), ApproveAdjustment(0));
    FiveAreFirst();
    IncreaseApproved(s, FiveInStock());
  }

  lemma FiveAreFirst()
    ensures Next(Level(0, 0), 5, 1) == Level(5, 1)
  {
  }

  lemma ReleaseCreated(s: State)
    requires s == Stocked(s.books.stock, s.books.ledger, Approved, [])
    ensures Exec(s, CreateRelease([Three()])) == s.(releases := [ReleaseOf(Draft, [Three()])])
  {
  }

  lemma ReleaseEdited(s: State)
    requires s.releases == [ReleaseOf(Draft, [Three()])] && s.products == {0, 1}
    ensures Exec(s, UpdateRelease(0, Some([Three(), Three()]))) ==
            s.(releases := [ReleaseOf(Draft, [Three(), Three()])])
  {
  }

  lemma ReleaseSubmitted(s: State)
    requires s.releases == [ReleaseOf(Draft, [Three(), Three()])]
    ensures Exec(s, SubmitRelease(0)) == s.(releases := [ReleaseOf(Submitted, [Three(), Three()])])
  {
  }

  lemma EditedReleaseSubmitted()
    ensures
      var s := Run(EditedReleaseOps());
      s == Stocked(map[0 := Level(5, 1)], s.books.ledger, Approved, [ReleaseOf(Submitted, [Three(), Three()])])
  {
    FiveAreInStock();
    var a := StockOps();
    var b := a + [CreateRelease([Three()])];
    var edit := UpdateRelease(0, Some([Three(), Three()]));
    RunSnoc(a, CreateRelease([Three()]));
    ReleaseCreated(Run(a));
    RunSnoc(b, edit);
    ReleaseEdited(Run(b));
    RunSnoc(b + [edit], SubmitRelease(0));
    ReleaseSubmitted(Run(b + [edit]));
  }

  /** Two lines of three, five in stock: each line is available, both together are not. */
  lemma SecondLineFails(b: Books, ref: Ref)
    requires b.stock == map[0 := Level(5, 1)]
    ensures
      var ps := ReleasePostings(Rel.Uncosted([Three(), Three()]));
      EachAvailable(b.stock, ps) && PostAll(b, ps, ref) == Err(Invalid)
  {
  }

  /** The first pass accepts both lines, the deduction loop refuses the second one. */
  lemma FirstPassIsNotEnough()
    ensures
      var s := Run(EditedReleaseOps());
      && LiveRelease(s, 0) && s.releases[0].status.Submitted?
      && EachAvailable(s.books.stock, ReleasePostings(s.releases[0].lines))
      && Rel.Approve(s, 0) == Err(Invalid)
  {
    EditedReleaseSubmitted();
    SecondLineFails(Run(EditedReleaseOps()).books, Ref(ReleaseRef, 0));
  }
}
