/** The promises of the inventory core, stated over every run of the system. */
module Guarantees {
  import opened Results
  import opened Stock
  import opened Postings
  import opened Sums
  import opened Tables
  import opened System
  import opened Effects
  import opened Receiving
  import opened ReceivingRuns
  import opened Reconciliation
  import opened Lifecycle
  import Adj = Adjustments
  import Rel = Releases
  import Proc = Procurement

  // ------------------------------------------------------------------
  // Snapshot and ledger
  // ------------------------------------------------------------------

  /** The snapshot row of a product is the replay of the ledger; its quantity is the sum and the last entry. */
  lemma SnapshotMatchesLedger(ops: seq<Op>, p: nat)
    ensures
      var b := Run(ops).books;
      && LevelOf(b.stock, p) == Replay(b.ledger, p)
      && LevelOf(b.stock, p).qty == Sum(b.ledger, ChangeFor(p)) == LastAfter(b.ledger, p)
      && LevelOf(b.stock, p).qty >= 0
  {
    BooksAgreeInEveryRun(ops);
    var b := Run(ops).books;
    OnHandIsSumAndLast(b.ledger, p);
    ReplayNonNegative(b.ledger, p);
  }

  /** Every entry starts at its product's previous quantity_after and is never negative. */
  lemma EntriesChainInEveryRun(ops: seq<Op>, i: nat)
    requires i < |Run(ops).books.ledger|
    ensures
      var ledger := Run(ops).books.ledger;
      && ledger[i].before == LastAfter(ledger[..i], ledger[i].product)
      && ledger[i].before + ledger[i].change == ledger[i].after >= 0
  {
    BooksAgreeInEveryRun(ops);
    EntriesChain(Run(ops).books.ledger, i);
  }

  /** On-hand value against posted value, over a whole run. */
  lemma ValuationInEveryRun(ops: seq<Op>, p: nat)
    ensures
      var b := Run(ops).books;
      var l, room := LevelOf(b.stock, p), Sum(b.ledger, RoundingRoom(p));
      -room <= 2 * (l.qty * l.avg - PostedValue(b.ledger, p)) <= room
  {
    BooksAgreeInEveryRun(ops);
    var b := Run(ops).books;
    assert LevelOf(b.stock, p) == Replay(b.ledger, p);
    ValuationError(b.ledger, p);
  }

  lemma AverageInEveryRun(ops: seq<Op>, p: nat, lo: int, hi: int)
    requires IncreasesWithin(Run(ops).books.ledger, p, lo, hi)
    ensures
      var b := Run(ops).books;
      && (HasIncrease(b.ledger, p) ==> lo <= LevelOf(b.stock, p).avg <= hi)
      && (!HasIncrease(b.ledger, p) ==> LevelOf(b.stock, p) == Level(0, 0))
  {
    BooksAgreeInEveryRun(ops);
    var b := Run(ops).books;
    assert LevelOf(b.stock, p) == Replay(b.ledger, p);
    AverageWithinCosts(b.ledger, p, lo, hi);
  }

  // ------------------------------------------------------------------
  // Exactly once
  // ------------------------------------------------------------------

  predicate IsApproved(s: State, ref: Ref) {
    match ref.kind
    case GrnRef => ref.id < |s.grns| && s.grns[ref.id].status.Approved?
    case AdjustmentRef => ref.id < |s.adjustments| && s.adjustments[ref.id].status.Approved?
    case ReleaseRef => ref.id < |s.releases| && s.releases[ref.id].status.Approved?
  }

  /** A document has ledger entries exactly when it is approved, and then one fitting entry per line. */
  lemma ExactlyOnce(ops: seq<Op>, ref: Ref)
    ensures EntriesOf(Run(ops).books.ledger, ref) != [] <==> IsApproved(Run(ops), ref)
    ensures AllFit(EntriesOf(Run(ops).books.ledger, ref), Due(Run(ops), ref))
  {
    EveryRunIsHealthy(ops);
    var s := Run(ops);
    assert AllFit(EntriesOf(s.books.ledger, ref), Due(s, ref));
  }

  /** The entries of an approved receipt, adjustment or release, line by line in terms of the document. */
  lemma EntriesSayWhatLinesSay(ops: seq<Op>, id: nat, k: nat)
    ensures
      var s := Run(ops);
      var es := EntriesOf(s.books.ledger, Ref(GrnRef, id));
      id < |s.grns| && s.grns[id].status.Approved? && k < |s.grns[id].lines| ==>
        && |es| == |s.grns[id].lines|
        && var e, x := es[k], s.grns[id].lines[k];
        e.product == x.product && e.change == x.qty && e.unitCost == x.cost && e.entryType.PurchaseReceipt?
    ensures
      var s := Run(ops);
      var es := EntriesOf(s.books.ledger, Ref(AdjustmentRef, id));
      id < |s.adjustments| && s.adjustments[id].status.Approved? && k < |s.adjustments[id].lines| ==>
        && |es| == |s.adjustments[id].lines|
        && var e, x := es[k], s.adjustments[id].lines[k];
        && e.product == x.product && e.unitCost == x.cost
        && match s.adjustments[id].kind
           case ByIncrease => e.change == x.qty && e.entryType.AdjustmentIn?
           case ByDecrease => e.change + x.qty == 0 && e.entryType.AdjustmentOut?
           case ByRecount => e.after == x.qty && (e.entryType.AdjustmentIn? <==> e.change >= 0)
    ensures
      var s := Run(ops);
      var es := EntriesOf(s.books.ledger, Ref(ReleaseRef, id));
      id < |s.releases| && s.releases[id].status.Approved? && k < |s.releases[id].lines| ==>
        && |es| == |s.releases[id].lines|
        && var e, x := es[k], s.releases[id].lines[k];
        && e.product == x.product && e.change + x.qty == 0 && e.unitCost == x.unitCost && e.entryType.StockReleased?
  {
    var s := Run(ops);
    ExactlyOnce(ops, Ref(GrnRef, id));
    ExactlyOnce(ops, Ref(AdjustmentRef, id));
    ExactlyOnce(ops, Ref(ReleaseRef, id));
    if id < |s.releases| && s.releases[id].status.Approved? {
      ReleaseTotalsReconcile(ops, id);
    }
    forall kind: RefKind | k < |Due(s, Ref(kind, id))|
      ensures
        k < |EntriesOf(s.books.ledger, Ref(kind, id))| &&
        Fits(EntriesOf(s.books.ledger, Ref(kind, id))[k], Due(s, Ref(kind, id))[k])
    {
      ExactlyOnce(ops, Ref(kind, id));
    }
  }

  lemma StockIsNeverNegative(ops: seq<Op>)
    ensures NoNegativeStock(Run(ops).books.stock)
  {
    forall p: nat ensures LevelOf(Run(ops).books.stock, p).qty >= 0 {
      SnapshotMatchesLedger(ops, p);
    }
  }

  // ------------------------------------------------------------------
  // When approvals succeed
  // ------------------------------------------------------------------

  /** A release is approved exactly when it is live and submitted and every product's total is on hand. */
  lemma ReleaseApprovedIff(s: State, id: nat)
    requires NoNegativeStock(s.books.stock)
    ensures Rel.Approve(s, id).Ok? <==>
            LiveRelease(s, id) && s.releases[id].status.Submitted?
            && forall p: nat :: Sum(s.releases[id].lines, ReleaseQty(p)) <= LevelOf(s.books.stock, p).qty
  {
    if LiveRelease(s, id) && s.releases[id].status.Submitted? {
      var lines := s.releases[id].lines;
      var ps := ReleasePostings(lines);
      forall p: nat ensures Demand(ps, p) == Sum(lines, ReleaseQty(p)) {
        SumPointwise(ps, lines, QtyFor(p), ReleaseQty(p));
      }
      FirstPassVersusTotals(s.books.stock, ps);
      RemovalsSucceedIff(s.books, ps, Ref(ReleaseRef, id));
    }
  }

  /** Approval of an adjustment: only a DECREASE can fail for lack of stock, and exactly on its totals. */
  lemma AdjustmentApprovedIff(s: State, id: nat)
    requires NoNegativeStock(s.books.stock)
    ensures Adj.Approve(s, id).Ok? <==>
            LiveAdjustment(s, id) && s.adjustments[id].status.Submitted?
            && (s.adjustments[id].kind.ByDecrease? ==>
                  forall p: nat :: Sum(s.adjustments[id].lines, AdjustedQty(p)) <= LevelOf(s.books.stock, p).qty)
  {
    if LiveAdjustment(s, id) && s.adjustments[id].status.Submitted? {
      var a := s.adjustments[id];
      var ps := AdjustmentPostings(a.kind, a.lines);
      if a.kind.ByDecrease? {
        forall p: nat ensures Demand(ps, p) == Sum(a.lines, AdjustedQty(p)) {
          SumPointwise(ps, a.lines, QtyFor(p), AdjustedQty(p));
        }
        RemovalsSucceedIff(s.books, ps, Ref(AdjustmentRef, id));
      } else {
        AdditionsNeverFail(s.books, ps, Ref(AdjustmentRef, id));
      }
    }
  }

  predicate SubmittedRecount(s: State, id: nat) {
    LiveAdjustment(s, id) && s.adjustments[id].status.Submitted? && s.adjustments[id].kind.ByRecount?
  }

  /** Approving a recount leaves each product at its last listed count, and a product not listed alone. */
  lemma RecountApproval(s: State, id: nat, p: nat)
    requires NoNegativeStock(s.books.stock) && SubmittedRecount(s, id)
    ensures
      var a := s.adjustments[id];
      && Adj.Approve(s, id).Ok?
      && LevelOf(Adj.Approve(s, id).value.books.stock, p).qty ==
         LastCount(AdjustmentPostings(a.kind, a.lines), p, LevelOf(s.books.stock, p).qty)
  {
    var a := s.adjustments[id];
    RecountSetsLastCount(s.books, AdjustmentPostings(a.kind, a.lines), Ref(AdjustmentRef, id), p);
  }

  /** In every run a submitted note can be approved: the unguarded lookup of its order never fails. */
  lemma NoteApprovalNeverCrashes(ops: seq<Op>, id: nat, picks: seq<nat>)
    ensures Proc.ApproveGrn(Run(ops), id, picks).Ok? <==> id < |Run(ops).grns| && Run(ops).grns[id].status.Submitted?
    ensures Proc.ApproveGrn(Run(ops), id, picks) != Err(Crash)
  {
    EveryRunIsHealthy(ops);
    StockIsNeverNegative(ops);
    ApproveGrnSucceeds(Run(ops), id, picks);
  }

  function CostedTotal(stock: map<nat, Level>): ReleaseLine -> int {
    (x: ReleaseLine) => Rel.CostLine(stock, x).lineTotal
  }

  /** The order of a release's lines changes neither the verdict, nor the stock, nor the cached totals. */
  lemma ReleaseLineOrderIrrelevant(s: State, id: nat, lines: seq<ReleaseLine>)
    requires NoNegativeStock(s.books.stock) && id < |s.releases|
    requires multiset(lines) == multiset(s.releases[id].lines)
    ensures
      var t := s.(releases := s.releases[id := s.releases[id].(lines := lines)]);
      && (Rel.Approve(s, id).Ok? <==> Rel.Approve(t, id).Ok?)
      && (Rel.Approve(s, id).Ok? ==>
            var a, b := Rel.Approve(s, id).value, Rel.Approve(t, id).value;
            && SameLevels(a.books.stock, b.books.stock)
            && a.releases[id].totalQty == b.releases[id].totalQty
            && a.releases[id].totalCost == b.releases[id].totalCost)
  {
    var mine := s.releases[id].lines;
    var t := s.(releases := s.releases[id := s.releases[id].(lines := lines)]);
    forall p: nat
      ensures Sum(lines, ReleaseQty(p)) == Sum(mine, ReleaseQty(p))
      ensures Demand(ReleasePostings(lines), p) == Demand(ReleasePostings(mine), p)
    {
      SumPermutation(lines, mine, ReleaseQty(p));
      SumPointwise(ReleasePostings(lines), lines, QtyFor(p), ReleaseQty(p));
      SumPointwise(ReleasePostings(mine), mine, QtyFor(p), ReleaseQty(p));
    }
    ReleaseApprovedIff(s, id);
    ReleaseApprovedIff(t, id);
    if Rel.Approve(s, id).Ok? {
      SameDemandSameOutcome(s.books, ReleasePostings(mine), ReleasePostings(lines), Ref(ReleaseRef, id));
      TotalsByLines(s.books.stock, mine);
      TotalsByLines(s.books.stock, lines);
      SumPermutation(lines, mine, Rel.LineQty());
      SumPermutation(lines, mine, CostedTotal(s.books.stock));
    }
  }

  lemma TotalsByLines(stock: map<nat, Level>, lines: seq<ReleaseLine>)
    ensures Sum(Rel.CostLines(stock, lines), Rel.LineQty()) == Sum(lines, Rel.LineQty())
    ensures Sum(Rel.CostLines(stock, lines), Rel.LineTotal()) == Sum(lines, CostedTotal(stock))
  {
    SumPointwise(Rel.CostLines(stock, lines), lines, Rel.LineQty(), Rel.LineQty());
    SumPointwise(Rel.CostLines(stock, lines), lines, Rel.LineTotal(), CostedTotal(stock));
  }

  /** Nor does the order of a DECREASE adjustment's lines change its verdict or the stock it leaves. */
  lemma DecreaseLineOrderIrrelevant(s: State, id: nat, lines: seq<AdjustmentLine>)
    requires NoNegativeStock(s.books.stock) && id < |s.adjustments| && s.adjustments[id].kind.ByDecrease?
    requires multiset(lines) == multiset(s.adjustments[id].lines)
    ensures
      var t := s.(adjustments := s.adjustments[id := s.adjustments[id].(lines := lines)]);
      && (Adj.Approve(s, id).Ok? <==> Adj.Approve(t, id).Ok?)
      && (Adj.Approve(s, id).Ok? ==>
            SameLevels(Adj.Approve(s, id).value.books.stock, Adj.Approve(t, id).value.books.stock))
  {
    var mine := s.adjustments[id].lines;
    var ps, qs := AdjustmentPostings(ByDecrease, mine), AdjustmentPostings(ByDecrease, lines);
    forall p: nat ensures Demand(ps, p) == Demand(qs, p) {
      SumPermutation(lines, mine, AdjustedQty(p));
      SumPointwise(ps, mine, QtyFor(p), AdjustedQty(p));
      SumPointwise(qs, lines, QtyFor(p), AdjustedQty(p));
    }
    SameDemandSameOutcome(s.books, ps, qs, Ref(AdjustmentRef, id));
  }

  /** Approving a second count of the same lines posts zero changes only and moves no quantity and no average. */
  lemma RecountApprovedTwice(s: State, id: nat, again: nat)
    requires NoNegativeStock(s.books.stock) && id != again
    requires SubmittedRecount(s, id) && SubmittedRecount(s, again)
    requires s.adjustments[again].lines == s.adjustments[id].lines && !Adj.RepeatsProduct(s.adjustments[id].lines)
    ensures
      && Adj.Approve(s, id).Ok?
      && var once := Adj.Approve(s, id).value;
      && Adj.Approve(once, again).Ok?
      && var twice := Adj.Approve(once, again).value;
      && SameLevels(twice.books.stock, once.books.stock)
      && once.books.ledger <= twice.books.ledger
      && forall e | e in twice.books.ledger[|once.books.ledger|..] :: e.change == 0
  {
    var ps := AdjustmentPostings(ByRecount, s.adjustments[id].lines);
    RecountTwice(s.books, ps, Ref(AdjustmentRef, id), Ref(AdjustmentRef, again));
  }

  // ------------------------------------------------------------------
  // Purchase orders
  // ------------------------------------------------------------------

  /** Every order line's received quantity is the sum of the approved note lines for it. */
  lemma ReceiptsAreConserved(ops: seq<Op>, po: nat, i: nat)
    requires po < |Run(ops).pos| && i < |Run(ops).pos[po].lines|
    ensures Run(ops).pos[po].lines[i].received == Sum(Run(ops).grns, ApprovedFor(KeyOf(Run(ops).pos, po, i)))
  {
    EveryRunIsHealthy(ops);
    assert LineConserved(Run(ops).pos, Run(ops).grns, po, i);
  }

  /** Once approved, an order whose ordered quantities are positive has exactly the status of its lines. */
  lemma OrderStatusIsClassification(ops: seq<Op>, po: nat)
    requires po < |Run(ops).pos| && Proc.Receivable(Run(ops).pos[po].status)
    requires AllOrderedPositive(Run(ops).pos[po].lines)
    ensures Run(ops).pos[po].status == Classification(Run(ops).pos[po].lines)
  {
    StatusIsClassificationIff(ops, po);
    EveryRunIsHealthy(ops);
    assert StatusTrue(Run(ops).pos[po]);
    assert Run(ops).pos[po].lines[0].ordered > 0;
  }
}
