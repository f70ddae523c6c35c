/** Referential integrity: what documents name is in the catalogue, as long as the catalogue keeps it. */
module Catalogue {
  import opened Tables
  import opened System
  import opened Effects
  import Proc = Procurement

  ghost predicate OrderKnown(s: State, p: PurchaseOrder) {
    p.supplier in s.suppliers && forall i | 0 <= i < |p.lines| :: p.lines[i].product in s.products
  }

  ghost predicate AdjustmentKnown(s: State, a: Adjustment) {
    forall i | 0 <= i < |a.lines| :: a.lines[i].product in s.products
  }

  ghost predicate ReleaseKnown(s: State, r: StockRelease) {
    forall i | 0 <= i < |r.lines| :: r.lines[i].product in s.products
  }

  ghost predicate AllKnown(s: State) {
    && (forall i | 0 <= i < |s.pos| :: OrderKnown(s, s.pos[i]))
    && (forall i | 0 <= i < |s.adjustments| :: AdjustmentKnown(s, s.adjustments[i]))
    && (forall i | 0 <= i < |s.releases| :: ReleaseKnown(s, s.releases[i]))
  }

  /** A catalogue change that deletes no product and no supplier. */
  predicate Grows(s: State, op: Op) {
    op.SetCatalogue? ==> s.products <= op.products && s.suppliers <= op.suppliers
  }

  lemma {:induction false} PostLinesNamesNoProduct(
    d: Proc.Desk, lines: seq<GrnLine>, picks: seq<nat>, grn: nat, at: nat)
    requires Proc.PostLines(d, lines, picks, grn, at).Ok?
    ensures SameNames(d.pos, Proc.PostLines(d, lines, picks, grn, at).value.pos)
    decreases |lines|
  {
    if lines != [] {
      var next := Proc.PostLine(d, lines[0], Proc.Head(picks), grn, at).value;
      PostLinesNamesNoProduct(next, lines[1..], Proc.Tail(picks), grn, at);
    }
  }

  ghost predicate SameNames(pos: seq<PurchaseOrder>, next: seq<PurchaseOrder>) {
    && |pos| == |next|
    && forall po | 0 <= po < |pos| ::
         && next[po].supplier == pos[po].supplier && |next[po].lines| == |pos[po].lines|
         && forall i | 0 <= i < |pos[po].lines| :: next[po].lines[i].product == pos[po].lines[i].product
  }

  lemma GrnStepNamesNoProduct(s: State, op: Op)
    requires OnGrn(op)
    ensures SameNames(s.pos, Exec(s, op).pos)
    ensures Exec(s, op).products == s.products && Exec(s, op).suppliers == s.suppliers
    ensures Exec(s, op).adjustments == s.adjustments && Exec(s, op).releases == s.releases
  {
    if op.ApproveGrn? {
      if Apply(s, op).Ok? {
        var d := Proc.Desk(s.books, s.receipts, s.pos);
        PostLinesNamesNoProduct(d, s.grns[op.id].lines, op.picks, op.id, s.clock);
      }
    } else {
      GrnStepsAreQuiet(s, op);
    }
  }

  lemma PoStepKnown(s: State, op: Op)
    requires AllKnown(s) && OnPo(op)
    ensures AllKnown(Exec(s, op))
  {
  }

  lemma GrnStepKnown(s: State, op: Op)
    requires AllKnown(s) && OnGrn(op)
    ensures AllKnown(Exec(s, op))
  {
    var t := Exec(s, op);
    GrnStepNamesNoProduct(s, op);
    forall i | 0 <= i < |t.pos| ensures OrderKnown(t, t.pos[i]) {
      assert OrderKnown(s, s.pos[i]);
    }
    forall i | 0 <= i < |t.adjustments| ensures AdjustmentKnown(t, t.adjustments[i]) {
      assert AdjustmentKnown(s, s.adjustments[i]);
    }
    forall i | 0 <= i < |t.releases| ensures ReleaseKnown(t, t.releases[i]) {
      assert ReleaseKnown(s, s.releases[i]);
    }
  }

  lemma AdjustmentStepKnown(s: State, op: Op)
    requires AllKnown(s) && OnAdjustment(op)
    ensures AllKnown(Exec(s, op))
  {
  }

  lemma ReleaseStepKnown(s: State, op: Op)
    requires AllKnown(s) && OnRelease(op)
    ensures AllKnown(Exec(s, op))
  {
  }

  lemma StepKnown(s: State, op: Op)
    requires AllKnown(s) && Grows(s, op)
    ensures AllKnown(Exec(s, op))
  {
    if OnPo(op) {
      PoStepKnown(s, op);
    } else if OnGrn(op) {
      GrnStepKnown(s, op);
    } else if OnAdjustment(op) {
      AdjustmentStepKnown(s, op);
    } else if OnRelease(op) {
      ReleaseStepKnown(s, op);
    } else {
      forall i | 0 <= i < |s.pos| ensures OrderKnown(Exec(s, op), s.pos[i]) {
        assert OrderKnown(s, s.pos[i]);
      }
      forall i | 0 <= i < |s.adjustments| ensures AdjustmentKnown(Exec(s, op), s.adjustments[i]) {
        assert AdjustmentKnown(s, s.adjustments[i]);
      }
      forall i | 0 <= i < |s.releases| ensures ReleaseKnown(Exec(s, op), s.releases[i]) {
        assert ReleaseKnown(s, s.releases[i]);
      }
    }
  }

  ghost predicate GrowsThroughout(s: State, ops: seq<Op>)
    decreases |ops|
  {
    ops != [] ==> Grows(s, ops[0]) && GrowsThroughout(Exec(s, ops[0]), ops[1..])
  }

  /**
   * In every run in which no product and no supplier is deleted, each line of each order, adjustment
   * and release names a known product, and each order a known supplier.
   */
  lemma {:induction false} DocumentsNameKnownProducts(s: State, ops: seq<Op>)
    requires AllKnown(s) && GrowsThroughout(s, ops)
    ensures AllKnown(After(s, ops))
    decreases |ops|
  {
    if ops != [] {
      StepKnown(s, ops[0]);
      DocumentsNameKnownProducts(Exec(s, ops[0]), ops[1..]);
    }
  }
}
