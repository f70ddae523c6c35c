/** How documents may change over a run: statuses move forward, lines freeze, ledgers only grow. */
module Lifecycle {
  import opened Postings
  import opened Tables
  import opened System
  import opened Effects
  import opened TwoLedgers
  import opened Receiving
  import opened ReceivingRuns
  import Rel = Releases
  import Proc = Procurement

  /** The statuses a document can still reach: APPROVED and CANCELLED are final, DRAFT is never re-entered. */
  predicate Leads(a: Status, b: Status) {
    a == b || a.Draft? || (a.Submitted? && !b.Draft?)
  }

  predicate Final(a: Status) {
    a.Approved? || a.Cancelled?
  }

  predicate AdjustmentEvolves(a: Adjustment, b: Adjustment) {
    && Leads(a.status, b.status)
    && (Final(a.status) || a.deleted ==> b == a)
    && (!a.status.Draft? ==> b.(status := a.status) == a)
  }

  /** The part of a release that a user wrote, without the costs approval fills in. */
  function Asked(lines: seq<ReleaseLine>): seq<Rel.Request> {
    seq(|lines|, i requires 0 <= i < |lines| => Rel.Request(lines[i].product, lines[i].qty))
  }

  predicate ReleaseEvolves(a: StockRelease, b: StockRelease) {
    && Leads(a.status, b.status)
    && (Final(a.status) || a.deleted ==> b == a)
    && (!a.status.Draft? ==> Asked(b.lines) == Asked(a.lines) && b.deleted == a.deleted)
  }

  predicate GrnEvolves(a: Grn, b: Grn) {
    && Leads(a.status, b.status)
    && b.po == a.po
    && (Final(a.status) ==> b == a)
    && (!a.status.Draft? ==> b.lines == a.lines)
  }

  predicate PoLeads(a: PoStatus, b: PoStatus) {
    || a == b
    || a.PoDraft?
    || (a.PoSubmitted? && !b.PoDraft?)
    || (a.PoApproved? && (b.PartiallyReceived? || b.FullyReceived?))
    || (a.PartiallyReceived? && b.FullyReceived?)
  }

  predicate LinesReceive(a: seq<PoLine>, b: seq<PoLine>) {
    && |a| == |b|
    && forall i | 0 <= i < |a| ::
         b[i].product == a[i].product && b[i].ordered == a[i].ordered && b[i].received >= a[i].received
  }

  predicate PoEvolves(a: PurchaseOrder, b: PurchaseOrder) {
    && PoLeads(a.status, b.status)
    && (a.deleted || a.status.PoRejected? || a.status.PoCancelled? ==> b == a)
    && (!a.status.PoDraft? ==>
          b.(status := a.status, lines := a.lines) == a && LinesReceive(a.lines, b.lines))
  }

  ghost predicate Evolves(s: State, t: State) {
    && s.books.ledger <= t.books.ledger && s.receipts <= t.receipts
    && |s.pos| <= |t.pos| && (forall i | 0 <= i < |s.pos| :: PoEvolves(s.pos[i], t.pos[i]))
    && |s.grns| <= |t.grns| && (forall i | 0 <= i < |s.grns| :: GrnEvolves(s.grns[i], t.grns[i]))
    && |s.adjustments| <= |t.adjustments|
    && (forall i | 0 <= i < |s.adjustments| :: AdjustmentEvolves(s.adjustments[i], t.adjustments[i]))
    && |s.releases| <= |t.releases|
    && (forall i | 0 <= i < |s.releases| :: ReleaseEvolves(s.releases[i], t.releases[i]))
  }

  lemma EvolvesReflexive(s: State)
    ensures Evolves(s, s)
  {
  }

  lemma PoEvolvesTransitive(a: PurchaseOrder, b: PurchaseOrder, c: PurchaseOrder)
    requires PoEvolves(a, b) && PoEvolves(b, c)
    ensures PoEvolves(a, c)
  {
  }

  lemma EvolvesTransitive(s: State, t: State, u: State)
    requires Evolves(s, t) && Evolves(t, u)
    ensures Evolves(s, u)
  {
    forall i | 0 <= i < |s.pos| ensures PoEvolves(s.pos[i], u.pos[i]) {
      PoEvolvesTransitive(s.pos[i], t.pos[i], u.pos[i]);
    }
    forall i | 0 <= i < |s.grns| ensures GrnEvolves(s.grns[i], u.grns[i]) {
      assert GrnEvolves(s.grns[i], t.grns[i]) && GrnEvolves(t.grns[i], u.grns[i]);
    }
    forall i | 0 <= i < |s.adjustments| ensures AdjustmentEvolves(s.adjustments[i], u.adjustments[i]) {
      assert AdjustmentEvolves(s.adjustments[i], t.adjustments[i]);
      assert AdjustmentEvolves(t.adjustments[i], u.adjustments[i]);
    }
    forall i | 0 <= i < |s.releases| ensures ReleaseEvolves(s.releases[i], u.releases[i]) {
      assert ReleaseEvolves(s.releases[i], t.releases[i]) && ReleaseEvolves(t.releases[i], u.releases[i]);
    }
  }

  predicate AdjustmentOk(a: Adjustment) {
    && (a.deleted ==> a.status.Draft?)
    && (a.status.Submitted? || a.status.Approved? ==> a.lines != [])
  }

  predicate ReleaseOk(r: StockRelease) {
    && (r.deleted ==> r.status.Draft?)
    && (r.status.Submitted? || r.status.Approved? ==> r.lines != [])
  }

  predicate GrnOk(g: Grn) {
    g.status.Submitted? || g.status.Approved? ==> g.lines != []
  }

  /** Only a DRAFT document is ever deleted, and only a document with lines is ever submitted. */
  ghost predicate DocumentsWellFormed(s: State) {
    && (forall i | 0 <= i < |s.adjustments| :: AdjustmentOk(s.adjustments[i]))
    && (forall i | 0 <= i < |s.releases| :: ReleaseOk(s.releases[i]))
    && (forall i | 0 <= i < |s.grns| :: GrnOk(s.grns[i]))
  }

  lemma AdjustmentStepEvolves(s: State, op: Op)
    requires DocumentsWellFormed(s) && OnAdjustment(op)
    ensures
      var t := Exec(s, op);
      && t.pos == s.pos && t.grns == s.grns && t.releases == s.releases && t.receipts == s.receipts
      && |s.adjustments| <= |t.adjustments|
      && (forall i | 0 <= i < |s.adjustments| :: AdjustmentEvolves(s.adjustments[i], t.adjustments[i]))
      && DocumentsWellFormed(t)
  {
  }

  lemma ReleaseApprovalEvolves(s: State, id: nat)
    requires Rel.Approve(s, id).Ok? && ReleaseOk(s.releases[id])
    ensures
      var t := Rel.Approve(s, id).value;
      && t == s.(books := t.books, releases := s.releases[id := t.releases[id]])
      && ReleaseEvolves(s.releases[id], t.releases[id]) && ReleaseOk(t.releases[id])
  {
  }

  ghost predicate ReleasesEvolve(s: State, t: State) {
    && t.pos == s.pos && t.grns == s.grns && t.adjustments == s.adjustments && t.receipts == s.receipts
    && |s.releases| <= |t.releases|
    && (forall i | 0 <= i < |s.releases| :: ReleaseEvolves(s.releases[i], t.releases[i]))
    && (forall i | 0 <= i < |t.releases| :: ReleaseOk(t.releases[i]))
  }

  lemma ReleaseStepEvolves(s: State, op: Op)
    requires DocumentsWellFormed(s) && OnRelease(op)
    ensures ReleasesEvolve(s, Exec(s, op))
  {
    if op.ApproveRelease? {
      if Apply(s, op).Ok? {
        ReleaseApprovalEvolves(s, op.id);
      }
    } else {
      OtherReleaseStepEvolves(s, op);
    }
  }

  lemma OtherReleaseStepEvolves(s: State, op: Op)
    requires DocumentsWellFormed(s) && OnRelease(op) && !op.ApproveRelease?
    ensures ReleasesEvolve(s, Exec(s, op))
  {
  }

  lemma PoStepEvolves(s: State, op: Op)
    requires DocumentsWellFormed(s) && OnPo(op)
    ensures
      var t := Exec(s, op);
      && t.grns == s.grns && t.adjustments == s.adjustments && t.releases == s.releases
      && t.receipts == s.receipts
      && |s.pos| <= |t.pos| && (forall i | 0 <= i < |s.pos| :: PoEvolves(s.pos[i], t.pos[i]))
      && DocumentsWellFormed(t)
  {
  }

  lemma NoteStepEvolves(s: State, op: Op)
    requires DocumentsWellFormed(s) && OnGrn(op)
    ensures
      var t := Exec(s, op);
      && t.adjustments == s.adjustments && t.releases == s.releases
      && |s.grns| <= |t.grns| && (forall i | 0 <= i < |s.grns| :: GrnEvolves(s.grns[i], t.grns[i]))
      && DocumentsWellFormed(t)
  {
  }

  lemma ReceivingEvolvesPo(s: State, id: nat, picks: seq<nat>)
    requires ReceivingInv(s) && Proc.ApproveGrn(s, id, picks).Ok?
    ensures
      var t := Proc.ApproveGrn(s, id, picks).value;
      |s.pos| == |t.pos| && forall i | 0 <= i < |s.pos| :: PoEvolves(s.pos[i], t.pos[i])
  {
    ApproveGrnReceives(s, id, picks);
    var g, t := s.grns[id], Proc.ApproveGrn(s, id, picks).value;
    assert GrnOnOrder(s.pos, g);
    var p, q := s.pos[g.po], t.pos[g.po];
    assert StatusTrue(p);
    StatusAfterGain(p, q.(status := p.status), g.po, g.lines);
    forall i | 0 <= i < |p.lines| ensures q.lines[i].received >= p.lines[i].received {
      GainIsNonNegative(g.lines, LineKey(g.po, p.edition, i));
    }
    assert q.(status := p.status, lines := p.lines) == p;
    assert PoEvolves(p, q);
  }

  lemma LedgerGrows(s: State, op: Op)
    ensures s.books.ledger <= Exec(s, op).books.ledger
  {
    if Approval(op) {
      if Apply(s, op).Ok? {
        ApprovalPosts(s, op);
        PostAllAppends(s.books, Due(Apply(s, op).value, SubjectOf(op)), SubjectOf(op));
      }
    } else {
      OtherStepsAreQuiet(s, op);
    }
  }

  lemma NoteStepEvolvesOrders(s: State, op: Op)
    requires ReceivingInv(s) && ReceiptsInv(s) && OnGrn(op)
    ensures
      var t := Exec(s, op);
      && s.receipts <= t.receipts
      && |s.pos| <= |t.pos| && (forall i | 0 <= i < |s.pos| :: PoEvolves(s.pos[i], t.pos[i]))
  {
    if op.ApproveGrn? {
      if Apply(s, op).Ok? {
        ReceivingEvolvesPo(s, op.id, op.picks);
        ApprovalKeepsRows(s, op.id, op.picks);
      }
    } else {
      GrnStepsAreQuiet(s, op);
    }
  }

  lemma StepEvolves(s: State, op: Op)
    requires DocumentsWellFormed(s) && ReceivingInv(s) && ReceiptsInv(s)
    ensures Evolves(s, Exec(s, op)) && DocumentsWellFormed(Exec(s, op))
  {
    LedgerGrows(s, op);
    if OnAdjustment(op) {
      AdjustmentStepEvolves(s, op);
    } else if OnRelease(op) {
      ReleaseStepEvolves(s, op);
    } else if OnPo(op) {
      PoStepEvolves(s, op);
    } else if OnGrn(op) {
      NoteStepEvolves(s, op);
      NoteStepEvolvesOrders(s, op);
    }
  }

  /** All invariants the lifecycle needs, in one predicate. */
  ghost predicate Healthy(s: State) {
    BooksAgree(s) && DocumentsWellFormed(s) && ReceivingInv(s) && ReceiptsInv(s)
  }

  lemma StepKeepsHealthy(s: State, op: Op)
    requires Healthy(s)
    ensures Healthy(Exec(s, op)) && Evolves(s, Exec(s, op))
  {
    StepKeepsBooks(s, op);
    StepKeepsReceiving(s, op);
    StepKeepsReceipts(s, op);
    StepEvolves(s, op);
  }

  lemma {:induction false} RunEvolves(s: State, ops: seq<Op>)
    requires Healthy(s)
    ensures Healthy(After(s, ops)) && Evolves(s, After(s, ops))
    decreases |ops|
  {
    if ops == [] {
      EvolvesReflexive(s);
    } else {
      var next := Exec(s, ops[0]);
      StepKeepsHealthy(s, ops[0]);
      RunEvolves(next, ops[1..]);
      EvolvesTransitive(s, next, After(next, ops[1..]));
    }
  }

  lemma EmptyIsHealthy()
    ensures Healthy(EMPTY)
  {
    EmptyReceipts();
  }

  lemma EveryRunIsHealthy(ops: seq<Op>)
    ensures Healthy(Run(ops))
  {
    EmptyIsHealthy();
    RunEvolves(EMPTY, ops);
  }

  /** Between any earlier and any later moment of any run, documents and ledgers evolve as allowed. */
  lemma RunsOnlyEvolve(ops: seq<Op>, more: seq<Op>)
    ensures Evolves(Run(ops), Run(ops + more))
  {
    EveryRunIsHealthy(ops);
    AfterConcat(EMPTY, ops, more);
    RunEvolves(Run(ops), more);
  }

  // ------------------------------------------------------------------
  // Single steps
  // ------------------------------------------------------------------

  /** The edges of the document workflow. */
  predicate Edge(a: Status, b: Status) {
    || a == b
    || (a.Draft? && (b.Submitted? || b.Cancelled?))
    || (a.Submitted? && (b.Approved? || b.Cancelled?))
  }

  /** The edges of the order workflow. */
  predicate PoEdge(a: PoStatus, b: PoStatus) {
    || a == b
    || (a.PoDraft? && (b.PoSubmitted? || b.PoCancelled?))
    || (a.PoSubmitted? && (b.PoApproved? || b.PoRejected? || b.PoCancelled?))
    || (a.PoApproved? && (b.PartiallyReceived? || b.FullyReceived?))
    || (a.PartiallyReceived? && b.FullyReceived?)
  }

  lemma AdjustmentStepIsEdge(s: State, op: Op, i: nat)
    requires i < |s.adjustments|
    ensures |s.adjustments| <= |Exec(s, op).adjustments|
    ensures Edge(s.adjustments[i].status, Exec(s, op).adjustments[i].status)
  {
  }

  lemma ReleaseStepIsEdge(s: State, op: Op, i: nat)
    requires i < |s.releases|
    ensures |s.releases| <= |Exec(s, op).releases|
    ensures Edge(s.releases[i].status, Exec(s, op).releases[i].status)
  {
  }

  lemma NoteStepIsEdge(s: State, op: Op, i: nat)
    requires i < |s.grns|
    ensures |s.grns| <= |Exec(s, op).grns|
    ensures Edge(s.grns[i].status, Exec(s, op).grns[i].status)
  {
  }

  lemma ReceivingIsEdge(s: State, id: nat, picks: seq<nat>, i: nat)
    requires ReceivingInv(s) && Proc.ApproveGrn(s, id, picks).Ok? && i < |s.pos|
    ensures i < |Proc.ApproveGrn(s, id, picks).value.pos|
    ensures PoEdge(s.pos[i].status, Proc.ApproveGrn(s, id, picks).value.pos[i].status)
  {
    ReceivingEvolvesPo(s, id, picks);
    ApproveGrnReceives(s, id, picks);
    assert GrnOnOrder(s.pos, s.grns[id]);
    assert PoEvolves(s.pos[i], Proc.ApproveGrn(s, id, picks).value.pos[i]);
  }

  lemma OrderStepIsEdge(s: State, op: Op, i: nat)
    requires ReceivingInv(s) && i < |s.pos|
    ensures |s.pos| <= |Exec(s, op).pos|
    ensures PoEdge(s.pos[i].status, Exec(s, op).pos[i].status)
  {
    if op.ApproveGrn? {
      if Apply(s, op).Ok? {
        ReceivingIsEdge(s, op.id, op.picks, i);
        ApproveGrnReceives(s, op.id, op.picks);
      }
    } else if OnGrn(op) {
      GrnStepsAreQuiet(s, op);
    } else if OnPo(op) {
      PoOwnStepIsEdge(s, op, i);
    }
  }

  lemma PoOwnStepIsEdge(s: State, op: Op, i: nat)
    requires OnPo(op) && i < |s.pos|
    ensures |s.pos| <= |Exec(s, op).pos|
    ensures PoEdge(s.pos[i].status, Exec(s, op).pos[i].status)
  {
  }

  /** In every run every request moves every document along an edge of its workflow, or not at all. */
  lemma StatusesFollowEdges(ops: seq<Op>, op: Op)
    ensures
      var s, t := Run(ops), Exec(Run(ops), op);
      && |s.pos| <= |t.pos| && (forall i | 0 <= i < |s.pos| :: PoEdge(s.pos[i].status, t.pos[i].status))
      && |s.grns| <= |t.grns| && (forall i | 0 <= i < |s.grns| :: Edge(s.grns[i].status, t.grns[i].status))
      && |s.adjustments| <= |t.adjustments|
      && (forall i | 0 <= i < |s.adjustments| :: Edge(s.adjustments[i].status, t.adjustments[i].status))
      && |s.releases| <= |t.releases|
      && (forall i | 0 <= i < |s.releases| :: Edge(s.releases[i].status, t.releases[i].status))
  {
    var s, t := Run(ops), Exec(Run(ops), op);
    EveryRunIsHealthy(ops);
    StepKeepsHealthy(s, op);
    forall i | 0 <= i < |s.pos| ensures PoEdge(s.pos[i].status, t.pos[i].status) {
      OrderStepIsEdge(s, op, i);
    }
    forall i | 0 <= i < |s.grns| ensures Edge(s.grns[i].status, t.grns[i].status) {
      NoteStepIsEdge(s, op, i);
    }
    forall i | 0 <= i < |s.adjustments| ensures Edge(s.adjustments[i].status, t.adjustments[i].status) {
      AdjustmentStepIsEdge(s, op, i);
    }
    forall i | 0 <= i < |s.releases| ensures Edge(s.releases[i].status, t.releases[i].status) {
      ReleaseStepIsEdge(s, op, i);
    }
  }

  /** A soft-deleted document is DRAFT and stays exactly as it is, for ever. */
  lemma DeletedDocumentsStayDraft(ops: seq<Op>, more: seq<Op>)
    ensures
      var s, t := Run(ops), Run(ops + more);
      && |s.adjustments| <= |t.adjustments| && |s.releases| <= |t.releases| && |s.pos| <= |t.pos|
      && (forall i | 0 <= i < |s.adjustments| && s.adjustments[i].deleted ::
            t.adjustments[i] == s.adjustments[i] && s.adjustments[i].status.Draft?)
      && (forall i | 0 <= i < |s.releases| && s.releases[i].deleted ::
            t.releases[i] == s.releases[i] && s.releases[i].status.Draft?)
      && (forall i | 0 <= i < |s.pos| && s.pos[i].deleted ::
            t.pos[i] == s.pos[i] && s.pos[i].status.PoDraft?)
  {
    EveryRunIsHealthy(ops);
    RunsOnlyEvolve(ops, more);
    var s, t := Run(ops), Run(ops + more);
    forall i | 0 <= i < |s.adjustments| && s.adjustments[i].deleted
      ensures t.adjustments[i] == s.adjustments[i] && s.adjustments[i].status.Draft?
    {
      assert AdjustmentEvolves(s.adjustments[i], t.adjustments[i]) && AdjustmentOk(s.adjustments[i]);
    }
    forall i | 0 <= i < |s.releases| && s.releases[i].deleted
      ensures t.releases[i] == s.releases[i] && s.releases[i].status.Draft?
    {
      assert ReleaseEvolves(s.releases[i], t.releases[i]) && ReleaseOk(s.releases[i]);
    }
    forall i | 0 <= i < |s.pos| && s.pos[i].deleted
      ensures t.pos[i] == s.pos[i] && s.pos[i].status.PoDraft?
    {
      assert PoEvolves(s.pos[i], t.pos[i]) && StatusTrue(s.pos[i]);
    }
  }
}
