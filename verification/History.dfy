/**
 * The tables as the history of a run: which accepted requests gave a document its status, and which
 * request its contents go back to.
 */
module History {
  import opened Tables
  import opened System
  import opened Receiving
  import opened Lifecycle
  import opened Requests
  import Rel = Releases
  import Proc = Procurement

  predicate Accepted(s: State, op: Op) {
    Apply(s, op).Ok?
  }

  lemma StepHasEffect(ops: seq<Op>)
    requires ops != []
    ensures
      var s, op := Run(Before(ops)), Last(ops);
      && (Accepted(s, op) <==> Allowed(s, op))
      && (Accepted(s, op) ==> Effect(s, op, Run(ops)))
      && (!Accepted(s, op) ==> Run(ops) == s)
  {
    assert ops == Before(ops) + [Last(ops)];
    RequestsDoWhatTheySay(Before(ops), Last(ops));
  }

  /** Requests leave the other tables of documents alone; only note approval writes to two. */
  lemma EffectFrame(s: State, op: Op, t: State)
    requires Effect(s, op, t)
    ensures !OnPo(op) && !op.ApproveGrn? ==> t.pos == s.pos
    ensures !OnGrn(op) ==> t.grns == s.grns
    ensures !OnAdjustment(op) ==> t.adjustments == s.adjustments
    ensures !OnRelease(op) ==> t.releases == s.releases
  {
  }

  lemma DoneStep(ops: seq<Op>, what: Op -> bool)
    requires ops != []
    ensures Done(ops, what) <==>
            Done(Before(ops), what) || (Accepted(Run(Before(ops)), Last(ops)) && what(Last(ops)))
  {
  }

  // ------------------------------------------------------------------
  // The status of an order
  // ------------------------------------------------------------------

  function Submits(id: nat): Op -> bool {
    (op: Op) => op == SubmitPo(id)
  }

  function Approves(id: nat): Op -> bool {
    (op: Op) => op == ApprovePo(id)
  }

  function Rejects(id: nat): Op -> bool {
    (op: Op) => op == RejectPo(id)
  }

  function Cancels(id: nat): Op -> bool {
    (op: Op) => op == CancelPo(id)
  }

  function Deletes(id: nat): Op -> bool {
    (op: Op) => op == DeletePo(id)
  }

  /** The status and the flag say exactly which of the five were accepted so far. */
  predicate OrderTold(
    p: PurchaseOrder, submitted: bool, approved: bool, rejected: bool, cancelled: bool, deleted: bool)
  {
    && (p.status.PoDraft? <==> !submitted && !cancelled)
    && (p.status.PoSubmitted? <==> submitted && !approved && !rejected && !cancelled)
    && (p.status.PoApproved? || p.status.PartiallyReceived? || p.status.FullyReceived? <==> approved)
    && (p.status.PoRejected? <==> rejected)
    && (p.status.PoCancelled? <==> cancelled)
    && (p.deleted <==> deleted)
  }

  ghost predicate OrderStory(ops: seq<Op>, id: nat) {
    var submitted, approved := Done(ops, Submits(id)), Done(ops, Approves(id));
    var rejected, cancelled, deleted := Done(ops, Rejects(id)), Done(ops, Cancels(id)), Done(ops, Deletes(id));
    if id < |Run(ops).pos| then OrderTold(Run(ops).pos[id], submitted, approved, rejected, cancelled, deleted)
    else !submitted && !approved && !rejected && !cancelled && !deleted
  }

  /** Receipts move an order among the receivable statuses only. */
  lemma OrderAfterNote(ops: seq<Op>, id: nat)
    requires ops != [] && Last(ops).ApproveGrn? && Accepted(Run(Before(ops)), Last(ops))
    requires id < |Run(Before(ops)).pos|
    ensures
      var s, t := Run(Before(ops)), Run(ops);
      && |t.pos| == |s.pos|
      && t.pos[id].deleted == s.pos[id].deleted && t.pos[id].supplier == s.pos[id].supplier
      && |t.pos[id].lines| == |s.pos[id].lines|
      && (forall i | 0 <= i < |s.pos[id].lines| ::
            && t.pos[id].lines[i].product == s.pos[id].lines[i].product
            && t.pos[id].lines[i].ordered == s.pos[id].lines[i].ordered)
      && (t.pos[id].status == s.pos[id].status
          || (Proc.Receivable(s.pos[id].status) && Proc.Receivable(t.pos[id].status)))
  {
    var s, t, op := Run(Before(ops)), Run(ops), Last(ops);
    StepHasEffect(ops);
    EveryRunIsHealthy(Before(ops));
    var g := s.grns[op.id];
    assert OrderReceives(s, t, op.id) && GrnOnOrder(s.pos, g);
    if id == g.po {
      assert StatusTrue(s.pos[id]);
      StatusAfterGain(s.pos[id], t.pos[id].(status := s.pos[id].status), id, g.lines);
    }
  }

  /** What an accepted request does to the status of an order. */
  lemma OrderMoves(s: State, op: Op, t: State, id: nat)
    requires OnPo(op) && OrderAllowed(s, op) && OrderEffect(s, op, t)
    ensures |s.pos| <= |t.pos|
    ensures |s.pos| <= id < |t.pos| ==> t.pos[id].status.PoDraft? && !t.pos[id].deleted
    ensures id < |s.pos| ==>
              && t.pos[id].deleted == (s.pos[id].deleted || op == DeletePo(id))
              && t.pos[id].status ==
                 if op == SubmitPo(id) then PoSubmitted
                 else if op == ApprovePo(id) then PoApproved
                 else if op == RejectPo(id) then PoRejected
                 else if op == CancelPo(id) then PoCancelled
                 else s.pos[id].status
    ensures op == SubmitPo(id) || op == DeletePo(id) ==> id < |s.pos| && s.pos[id].status.PoDraft?
    ensures op == ApprovePo(id) || op == RejectPo(id) ==> id < |s.pos| && s.pos[id].status.PoSubmitted?
    ensures op == CancelPo(id) ==> id < |s.pos| && (s.pos[id].status.PoDraft? || s.pos[id].status.PoSubmitted?)
  {
  }

  lemma NoteApprovalKeepsStory(ops: seq<Op>, id: nat)
    requires ops != [] && OrderStory(Before(ops), id)
    requires Last(ops).ApproveGrn? && Accepted(Run(Before(ops)), Last(ops))
    requires forall what | what in [Submits(id), Approves(id), Rejects(id), Cancels(id), Deletes(id)] ::
               Done(ops, what) <==> Done(Before(ops), what)
    ensures OrderStory(ops, id)
  {
    var s, t := Run(Before(ops)), Run(ops);
    StepHasEffect(ops);
    assert OrderReceives(s, t, Last(ops).id);
    if id < |s.pos| {
      OrderAfterNote(ops, id);
    }
  }

  lemma OrderStoryStep(ops: seq<Op>, id: nat)
    requires ops != [] && OrderStory(Before(ops), id)
    ensures OrderStory(ops, id)
  {
    StepHasEffect(ops);
    DoneStep(ops, Submits(id));
    DoneStep(ops, Approves(id));
    DoneStep(ops, Rejects(id));
    DoneStep(ops, Cancels(id));
    DoneStep(ops, Deletes(id));
    var s, op := Run(Before(ops)), Last(ops);
    if Accepted(s, op) {
      if op.ApproveGrn? {
        NoteApprovalKeepsStory(ops, id);
      } else if OnPo(op) {
        OrderMoves(s, op, Run(ops), id);
      } else {
        EffectFrame(s, op, Run(ops));
      }
    }
  }

  /** In every run an order has the status, and the flag, that its accepted requests name. */
  lemma {:induction false} OrderStatusIsItsStory(ops: seq<Op>, id: nat)
    ensures OrderStory(ops, id)
    decreases |ops|
  {
    if ops != [] {
      OrderStatusIsItsStory(Before(ops), id);
      OrderStoryStep(ops, id);
    }
  }

  // ------------------------------------------------------------------
  // The status of a note, an adjustment, a release
  // ------------------------------------------------------------------

  predicate Told(status: Status, submitted: bool, approved: bool, cancelled: bool) {
    && (status.Draft? <==> !submitted && !cancelled)
    && (status.Submitted? <==> submitted && !approved && !cancelled)
    && (status.Approved? <==> approved)
    && (status.Cancelled? <==> cancelled)
  }

  function SubmitsNote(id: nat): Op -> bool {
    (op: Op) => op == SubmitGrn(id)
  }

  function ApprovesNote(id: nat): Op -> bool {
    (op: Op) => op.ApproveGrn? && op.id == id
  }

  function CancelsNote(id: nat): Op -> bool {
    (op: Op) => op == CancelGrn(id)
  }

  ghost predicate NoteStory(ops: seq<Op>, id: nat) {
    var submitted, approved := Done(ops, SubmitsNote(id)), Done(ops, ApprovesNote(id));
    var cancelled := Done(ops, CancelsNote(id));
    if id < |Run(ops).grns| then Told(Run(ops).grns[id].status, submitted, approved, cancelled)
    else !submitted && !approved && !cancelled
  }

  lemma NoteMoves(s: State, op: Op, t: State, id: nat)
    requires OnGrn(op) && NoteAllowed(s, op) && NoteEffect(s, op, t)
    ensures |s.grns| <= |t.grns|
    ensures |s.grns| <= id < |t.grns| ==> t.grns[id].status.Draft?
    ensures id < |s.grns| ==>
              && t.grns[id].status ==
                 if op == SubmitGrn(id) then Submitted
                 else if op.ApproveGrn? && op.id == id then Approved
                 else if op == CancelGrn(id) then Cancelled
                 else s.grns[id].status
    ensures op == SubmitGrn(id) ==> id < |s.grns| && s.grns[id].status.Draft?
    ensures op.ApproveGrn? && op.id == id ==> id < |s.grns| && s.grns[id].status.Submitted?
    ensures op == CancelGrn(id) ==> id < |s.grns| && !s.grns[id].status.Approved?
  {
  }

  lemma {:induction false} NoteStatusIsItsStory(ops: seq<Op>, id: nat)
    ensures NoteStory(ops, id)
    decreases |ops|
  {
    if ops != [] {
      NoteStatusIsItsStory(Before(ops), id);
      StepHasEffect(ops);
      DoneStep(ops, SubmitsNote(id));
      DoneStep(ops, ApprovesNote(id));
      DoneStep(ops, CancelsNote(id));
      var s, op := Run(Before(ops)), Last(ops);
      if Accepted(s, op) {
        EffectFrame(s, op, Run(ops));
        if OnGrn(op) {
          NoteMoves(s, op, Run(ops), id);
        }
      }
    }
  }

  function SubmitsAdjustment(id: nat): Op -> bool {
    (op: Op) => op == SubmitAdjustment(id)
  }

  function ApprovesAdjustment(id: nat): Op -> bool {
    (op: Op) => op == ApproveAdjustment(id)
  }

  function CancelsAdjustment(id: nat): Op -> bool {
    (op: Op) => op == CancelAdjustment(id)
  }

  function DeletesAdjustment(id: nat): Op -> bool {
    (op: Op) => op == DeleteAdjustment(id)
  }

  ghost predicate AdjustmentStory(ops: seq<Op>, id: nat) {
    var submitted, approved := Done(ops, SubmitsAdjustment(id)), Done(ops, ApprovesAdjustment(id));
    var cancelled, deleted := Done(ops, CancelsAdjustment(id)), Done(ops, DeletesAdjustment(id));
    if id < |Run(ops).adjustments| then
      && Told(Run(ops).adjustments[id].status, submitted, approved, cancelled)
      && (Run(ops).adjustments[id].deleted <==> deleted)
    else !submitted && !approved && !cancelled && !deleted
  }

  lemma AdjustmentMoves(s: State, op: Op, t: State, id: nat)
    requires OnAdjustment(op) && AdjustmentAllowed(s, op) && AdjustmentEffect(s, op, t)
    ensures |s.adjustments| <= |t.adjustments|
    ensures |s.adjustments| <= id < |t.adjustments| ==> t.adjustments[id].status.Draft? && !t.adjustments[id].deleted
    ensures id < |s.adjustments| ==>
              && t.adjustments[id].deleted == (s.adjustments[id].deleted || op == DeleteAdjustment(id))
              && t.adjustments[id].status ==
                 if op == SubmitAdjustment(id) then Submitted
                 else if op == ApproveAdjustment(id) then Approved
                 else if op == CancelAdjustment(id) then Cancelled
                 else s.adjustments[id].status
    ensures op == SubmitAdjustment(id) || op == DeleteAdjustment(id) ==>
              id < |s.adjustments| && s.adjustments[id].status.Draft?
    ensures op == ApproveAdjustment(id) ==> id < |s.adjustments| && s.adjustments[id].status.Submitted?
    ensures op == CancelAdjustment(id) ==> id < |s.adjustments| && !s.adjustments[id].status.Approved?
  {
  }

  lemma {:induction false} AdjustmentStatusIsItsStory(ops: seq<Op>, id: nat)
    ensures AdjustmentStory(ops, id)
    decreases |ops|
  {
    if ops != [] {
      AdjustmentStatusIsItsStory(Before(ops), id);
      StepHasEffect(ops);
      DoneStep(ops, SubmitsAdjustment(id));
      DoneStep(ops, ApprovesAdjustment(id));
      DoneStep(ops, CancelsAdjustment(id));
      DoneStep(ops, DeletesAdjustment(id));
      var s, op := Run(Before(ops)), Last(ops);
      if Accepted(s, op) {
        EffectFrame(s, op, Run(ops));
        if OnAdjustment(op) {
          AdjustmentMoves(s, op, Run(ops), id);
        }
      }
    }
  }

  function SubmitsRelease(id: nat): Op -> bool {
    (op: Op) => op == SubmitRelease(id)
  }

  function ApprovesRelease(id: nat): Op -> bool {
    (op: Op) => op == ApproveRelease(id)
  }

  function CancelsRelease(id: nat): Op -> bool {
    (op: Op) => op == CancelRelease(id)
  }

  function DeletesRelease(id: nat): Op -> bool {
    (op: Op) => op == DeleteRelease(id)
  }

  ghost predicate ReleaseStory(ops: seq<Op>, id: nat) {
    var submitted, approved := Done(ops, SubmitsRelease(id)), Done(ops, ApprovesRelease(id));
    var cancelled, deleted := Done(ops, CancelsRelease(id)), Done(ops, DeletesRelease(id));
    if id < |Run(ops).releases| then
      && Told(Run(ops).releases[id].status, submitted, approved, cancelled)
      && (Run(ops).releases[id].deleted <==> deleted)
    else !submitted && !approved && !cancelled && !deleted
  }

  lemma ReleaseMoves(s: State, op: Op, t: State, id: nat)
    requires OnRelease(op) && ReleaseAllowed(s, op) && ReleaseEffect(s, op, t)
    ensures |s.releases| <= |t.releases|
    ensures |s.releases| <= id < |t.releases| ==> t.releases[id].status.Draft? && !t.releases[id].deleted
    ensures id < |s.releases| ==>
              && t.releases[id].deleted == (s.releases[id].deleted || op == DeleteRelease(id))
              && t.releases[id].status ==
                 if op == SubmitRelease(id) then Submitted
                 else if op == ApproveRelease(id) then Approved
                 else if op == CancelRelease(id) then Cancelled
                 else s.releases[id].status
    ensures op == SubmitRelease(id) || op == DeleteRelease(id) ==> id < |s.releases| && s.releases[id].status.Draft?
    ensures op == ApproveRelease(id) ==> id < |s.releases| && s.releases[id].status.Submitted?
    ensures op == CancelRelease(id) ==> id < |s.releases| && !s.releases[id].status.Approved?
  {
  }

  lemma {:induction false} ReleaseStatusIsItsStory(ops: seq<Op>, id: nat)
    ensures ReleaseStory(ops, id)
    decreases |ops|
  {
    if ops != [] {
      ReleaseStatusIsItsStory(Before(ops), id);
      StepHasEffect(ops);
      DoneStep(ops, SubmitsRelease(id));
      DoneStep(ops, ApprovesRelease(id));
      DoneStep(ops, CancelsRelease(id));
      DoneStep(ops, DeletesRelease(id));
      var s, op := Run(Before(ops)), Last(ops);
      if Accepted(s, op) {
        EffectFrame(s, op, Run(ops));
        if OnRelease(op) {
          ReleaseMoves(s, op, Run(ops), id);
        }
      }
    }
  }

  // ------------------------------------------------------------------
  // Contents: what the last accepted request asked for
  // ------------------------------------------------------------------

  datatype OrderAsk = OrderAsk(supplier: nat, lines: seq<Proc.OrderLine>)

  /** What the accepted creation and the accepted updates of an order asked for, the last word counting. */
  function AskedOrder(ops: seq<Op>, id: nat): OrderAsk
    decreases |ops|
  {
    if ops == [] then OrderAsk(0, [])
    else
      var s, op, before := Run(Before(ops)), Last(ops), AskedOrder(Before(ops), id);
      if !Accepted(s, op) then before
      else if op.CreatePo? && |s.pos| == id then OrderAsk(op.supplier, op.orderLines)
      else if op.DuplicatePo? && |s.pos| == id then AskedOrder(Before(ops), op.id)
      else if op.UpdatePo? && op.id == id then
        OrderAsk(if op.newSupplier.Some? then op.newSupplier.value else before.supplier,
                 if op.newOrderLines.Some? then op.newOrderLines.value else before.lines)
      else before
  }

  predicate OrderAskedFor(p: PurchaseOrder, asked: OrderAsk) {
    && p.supplier == asked.supplier && |p.lines| == |asked.lines|
    && forall i | 0 <= i < |p.lines| ::
         p.lines[i].product == asked.lines[i].product && p.lines[i].ordered == asked.lines[i].ordered
  }

  /** What an accepted request writes into an order. */
  lemma OrderContents(s: State, op: Op, t: State, id: nat)
    requires OnPo(op) && OrderEffect(s, op, t) && id < |t.pos|
    ensures id < |s.pos| && (op.UpdatePo? ==> op.id != id) ==>
              t.pos[id].supplier == s.pos[id].supplier && t.pos[id].lines == s.pos[id].lines
    ensures op.UpdatePo? && op.id == id ==>
              && id < |s.pos|
              && t.pos[id].supplier == (if op.newSupplier.Some? then op.newSupplier.value else s.pos[id].supplier)
              && (op.newOrderLines.Some? ==> OrdersAsked(t.pos[id].lines, op.newOrderLines.value))
              && (op.newOrderLines.None? ==> t.pos[id].lines == s.pos[id].lines)
    ensures id >= |s.pos| ==>
              && id == |s.pos|
              && (op.CreatePo? || op.DuplicatePo?)
              && (op.CreatePo? ==> t.pos[id].supplier == op.supplier && OrdersAsked(t.pos[id].lines, op.orderLines))
              && (op.DuplicatePo? ==>
                    && op.id < |s.pos| && t.pos[id].supplier == s.pos[op.id].supplier
                    && OrdersAsked(t.pos[id].lines, AskedAgain(s.pos[op.id].lines)))
  {
  }

  /** In every run an order has the supplier, products and quantities last asked for. */
  lemma {:induction false} OrdersHoldWhatWasAsked(ops: seq<Op>, id: nat)
    requires id < |Run(ops).pos|
    ensures OrderAskedFor(Run(ops).pos[id], AskedOrder(ops, id))
    decreases |ops|
  {
    StepHasEffect(ops);
    var s, op := Run(Before(ops)), Last(ops);
    if id < |s.pos| {
      OrdersHoldWhatWasAsked(Before(ops), id);
    }
    if Accepted(s, op) {
      if op.ApproveGrn? {
        assert OrderReceives(s, Run(ops), op.id);
        OrderAfterNote(ops, id);
      } else if OnPo(op) {
        OrderContents(s, op, Run(ops), id);
        if op.DuplicatePo? && id >= |s.pos| {
          OrdersHoldWhatWasAsked(Before(ops), op.id);
          AskedAgainAt(s.pos[op.id].lines);
        }
      } else {
        EffectFrame(s, op, Run(ops));
      }
    }
  }

  datatype NoteAsk = NoteAsk(po: nat, lines: seq<GrnLine>)

  function AskedNote(ops: seq<Op>, id: nat): NoteAsk
    decreases |ops|
  {
    if ops == [] then NoteAsk(0, [])
    else
      var s, op, before := Run(Before(ops)), Last(ops), AskedNote(Before(ops), id);
      if !Accepted(s, op) then before
      else if op.CreateGrn? && |s.grns| == id then NoteAsk(op.po, op.grnLines)
      else if op.UpdateGrn? && op.id == id && op.newGrnLines.Some? then NoteAsk(before.po, op.newGrnLines.value)
      else before
  }

  lemma {:induction false} NotesHoldWhatWasAsked(ops: seq<Op>, id: nat)
    requires id < |Run(ops).grns|
    ensures NoteAsk(Run(ops).grns[id].po, Run(ops).grns[id].lines) == AskedNote(ops, id)
    decreases |ops|
  {
    StepHasEffect(ops);
    if id < |Run(Before(ops)).grns| {
      NotesHoldWhatWasAsked(Before(ops), id);
    }
  }

  datatype AdjustmentAsk = AdjustmentAsk(kind: AdjustmentType, lines: seq<AdjustmentLine>)

  function AskedAdjustment(ops: seq<Op>, id: nat): AdjustmentAsk
    decreases |ops|
  {
    if ops == [] then AdjustmentAsk(ByIncrease, [])
    else
      var s, op, before := Run(Before(ops)), Last(ops), AskedAdjustment(Before(ops), id);
      if !Accepted(s, op) then before
      else if op.CreateAdjustment? && |s.adjustments| == id then AdjustmentAsk(op.kind, op.lines)
      else if op.UpdateAdjustment? && op.id == id then
        AdjustmentAsk(if op.newKind.Some? then op.newKind.value else before.kind,
                      if op.newLines.Some? then op.newLines.value else before.lines)
      else before
  }

  lemma {:induction false} AdjustmentsHoldWhatWasAsked(ops: seq<Op>, id: nat)
    requires id < |Run(ops).adjustments|
    ensures AdjustmentAsk(Run(ops).adjustments[id].kind, Run(ops).adjustments[id].lines) == AskedAdjustment(ops, id)
    decreases |ops|
  {
    StepHasEffect(ops);
    if id < |Run(Before(ops)).adjustments| {
      AdjustmentsHoldWhatWasAsked(Before(ops), id);
    }
  }

  function AskedRelease(ops: seq<Op>, id: nat): seq<Rel.Request>
    decreases |ops|
  {
    if ops == [] then []
    else
      var s, op, before := Run(Before(ops)), Last(ops), AskedRelease(Before(ops), id);
      if !Accepted(s, op) then before
      else if op.CreateRelease? && |s.releases| == id then op.requests
      else if op.UpdateRelease? && op.id == id && op.newRequests.Some? then op.newRequests.value
      else before
  }

  lemma {:induction false} ReleasesHoldWhatWasAsked(ops: seq<Op>, id: nat)
    requires id < |Run(ops).releases|
    ensures Asked(Run(ops).releases[id].lines) == AskedRelease(ops, id)
    decreases |ops|
  {
    StepHasEffect(ops);
    if id < |Run(Before(ops)).releases| {
      ReleasesHoldWhatWasAsked(Before(ops), id);
    }
  }
}
