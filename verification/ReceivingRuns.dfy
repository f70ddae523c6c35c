/** What the receiving invariants mean over whole runs, and when an order can be over-received. */
module ReceivingRuns {
  import opened Sums
  import opened Tables
  import opened Receiving
  import opened System
  import opened Effects
  import Proc = Procurement

  lemma PoStepKeeps(s: State, op: Op)
    requires ReceivingInv(s) && OnPo(op) && Apply(s, op).Ok?
    ensures ReceivingInv(Apply(s, op).value)
  {
    match op
    case CreatePo(supplier, lines) => CreatePoKeeps(s, supplier, lines);
    case UpdatePo(id, supplier, lines) => UpdatePoKeeps(s, id, supplier, lines);
    case DeletePo(id) => DeletePoKeeps(s, id);
    case SubmitPo(id) => MovePoKeeps(s, id, {PoDraft}, PoSubmitted);
    case ApprovePo(id) =>
      assert StatusTrue(s.pos[id]);
      MovePoKeeps(s, id, {PoSubmitted}, PoApproved);
    case RejectPo(id) => MovePoKeeps(s, id, {PoSubmitted}, PoRejected);
    case CancelPo(id) => MovePoKeeps(s, id, {PoDraft, PoSubmitted}, PoCancelled);
    case DuplicatePo(id) => CreatePoKeeps(s, s.pos[id].supplier, Proc.OrderLines(s.pos[id].lines));
  }

  lemma GrnStepKeeps(s: State, op: Op)
    requires ReceivingInv(s) && OnGrn(op) && Apply(s, op).Ok?
    ensures ReceivingInv(Apply(s, op).value)
  {
    match op
    case CreateGrn(po, lines) => CreateGrnKeeps(s, po, lines);
    case UpdateGrn(id, lines) => UpdateGrnKeeps(s, id, lines);
    case SubmitGrn(id) => MoveGrnKeeps(s, id, Submitted);
    case ApproveGrn(id, picks) => ApproveGrnKeeps(s, id, picks);
    case CancelGrn(id) => MoveGrnKeeps(s, id, Cancelled);
  }

  lemma StepKeepsReceiving(s: State, op: Op)
    requires ReceivingInv(s)
    ensures ReceivingInv(Exec(s, op))
  {
    var t := Exec(s, op);
    if OnPo(op) && Apply(s, op).Ok? {
      PoStepKeeps(s, op);
    } else if OnGrn(op) && Apply(s, op).Ok? {
      GrnStepKeeps(s, op);
    } else {
      assert t.pos == s.pos && t.grns == s.grns;
      SameOrdersAndNotes(s, t);
    }
  }

  lemma SameOrdersAndNotes(s: State, t: State)
    requires ReceivingInv(s) && t.pos == s.pos && t.grns == s.grns
    ensures ReceivingInv(t)
  {
  }

  // ------------------------------------------------------------------
  // Statuses
  // ------------------------------------------------------------------

  /** The classification a reader expects: no tolerance, no history. */
  function Classification(lines: seq<PoLine>): PoStatus {
    if forall i | 0 <= i < |lines| :: lines[i].received >= lines[i].ordered then FullyReceived
    else if exists i | 0 <= i < |lines| :: lines[i].received > 0 then PartiallyReceived
    else PoApproved
  }

  /** On stored quantities the 1e-6 tolerances decide nothing. */
  lemma TolerancesAreExact(l: PoLine, qty: nat)
    ensures Proc.Complete(l) <==> l.received >= l.ordered
    ensures Proc.Begun(l) <==> l.received >= l.ordered || l.received > 0
    ensures Proc.ExceedsRemaining(qty, l) <==> qty > l.ordered - l.received
  {
  }

  ghost predicate SomeOrderedZero(lines: seq<PoLine>) {
    exists i | 0 <= i < |lines| :: lines[i].ordered == 0
  }

  ghost predicate SomeOrderedPositive(lines: seq<PoLine>) {
    exists i | 0 <= i < |lines| :: lines[i].ordered > 0
  }

  /** The status a receipt computes misstates lines of which nothing was received and only some were ordered. */
  lemma StatusAfterReceiptIff(lines: seq<PoLine>)
    ensures Proc.StatusAfterReceipt(lines, PoApproved) == Classification(lines) <==>
            !(NothingReceived(lines) && SomeOrderedZero(lines) && SomeOrderedPositive(lines))
  {
  }

  /** Approving an order gives it the status of its lines exactly when some ordered quantity is positive. */
  lemma OrderApprovalClassifiesIff(s: State, id: nat)
    requires ReceivingInv(s) && Proc.ApprovePo(s, id).Ok?
    ensures
      var o := Proc.ApprovePo(s, id).value.pos[id];
      o.status == Classification(o.lines) <==> SomeOrderedPositive(s.pos[id].lines)
  {
  }

  /** The quantities of a note whose lines are all of one order vanish line by line or not at all. */
  lemma NoteIsZeroIff(pos: seq<PurchaseOrder>, g: Grn)
    requires GrnOnOrder(pos, g)
    ensures (forall i | 0 <= i < |pos[g.po].lines| :: Sum(g.lines, QtyForKey(KeyOf(pos, g.po, i))) == 0) <==>
            (forall k | 0 <= k < |g.lines| :: g.lines[k].qty == 0)
  {
    if forall k | 0 <= k < |g.lines| :: g.lines[k].qty == 0 {
      forall i | 0 <= i < |pos[g.po].lines| ensures Sum(g.lines, QtyForKey(KeyOf(pos, g.po, i))) == 0 {
        SumZero(g.lines, QtyForKey(KeyOf(pos, g.po, i)));
      }
    } else {
      var k :| 0 <= k < |g.lines| && g.lines[k].qty != 0;
      assert Proc.OnOrder(pos, g.lines[k].poLine);
      var i := g.lines[k].poLine.pos;
      assert g.lines[k].poLine == KeyOf(pos, g.po, i);
      SumNonNegative(g.lines, QtyForKey(KeyOf(pos, g.po, i)));
      assert QtyForKey(KeyOf(pos, g.po, i))(g.lines[k]) > 0;
    }
  }

  /** Before the call: what decides whether a note leaves nothing received on its order. */
  lemma NothingReceivedAfterIff(s: State, id: nat, picks: seq<nat>)
    requires ReceivingInv(s) && Proc.ApproveGrn(s, id, picks).Ok?
    ensures
      var g, t := s.grns[id], Proc.ApproveGrn(s, id, picks).value;
      && g.po < |s.pos| && |t.pos| == |s.pos|
      && (NothingReceived(t.pos[g.po].lines) <==>
          NothingReceived(s.pos[g.po].lines) && forall k | 0 <= k < |g.lines| :: g.lines[k].qty == 0)
      && (SomeOrderedZero(t.pos[g.po].lines) <==> SomeOrderedZero(s.pos[g.po].lines))
      && (SomeOrderedPositive(t.pos[g.po].lines) <==> SomeOrderedPositive(s.pos[g.po].lines))
  {
    ApproveGrnReceives(s, id, picks);
    var g, t := s.grns[id], Proc.ApproveGrn(s, id, picks).value;
    assert GrnOnOrder(s.pos, g);
    NoteIsZeroIff(s.pos, g);
    var p, q := s.pos[g.po], t.pos[g.po];
    forall i | 0 <= i < |p.lines|
      ensures q.lines[i].ordered == p.lines[i].ordered
      ensures q.lines[i].received == 0 <==>
              p.lines[i].received == 0 && Sum(g.lines, QtyForKey(KeyOf(s.pos, g.po, i))) == 0
    {
      GainIsNonNegative(g.lines, KeyOf(s.pos, g.po, i));
    }
    SameOrderedQuantities(p.lines, q.lines);
  }

  lemma SameOrderedQuantities(a: seq<PoLine>, b: seq<PoLine>)
    requires |a| == |b| && forall i | 0 <= i < |a| :: a[i].ordered == b[i].ordered
    ensures SomeOrderedZero(b) <==> SomeOrderedZero(a)
    ensures SomeOrderedPositive(b) <==> SomeOrderedPositive(a)
  {
  }

  /**
   * Approval of a note on an order that has the status of its lines leaves it with another one exactly
   * when nothing was received before, the note's quantities are all zero, and the order has lines stored
   * with quantity zero beside positive ones.
   */
  lemma NoteApprovalMisclassifiesIff(s: State, id: nat, picks: seq<nat>)
    requires ReceivingInv(s) && Proc.ApproveGrn(s, id, picks).Ok?
    requires s.grns[id].po < |s.pos| ==>
               s.pos[s.grns[id].po].status == Classification(s.pos[s.grns[id].po].lines)
    ensures
      var g, t := s.grns[id], Proc.ApproveGrn(s, id, picks).value;
      && g.po < |s.pos| && |t.pos| == |s.pos|
      && (t.pos[g.po].status != Classification(t.pos[g.po].lines) <==>
          && NothingReceived(s.pos[g.po].lines)
          && (forall k | 0 <= k < |g.lines| :: g.lines[k].qty == 0)
          && SomeOrderedZero(s.pos[g.po].lines) && SomeOrderedPositive(s.pos[g.po].lines))
  {
    NothingReceivedAfterIff(s, id, picks);
    ApprovalComputesStatus(s, id, picks);
    StatusAfterReceiptIff(Proc.ApproveGrn(s, id, picks).value.pos[s.grns[id].po].lines);
  }

  /** An approval that finds nothing received leaves APPROVED, whatever it found before. */
  lemma ApprovalComputesStatus(s: State, id: nat, picks: seq<nat>)
    requires ReceivingInv(s) && Proc.ApproveGrn(s, id, picks).Ok?
    requires s.grns[id].po < |s.pos| ==>
               var p := s.pos[s.grns[id].po];
               p.status.PoApproved? || p.status == Classification(p.lines) ||
               p.status == Proc.StatusAfterReceipt(p.lines, PoApproved)
    ensures
      var g, t := s.grns[id], Proc.ApproveGrn(s, id, picks).value;
      && g.po < |s.pos| && |t.pos| == |s.pos|
      && t.pos[g.po].status == Proc.StatusAfterReceipt(t.pos[g.po].lines, PoApproved)
  {
    ApproveGrnReceives(s, id, picks);
    var g, t := s.grns[id], Proc.ApproveGrn(s, id, picks).value;
    assert GrnOnOrder(s.pos, g);
    var p, q := s.pos[g.po], t.pos[g.po];
    forall i | 0 <= i < |p.lines|
      ensures Proc.Complete(p.lines[i]) ==> Proc.Complete(q.lines[i])
      ensures Proc.Begun(p.lines[i]) ==> Proc.Begun(q.lines[i])
      ensures Proc.Complete(p.lines[i]) || p.lines[i].received > 0 ==> Proc.Begun(p.lines[i])
    {
      GainIsNonNegative(g.lines, KeyOf(s.pos, g.po, i));
    }
    if !AllComplete(q.lines) && !SomeBegun(q.lines) {
      assert forall i | 0 <= i < |p.lines| :: !Proc.Begun(p.lines[i]) by {
        forall i | 0 <= i < |p.lines| ensures !Proc.Begun(p.lines[i]) {
          assert !Proc.Begun(q.lines[i]);
        }
      }
      assert p.status.PoApproved?;
    }
  }

  // Over whole runs.

  /** Some approved note is for the order. */
  ghost predicate Noted(grns: seq<Grn>, po: nat) {
    exists g | 0 <= g < |grns| :: grns[g].status.Approved? && grns[g].po == po
  }

  /** A receivable order is APPROVED until its first note and has the computed status from then on. */
  ghost predicate StatusComputed(s: State, po: nat)
    requires po < |s.pos|
  {
    var p := s.pos[po];
    Proc.Receivable(p.status) ==>
      p.status == if Noted(s.grns, po) then Proc.StatusAfterReceipt(p.lines, PoApproved) else PoApproved
  }

  ghost predicate StatusesComputed(s: State) {
    forall po | 0 <= po < |s.pos| :: StatusComputed(s, po)
  }

  lemma PoStepComputes(s: State, op: Op)
    requires ReceivingInv(s) && StatusesComputed(s) && OnPo(op)
    ensures StatusesComputed(Exec(s, op))
  {
    var t := Exec(s, op);
    PoStepRewrites(s, op);
    forall po | 0 <= po < |t.pos| ensures StatusComputed(t, po) {
      if po < |s.pos| && t.pos[po] == s.pos[po] {
        assert StatusComputed(s, po);
      } else {
        NotNoted(s, po);
        PoStepApproves(s, op, po);
      }
    }
  }

  lemma NotNoted(s: State, po: nat)
    requires GrnsOnOrder(s)
    requires po < |s.pos| ==> !Proc.Receivable(s.pos[po].status)
    ensures !Noted(s.grns, po)
  {
  }

  /** The only receivable status an order step writes is APPROVED. */
  lemma PoStepApproves(s: State, op: Op, po: nat)
    requires OnPo(op) && po < |Exec(s, op).pos|
    requires po < |s.pos| ==> Exec(s, op).pos[po] != s.pos[po]
    ensures Proc.Receivable(Exec(s, op).pos[po].status) ==> Exec(s, op).pos[po].status.PoApproved?
  {
  }

  lemma NoteStepComputes(s: State, op: Op)
    requires StatusesComputed(s) && OnGrn(op) && !op.ApproveGrn?
    ensures StatusesComputed(Exec(s, op))
  {
    var t := Exec(s, op);
    GrnStepsAreQuiet(s, op);
    forall po | 0 <= po < |t.pos| ensures StatusComputed(t, po) {
      assert StatusComputed(s, po);
      NoteStepNotes(s, op, po);
    }
  }

  lemma NoteStepNotes(s: State, op: Op, po: nat)
    requires OnGrn(op) && !op.ApproveGrn?
    ensures Noted(Exec(s, op).grns, po) <==> Noted(s.grns, po)
  {
    var t := Exec(s, op);
    if Noted(s.grns, po) {
      var g :| 0 <= g < |s.grns| && s.grns[g].status.Approved? && s.grns[g].po == po;
      assert t.grns[g] == s.grns[g];
    }
    if Noted(t.grns, po) {
      var g :| 0 <= g < |t.grns| && t.grns[g].status.Approved? && t.grns[g].po == po;
      assert g < |s.grns| && t.grns[g] == s.grns[g];
    }
  }

  lemma ApprovalComputes(s: State, id: nat, picks: seq<nat>)
    requires ReceivingInv(s) && StatusesComputed(s) && Proc.ApproveGrn(s, id, picks).Ok?
    ensures StatusesComputed(Proc.ApproveGrn(s, id, picks).value)
  {
    var g, t := s.grns[id], Proc.ApproveGrn(s, id, picks).value;
    assert GrnOnOrder(s.pos, g);
    assert StatusComputed(s, g.po);
    ApprovalComputesStatus(s, id, picks);
    ApproveGrnReceives(s, id, picks);
    assert t.grns[id].status.Approved? && t.grns[id].po == g.po;
    forall po | 0 <= po < |t.pos| && po != g.po ensures StatusComputed(t, po) {
      assert StatusComputed(s, po);
      if Noted(s.grns, po) {
        var h :| 0 <= h < |s.grns| && s.grns[h].status.Approved? && s.grns[h].po == po;
        assert t.grns[h] == s.grns[h];
      }
      if Noted(t.grns, po) {
        var h :| 0 <= h < |t.grns| && t.grns[h].status.Approved? && t.grns[h].po == po;
        assert t.grns[h] == s.grns[h];
      }
    }
  }

  lemma StepComputes(s: State, op: Op)
    requires ReceivingInv(s) && StatusesComputed(s)
    ensures StatusesComputed(Exec(s, op))
  {
    if OnPo(op) {
      PoStepComputes(s, op);
    } else if op.ApproveGrn? {
      if Apply(s, op).Ok? {
        ApprovalComputes(s, op.id, op.picks);
      }
    } else if OnGrn(op) {
      NoteStepComputes(s, op);
    } else {
      var t := Exec(s, op);
      assert t.pos == s.pos && t.grns == s.grns;
      forall po | 0 <= po < |t.pos| ensures StatusComputed(t, po) {
        assert StatusComputed(s, po);
      }
    }
  }

  lemma {:induction false} ComputedAfter(s: State, ops: seq<Op>)
    requires ReceivingInv(s) && StatusesComputed(s)
    ensures ReceivingInv(After(s, ops)) && StatusesComputed(After(s, ops))
    decreases |ops|
  {
    if ops != [] {
      StepKeepsReceiving(s, ops[0]);
      StepComputes(s, ops[0]);
      ComputedAfter(Exec(s, ops[0]), ops[1..]);
    }
  }

  /**
   * In every run a receivable order has the status of its lines unless nothing was received on it and
   * quantities stored as zero hide that: before its first note all of them, after it some and not all.
   */
  lemma StatusIsClassificationIff(ops: seq<Op>, po: nat)
    requires po < |Run(ops).pos| && Proc.Receivable(Run(ops).pos[po].status)
    ensures
      var s := Run(ops);
      var p := s.pos[po];
      p.status == Classification(p.lines) <==>
      !(&& NothingReceived(p.lines)
        && (if Noted(s.grns, po) then SomeOrderedZero(p.lines) && SomeOrderedPositive(p.lines)
            else !SomeOrderedPositive(p.lines)))
  {
    ComputedAfter(EMPTY, ops);
    var s := Run(ops);
    assert StatusComputed(s, po) && StatusTrue(s.pos[po]);
    StatusAfterReceiptIff(s.pos[po].lines);
  }

  // ------------------------------------------------------------------
  // Over-receipt
  // ------------------------------------------------------------------

  ghost predicate NoOverReceipt(pos: seq<PurchaseOrder>, po: nat)
    requires po < |pos|
  {
    forall i | 0 <= i < |pos[po].lines| :: pos[po].lines[i].received <= pos[po].lines[i].ordered
  }

  predicate Open(g: Grn) {
    g.status.Draft? || g.status.Submitted?
  }

  /** A note that repeats no order line. */
  ghost predicate DistinctLines(g: Grn) {
    forall i, j | 0 <= i < j < |g.lines| :: g.lines[i].poLine != g.lines[j].poLine
  }

  /** The discipline: at most one open note per order, and no note repeats an order line. */
  ghost predicate Serial(s: State) {
    && (forall g, h | 0 <= g < h < |s.grns| && Open(s.grns[g]) && Open(s.grns[h]) :: s.grns[g].po != s.grns[h].po)
    && (forall g | 0 <= g < |s.grns| :: DistinctLines(s.grns[g]))
  }

  /** Every line of an open note still fits into what its order line has left. */
  ghost predicate Fitting(pos: seq<PurchaseOrder>, g: Grn)
    requires GrnOnOrder(pos, g)
  {
    forall k | 0 <= k < |g.lines| ::
      assert Proc.OnOrder(pos, g.lines[k].poLine);
      var l := pos[g.po].lines[g.lines[k].poLine.pos];
      g.lines[k].qty <= l.ordered - l.received
  }

  ghost predicate WithinOrder(s: State)
    requires GrnsOnOrder(s)
  {
    && (forall po | 0 <= po < |s.pos| :: NoOverReceipt(s.pos, po))
    && (forall g | 0 <= g < |s.grns| && Open(s.grns[g]) :: Fitting(s.pos, s.grns[g]))
  }

  lemma {:induction false} TotalOfDistinct(lines: seq<GrnLine>, key: LineKey)
    requires forall i, j | 0 <= i < j < |lines| :: lines[i].poLine != lines[j].poLine
    ensures Sum(lines, QtyForKey(key)) == 0 ||
            exists k | 0 <= k < |lines| :: lines[k].poLine == key && Sum(lines, QtyForKey(key)) == lines[k].qty
  {
    if lines != [] {
      var rest := lines[1..];
      forall i, j | 0 <= i < j < |rest| ensures rest[i].poLine != rest[j].poLine {
        assert rest[i] == lines[i + 1] && rest[j] == lines[j + 1];
      }
      if lines[0].poLine == key {
        forall i | 0 <= i < |rest| ensures QtyForKey(key)(rest[i]) == 0 {
          assert rest[i] == lines[i + 1];
        }
        SumZero(rest, QtyForKey(key));
        assert lines[0].poLine == key && Sum(lines, QtyForKey(key)) == lines[0].qty;
      } else {
        TotalOfDistinct(rest, key);
        if k :| 0 <= k < |rest| && rest[k].poLine == key && Sum(rest, QtyForKey(key)) == rest[k].qty {
          assert lines[k + 1] == rest[k];
        }
      }
    }
  }

  /**
   * Approval does not check the remaining quantity again. It leaves the order within its ordered
   * quantities exactly when, before the call, each line had room for the note's total on it.
   */
  lemma ApprovalOverReceivesIff(s: State, id: nat, picks: seq<nat>)
    requires ReceivingInv(s) && Proc.ApproveGrn(s, id, picks).Ok?
    ensures
      var g, t := s.grns[id], Proc.ApproveGrn(s, id, picks).value;
      && g.po < |s.pos| && |t.pos| == |s.pos|
      && (NoOverReceipt(t.pos, g.po) <==>
          forall i | 0 <= i < |s.pos[g.po].lines| ::
            Sum(g.lines, QtyForKey(KeyOf(s.pos, g.po, i)))
            <= s.pos[g.po].lines[i].ordered - s.pos[g.po].lines[i].received)
  {
    ApproveGrnReceives(s, id, picks);
    var g, t := s.grns[id], Proc.ApproveGrn(s, id, picks).value;
    forall i | 0 <= i < |s.pos[g.po].lines|
      ensures t.pos[g.po].lines[i].received ==
              s.pos[g.po].lines[i].received + Sum(g.lines, QtyForKey(KeyOf(s.pos, g.po, i)))
      ensures t.pos[g.po].lines[i].ordered == s.pos[g.po].lines[i].ordered
    {
    }
  }

  /** A fitting note without repeated lines has room for its total on every line of its order. */
  lemma FittingNoteHasRoom(pos: seq<PurchaseOrder>, g: Grn, i: nat)
    requires GrnOnOrder(pos, g) && DistinctLines(g) && Fitting(pos, g) && NoOverReceipt(pos, g.po)
    requires i < |pos[g.po].lines|
    ensures Sum(g.lines, QtyForKey(KeyOf(pos, g.po, i))) <= pos[g.po].lines[i].ordered - pos[g.po].lines[i].received
  {
    var key := KeyOf(pos, g.po, i);
    TotalOfDistinct(g.lines, key);
    if k :| 0 <= k < |g.lines| && g.lines[k].poLine == key && Sum(g.lines, QtyForKey(key)) == g.lines[k].qty {
      assert Proc.OnOrder(pos, g.lines[k].poLine);
    }
  }

  lemma OtherOpenNotesElsewhere(s: State, id: nat, h: nat)
    requires Serial(s) && id < |s.grns| && h < |s.grns| && h != id
    requires Open(s.grns[id]) && Open(s.grns[h])
    ensures s.grns[h].po != s.grns[id].po
  {
  }

  lemma SerialApprovalStaysWithin(s: State, id: nat, picks: seq<nat>)
    requires ReceivingInv(s) && WithinOrder(s) && Serial(s)
    requires Proc.ApproveGrn(s, id, picks).Ok?
    requires GrnsOnOrder(Proc.ApproveGrn(s, id, picks).value)
    ensures WithinOrder(Proc.ApproveGrn(s, id, picks).value)
  {
    ApproveGrnReceives(s, id, picks);
    ApprovalOverReceivesIff(s, id, picks);
    var g, t := s.grns[id], Proc.ApproveGrn(s, id, picks).value;
    assert GrnOnOrder(s.pos, g) && DistinctLines(g) && Fitting(s.pos, g) && NoOverReceipt(s.pos, g.po);
    forall i | 0 <= i < |s.pos[g.po].lines|
      ensures Sum(g.lines, QtyForKey(KeyOf(s.pos, g.po, i)))
              <= s.pos[g.po].lines[i].ordered - s.pos[g.po].lines[i].received
    {
      FittingNoteHasRoom(s.pos, g, i);
    }
    forall po | 0 <= po < |t.pos| ensures NoOverReceipt(t.pos, po) {
      assert NoOverReceipt(s.pos, po);
    }
    forall h | 0 <= h < |t.grns| && Open(t.grns[h]) ensures Fitting(t.pos, t.grns[h]) {
      assert h != id && t.grns[h] == s.grns[h] && Fitting(s.pos, s.grns[h]);
      OtherOpenNotesElsewhere(s, id, h);
    }
  }

  lemma PoStepStaysWithin(s: State, op: Op)
    requires ReceivingInv(s) && WithinOrder(s) && OnPo(op)
    requires GrnsOnOrder(Exec(s, op))
    ensures WithinOrder(Exec(s, op))
  {
    var t := Exec(s, op);
    PoStepRewrites(s, op);
    forall po | 0 <= po < |t.pos| ensures NoOverReceipt(t.pos, po) {
      assert po < |s.pos| ==> NoOverReceipt(s.pos, po);
    }
    forall g | 0 <= g < |t.grns| && Open(t.grns[g]) ensures Fitting(t.pos, t.grns[g]) {
      assert GrnOnOrder(s.pos, s.grns[g]) && Fitting(s.pos, s.grns[g]);
      assert t.pos[s.grns[g].po] == s.pos[s.grns[g].po];
    }
  }

  lemma PoStepRewrites(s: State, op: Op)
    requires StatusesTrue(s) && OnPo(op)
    ensures Exec(s, op).grns == s.grns && PoRewrite(s.pos, Exec(s, op).pos)
  {
    if Apply(s, op).Ok? && !op.CreatePo? && !op.DuplicatePo? {
      assert StatusTrue(s.pos[op.id]);
    }
  }

  lemma NoteStepStaysWithin(s: State, op: Op)
    requires ReceivingInv(s) && WithinOrder(s) && OnGrn(op) && !op.ApproveGrn?
    requires GrnsOnOrder(Exec(s, op))
    ensures WithinOrder(Exec(s, op))
  {
    var t := Exec(s, op);
    GrnStepsAreQuiet(s, op);
    if Apply(s, op).Ok? {
      if op.CreateGrn? {
        CheckedLines(s.pos, op.po, op.grnLines, true);
      } else if op.UpdateGrn? && op.newGrnLines.Some? {
        CheckedLines(s.pos, s.grns[op.id].po, op.newGrnLines.value, false);
      }
    }
    forall g | 0 <= g < |t.grns| && Open(t.grns[g]) ensures Fitting(t.pos, t.grns[g]) {
      if g < |s.grns| {
        assert GrnOnOrder(s.pos, s.grns[g]);
        if Open(s.grns[g]) {
          assert Fitting(s.pos, s.grns[g]);
        }
      }
    }
  }

  lemma SerialStepStaysWithin(s: State, op: Op)
    requires ReceivingInv(s) && WithinOrder(s) && Serial(s)
    requires GrnsOnOrder(Exec(s, op))
    ensures WithinOrder(Exec(s, op))
  {
    if OnPo(op) {
      PoStepStaysWithin(s, op);
    } else if op.ApproveGrn? {
      if Apply(s, op).Ok? {
        SerialApprovalStaysWithin(s, op.id, op.picks);
      }
    } else if OnGrn(op) {
      NoteStepStaysWithin(s, op);
    } else {
      assert Exec(s, op).pos == s.pos && Exec(s, op).grns == s.grns;
    }
  }

  lemma {:induction false} SerialRunStaysWithin(s: State, ops: seq<Op>)
    requires ReceivingInv(s) && WithinOrder(s) && Throughout(s, ops, Serial)
    ensures ReceivingInv(After(s, ops)) && WithinOrder(After(s, ops))
    decreases |ops|
  {
    if ops != [] {
      ThroughoutTail(s, ops, Serial);
      StepKeepsReceiving(s, ops[0]);
      SerialStepStaysWithin(s, ops[0]);
      SerialRunStaysWithin(Exec(s, ops[0]), ops[1..]);
    }
  }

  /** Under the discipline no reachable order line is ever received beyond its ordered quantity. */
  lemma NoOverReceiptInSerialRuns(ops: seq<Op>, po: nat, i: nat)
    requires Throughout(EMPTY, ops, Serial)
    requires po < |Run(ops).pos| && i < |Run(ops).pos[po].lines|
    ensures Run(ops).pos[po].lines[i].received <= Run(ops).pos[po].lines[i].ordered
  {
    SerialRunStaysWithin(EMPTY, ops);
    assert NoOverReceipt(Run(ops).pos, po);
  }
}
