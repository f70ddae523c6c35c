/**
 * The procurement ledger reads its own newest row to continue its chain, and rows of one
 * transaction tie. This file shows when that reading is right.
 */
module TwoLedgers {
  import opened Sums
  import opened Tables
  import opened System
  import opened Effects
  import Proc = Procurement

  function ReceiptChange(p: nat): Receipt -> int {
    (r: Receipt) => if r.product == p then r.change else 0
  }

  function LineQty(p: nat): GrnLine -> int {
    (x: GrnLine) => if x.product == p then x.qty else 0
  }

  function ApprovedQty(p: nat): Grn -> int {
    (g: Grn) => if g.status.Approved? then Sum(g.lines, LineQty(p)) else 0
  }

  /** After its first line for the product the note lists it with quantity zero only. */
  ghost predicate LaterZero(lines: seq<GrnLine>, p: nat) {
    forall i, j | 0 <= i < j < |lines| && lines[i].product == p && lines[j].product == p :: lines[j].qty == 0
  }

  /** No approved note lists the product again with a positive quantity. */
  ghost predicate NeverMisleads(grns: seq<Grn>, p: nat) {
    forall g | 0 <= g < |grns| && grns[g].status.Approved? :: LaterZero(grns[g].lines, p)
  }

  ghost predicate TimesInOrder(rs: seq<Receipt>, p: nat) {
    forall i, j | 0 <= i < j < |rs| && rs[i].product == p && rs[j].product == p ::
      rs[i].at < rs[j].at || (rs[i].at == rs[j].at && rs[i].after == rs[j].after)
  }

  /** The rows of a product are in the order of their times, ties agree, and each row's after is the total so far. */
  ghost predicate InOrder(rs: seq<Receipt>, p: nat) {
    && TimesInOrder(rs, p)
    && (forall i | 0 <= i < |rs| && rs[i].product == p :: rs[i].after == Sum(rs[..i + 1], ReceiptChange(p)))
  }

  lemma InOrderPrefix(rs: seq<Receipt>, p: nat, n: nat)
    requires InOrder(rs, p) && n <= |rs|
    ensures InOrder(rs[..n], p)
  {
    forall i | 0 <= i < n && rs[..n][i].product == p
      ensures rs[..n][i].after == Sum(rs[..n][..i + 1], ReceiptChange(p))
    {
      assert rs[..n][..i + 1] == rs[..i + 1];
    }
  }

  lemma TimesAppend(rs: seq<Receipt>, p: nat, r: Receipt)
    requires TimesInOrder(rs, p)
    requires r.product == p ==>
               forall i | 0 <= i < |rs| && rs[i].product == p ::
                 rs[i].at < r.at || (rs[i].at == r.at && rs[i].after == r.after)
    ensures TimesInOrder(rs + [r], p)
  {
  }

  lemma InOrderAppend(rs: seq<Receipt>, p: nat, r: Receipt)
    requires InOrder(rs, p)
    requires r.product == p ==>
               && r.after == Sum(rs, ReceiptChange(p)) + r.change
               && forall i | 0 <= i < |rs| && rs[i].product == p ::
                    rs[i].at < r.at || (rs[i].at == r.at && rs[i].after == r.after)
    ensures InOrder(rs + [r], p)
  {
    var longer := rs + [r];
    TimesAppend(rs, p, r);
    SumAppend(rs, r, ReceiptChange(p));
    forall i | 0 <= i < |longer| && longer[i].product == p
      ensures longer[i].after == Sum(longer[..i + 1], ReceiptChange(p))
    {
      if i < |rs| {
        assert longer[..i + 1] == rs[..i + 1];
      } else {
        assert longer[..i + 1] == longer;
      }
    }
  }

  lemma {:induction false} LastInsertedIsTotal(rs: seq<Receipt>, p: nat)
    requires InOrder(rs, p)
    ensures Proc.LastInserted(rs, p) == Sum(rs, ReceiptChange(p))
    decreases |rs|
  {
    if rs != [] {
      var n := |rs| - 1;
      assert rs == rs[..n] + [rs[n]];
      assert rs[..n + 1] == rs;
      SumAppend(rs[..n], rs[n], ReceiptChange(p));
      if rs[n].product != p {
        InOrderPrefix(rs, p, n);
        LastInsertedIsTotal(rs[..n], p);
      }
    }
  }

  /** A newest row carries what the row inserted last carries. */
  lemma {:induction false} NewestIsLastInserted(rs: seq<Receipt>, p: nat, pick: nat)
    requires InOrder(rs, p) && Proc.Newest(rs, p, pick)
    ensures rs[pick].after == Proc.LastInserted(rs, p)
    decreases |rs|
  {
    var n := |rs| - 1;
    if rs[n].product != p {
      InOrderPrefix(rs, p, n);
      forall j | 0 <= j < n && rs[..n][j].product == p ensures rs[..n][j].at <= rs[..n][pick].at {
        assert rs[..n][j] == rs[j];
      }
      NewestIsLastInserted(rs[..n], p, pick);
    }
  }

  /** On rows in order get_current_stock is the total received, whichever row the database picks. */
  lemma CurrentStockIsTotal(rs: seq<Receipt>, p: nat, pick: nat)
    requires InOrder(rs, p)
    ensures Proc.CurrentStock(rs, p, pick) == Sum(rs, ReceiptChange(p))
  {
    LastInsertedIsTotal(rs, p);
    if Proc.Newest(rs, p, pick) {
      NewestIsLastInserted(rs, p, pick);
    }
  }

  /** The batch meaning of the approval loop on the procurement ledger. */
  lemma {:induction false} PostLinesReceipts(
    d: Proc.Desk, lines: seq<GrnLine>, picks: seq<nat>, grn: nat, at: nat, p: nat)
    requires Proc.PostLines(d, lines, picks, grn, at).Ok?
    ensures
      var rs := Proc.PostLines(d, lines, picks, grn, at).value.receipts;
      && |rs| == |d.receipts| + |lines| && rs[..|d.receipts|] == d.receipts
      && (forall i | |d.receipts| <= i < |rs| :: rs[i].at == at && rs[i].after == rs[i].before + rs[i].change)
      && Sum(rs, ReceiptChange(p)) == Sum(d.receipts, ReceiptChange(p)) + Sum(lines, LineQty(p))
    decreases |lines|
  {
    if lines != [] {
      var next := Proc.PostLine(d, lines[0], Proc.Head(picks), grn, at).value;
      var row := Proc.ReceiptFor(d.receipts, lines[0], Proc.Head(picks), grn, at);
      SumAppend(d.receipts, row, ReceiptChange(p));
      PostLinesReceipts(next, lines[1..], Proc.Tail(picks), grn, at, p);
      var rs := Proc.PostLines(d, lines, picks, grn, at).value.receipts;
      assert rs[..|d.receipts|] == rs[..|d.receipts| + 1][..|d.receipts|];
      assert rs[|d.receipts|] == rs[..|d.receipts| + 1][|d.receipts|] == row;
    }
  }

  /** Rows older than at, or rows up to at that only quantities of zero will follow. */
  ghost predicate Ready(rs: seq<Receipt>, lines: seq<GrnLine>, p: nat, at: nat) {
    && (forall i | 0 <= i < |rs| && rs[i].product == p :: rs[i].at <= at)
    && ((forall i | 0 <= i < |rs| && rs[i].product == p :: rs[i].at < at) ||
        (forall i | 0 <= i < |lines| && lines[i].product == p :: lines[i].qty == 0))
  }

  lemma RowKeepsOrder(rs: seq<Receipt>, lines: seq<GrnLine>, pick: nat, grn: nat, at: nat, p: nat)
    requires lines != [] && InOrder(rs, p) && Ready(rs, lines, p, at) && LaterZero(lines, p)
    ensures
      var next := rs + [Proc.ReceiptFor(rs, lines[0], pick, grn, at)];
      InOrder(next, p) && Ready(next, lines[1..], p, at)
  {
    var row := Proc.ReceiptFor(rs, lines[0], pick, grn, at);
    if lines[0].product == p {
      CurrentStockIsTotal(rs, p, pick);
      forall i | 0 <= i < |rs| && rs[i].product == p && rs[i].at == at ensures rs[i].after == row.after {
        assert Proc.Newest(rs, p, i);
        CurrentStockIsTotal(rs, p, i);
      }
    }
    InOrderAppend(rs, p, row);
  }

  lemma {:induction false} PostLinesInOrder(
    d: Proc.Desk, lines: seq<GrnLine>, picks: seq<nat>, grn: nat, at: nat, p: nat)
    requires Proc.PostLines(d, lines, picks, grn, at).Ok?
    requires InOrder(d.receipts, p) && Ready(d.receipts, lines, p, at) && LaterZero(lines, p)
    ensures InOrder(Proc.PostLines(d, lines, picks, grn, at).value.receipts, p)
    decreases |lines|
  {
    if lines != [] {
      RowKeepsOrder(d.receipts, lines, Proc.Head(picks), grn, at, p);
      var next, rest := Proc.PostLine(d, lines[0], Proc.Head(picks), grn, at).value, lines[1..];
      forall i, j | 0 <= i < j < |rest| && rest[i].product == p && rest[j].product == p ensures rest[j].qty == 0 {
        assert rest[i] == lines[i + 1] && rest[j] == lines[j + 1];
      }
      PostLinesInOrder(next, rest, Proc.Tail(picks), grn, at, p);
    }
  }

  /** The first row a note adds for a product continues the total; it does not know the later lines. */
  lemma {:induction false} FirstRowOfProduct(
    d: Proc.Desk, lines: seq<GrnLine>, picks: seq<nat>, grn: nat, at: nat, p: nat, k: nat)
    requires Proc.PostLines(d, lines, picks, grn, at).Ok? && InOrder(d.receipts, p)
    requires k < |lines| && lines[k].product == p
    requires forall j | 0 <= j < k :: lines[j].product != p
    ensures
      var rs := Proc.PostLines(d, lines, picks, grn, at).value.receipts;
      && |rs| == |d.receipts| + |lines|
      && rs[|d.receipts| + k].product == p
      && rs[|d.receipts| + k].after == Sum(d.receipts, ReceiptChange(p)) + lines[k].qty
    decreases |lines|
  {
    var x := lines[0];
    var next := Proc.PostLine(d, x, Proc.Head(picks), grn, at).value;
    var row := Proc.ReceiptFor(d.receipts, x, Proc.Head(picks), grn, at);
    PostLinesReceipts(next, lines[1..], Proc.Tail(picks), grn, at, p);
    var rs := Proc.PostLines(d, lines, picks, grn, at).value.receipts;
    if k == 0 {
      CurrentStockIsTotal(d.receipts, p, Proc.Head(picks));
      assert rs[|d.receipts|] == rs[..|next.receipts|][|d.receipts|] == row;
    } else {
      InOrderAppend(d.receipts, p, row);
      SumAppend(d.receipts, row, ReceiptChange(p));
      forall j | 0 <= j < k - 1 ensures lines[1..][j].product != p {
        assert lines[1..][j] == lines[j + 1];
      }
      FirstRowOfProduct(next, lines[1..], Proc.Tail(picks), grn, at, p, k - 1);
    }
  }

  /** A later line with a positive quantity lets the tie be broken so that less is reported than was received. */
  lemma RepeatedProductMisreads(
    d: Proc.Desk, lines: seq<GrnLine>, picks: seq<nat>, grn: nat, at: nat, p: nat, k: nat, m: nat)
    requires Proc.PostLines(d, lines, picks, grn, at).Ok? && InOrder(d.receipts, p)
    requires forall i | 0 <= i < |d.receipts| && d.receipts[i].product == p :: d.receipts[i].at < at
    requires k < m < |lines| && lines[k].product == p == lines[m].product && lines[m].qty > 0
    requires forall j | 0 <= j < k :: lines[j].product != p
    ensures
      var rs := Proc.PostLines(d, lines, picks, grn, at).value.receipts;
      && Proc.Newest(rs, p, |d.receipts| + k)
      && Proc.CurrentStock(rs, p, |d.receipts| + k) < Sum(rs, ReceiptChange(p))
  {
    FirstRowOfProduct(d, lines, picks, grn, at, p, k);
    PostLinesReceipts(d, lines, picks, grn, at, p);
    var rs := Proc.PostLines(d, lines, picks, grn, at).value.receipts;
    forall j | 0 <= j < |rs| && rs[j].product == p ensures rs[j].at <= at {
      assert j < |d.receipts| ==> rs[j] == rs[..|d.receipts|][j];
    }
    SumSplit(lines, k, LineQty(p));
    SumNonNegative(lines[..k], LineQty(p));
    SumNonNegative(lines[k + 1..], LineQty(p));
    assert lines[k + 1..][m - k - 1] == lines[m];
  }

  lemma FirstLineOf(lines: seq<GrnLine>, p: nat, i: nat) returns (k: nat)
    requires i < |lines| && lines[i].product == p
    ensures k <= i && lines[k].product == p && forall j | 0 <= j < k :: lines[j].product != p
  {
    k := 0;
    while lines[k].product != p
      invariant k <= i && forall j | 0 <= j < k :: lines[j].product != p
      decreases i - k
    {
      k := k + 1;
    }
  }

  ghost predicate ReadsTotal(rs: seq<Receipt>, p: nat) {
    forall pick: nat :: Proc.CurrentStock(rs, p, pick) == Sum(rs, ReceiptChange(p))
  }

  lemma ZeroLaterReadsRight(d: Proc.Desk, lines: seq<GrnLine>, picks: seq<nat>, grn: nat, at: nat, p: nat)
    requires Proc.PostLines(d, lines, picks, grn, at).Ok? && InOrder(d.receipts, p) && LaterZero(lines, p)
    requires forall i | 0 <= i < |d.receipts| && d.receipts[i].product == p :: d.receipts[i].at < at
    ensures ReadsTotal(Proc.PostLines(d, lines, picks, grn, at).value.receipts, p)
  {
    var rs := Proc.PostLines(d, lines, picks, grn, at).value.receipts;
    PostLinesInOrder(d, lines, picks, grn, at, p);
    forall pick: nat ensures Proc.CurrentStock(rs, p, pick) == Sum(rs, ReceiptChange(p)) {
      CurrentStockIsTotal(rs, p, pick);
    }
  }

  /**
   * From rows in order, a note leaves get_current_stock right for every tie-break exactly when it lists
   * the product with quantity zero only, after its first line for it.
   */
  lemma NoteReadsRightIff(d: Proc.Desk, lines: seq<GrnLine>, picks: seq<nat>, grn: nat, at: nat, p: nat)
    requires Proc.PostLines(d, lines, picks, grn, at).Ok? && InOrder(d.receipts, p)
    requires forall i | 0 <= i < |d.receipts| && d.receipts[i].product == p :: d.receipts[i].at < at
    ensures ReadsTotal(Proc.PostLines(d, lines, picks, grn, at).value.receipts, p) <==> LaterZero(lines, p)
  {
    if LaterZero(lines, p) {
      ZeroLaterReadsRight(d, lines, picks, grn, at, p);
    } else {
      var i, j :| 0 <= i < j < |lines| && lines[i].product == p && lines[j].product == p && lines[j].qty != 0;
      var k := FirstLineOf(lines, p, i);
      RepeatedProductMisreads(d, lines, picks, grn, at, p, k, j);
    }
  }

  ghost predicate RowsOk(s: State) {
    forall i | 0 <= i < |s.receipts| ::
      s.receipts[i].at < s.clock && s.receipts[i].after == s.receipts[i].before + s.receipts[i].change
  }

  ghost predicate ReceiptsFor(s: State, p: nat) {
    && Sum(s.receipts, ReceiptChange(p)) == Sum(s.grns, ApprovedQty(p))
    && (NeverMisleads(s.grns, p) ==> InOrder(s.receipts, p))
  }

  ghost predicate ReceiptsInv(s: State) {
    RowsOk(s) && forall p: nat :: ReceiptsFor(s, p)
  }

  /** Steps that keep the approved notes as they are keep their sums and what they list. */
  ghost predicate SameApproved(grns: seq<Grn>, next: seq<Grn>) {
    && |grns| <= |next|
    && (forall g | 0 <= g < |grns| :: next[g] == grns[g] || !(next[g].status.Approved? || grns[g].status.Approved?))
    && (forall g | |grns| <= g < |next| :: !next[g].status.Approved?)
  }

  lemma SameApprovedSum(grns: seq<Grn>, next: seq<Grn>, p: nat)
    requires SameApproved(grns, next)
    ensures Sum(next, ApprovedQty(p)) == Sum(grns, ApprovedQty(p))
    ensures NeverMisleads(next, p) ==> NeverMisleads(grns, p)
  {
    var n := |grns|;
    assert next == next[..n] + next[n..];
    SumConcat(next[..n], next[n..], ApprovedQty(p));
    SumZero(next[n..], ApprovedQty(p));
    SumPointwise(next[..n], grns, ApprovedQty(p), ApprovedQty(p));
    if NeverMisleads(next, p) {
      forall g | 0 <= g < |grns| && grns[g].status.Approved? ensures LaterZero(grns[g].lines, p) {
        assert LaterZero(next[g].lines, p);
      }
    }
  }

  lemma QuietGrnStep(s: State, op: Op)
    requires OnGrn(op) && !op.ApproveGrn?
    ensures SameApproved(s.grns, Exec(s, op).grns)
  {
  }

  lemma OtherStepsKeepReceipts(s: State, op: Op)
    requires !op.ApproveGrn?
    ensures Exec(s, op).receipts == s.receipts && Exec(s, op).clock == s.clock
    ensures SameApproved(s.grns, Exec(s, op).grns)
  {
    if OnGrn(op) {
      GrnStepsAreQuiet(s, op);
      QuietGrnStep(s, op);
    } else if OnPo(op) {
      PoStepsAreQuiet(s, op);
    }
  }

  lemma ApprovalKeepsReceiptsFor(s: State, id: nat, picks: seq<nat>, p: nat)
    requires RowsOk(s) && ReceiptsFor(s, p) && Proc.ApproveGrn(s, id, picks).Ok?
    ensures ReceiptsFor(Proc.ApproveGrn(s, id, picks).value, p)
  {
    var g, t := s.grns[id], Proc.ApproveGrn(s, id, picks).value;
    var d := Proc.Desk(s.books, s.receipts, s.pos);
    PostLinesReceipts(d, g.lines, picks, id, s.clock, p);
    SumUpdate(s.grns, id, g.(status := Approved), ApprovedQty(p));
    if NeverMisleads(t.grns, p) {
      forall h | 0 <= h < |s.grns| && s.grns[h].status.Approved? ensures LaterZero(s.grns[h].lines, p) {
        assert t.grns[h] == s.grns[h];
      }
      assert LaterZero(t.grns[id].lines, p);
      PostLinesInOrder(d, g.lines, picks, id, s.clock, p);
    }
  }

  lemma ApprovalKeepsRows(s: State, id: nat, picks: seq<nat>)
    requires RowsOk(s) && Proc.ApproveGrn(s, id, picks).Ok?
    ensures RowsOk(Proc.ApproveGrn(s, id, picks).value)
    ensures s.receipts <= Proc.ApproveGrn(s, id, picks).value.receipts
  {
    var t := Proc.ApproveGrn(s, id, picks).value;
    PostLinesReceipts(Proc.Desk(s.books, s.receipts, s.pos), s.grns[id].lines, picks, id, s.clock, 0);
    forall i | 0 <= i < |t.receipts|
      ensures t.receipts[i].at < t.clock && t.receipts[i].after == t.receipts[i].before + t.receipts[i].change
    {
      if i < |s.receipts| {
        assert t.receipts[i] == t.receipts[..|s.receipts|][i] == s.receipts[i];
      }
    }
  }

  lemma StepKeepsReceipts(s: State, op: Op)
    requires ReceiptsInv(s)
    ensures ReceiptsInv(Exec(s, op))
  {
    var t := Exec(s, op);
    if op.ApproveGrn? {
      if Apply(s, op).Ok? {
        ApprovalKeepsRows(s, op.id, op.picks);
        forall p: nat ensures ReceiptsFor(t, p) {
          assert ReceiptsFor(s, p);
          ApprovalKeepsReceiptsFor(s, op.id, op.picks, p);
        }
      }
    } else {
      OtherStepsKeepReceipts(s, op);
      forall p: nat ensures ReceiptsFor(t, p) {
        assert ReceiptsFor(s, p);
        SameApprovedSum(s.grns, t.grns, p);
      }
    }
  }

  lemma {:induction false} ReceiptsInvAfter(s: State, ops: seq<Op>)
    requires ReceiptsInv(s)
    ensures ReceiptsInv(After(s, ops))
    decreases |ops|
  {
    if ops != [] {
      StepKeepsReceipts(s, ops[0]);
      ReceiptsInvAfter(Exec(s, ops[0]), ops[1..]);
    }
  }

  lemma EmptyReceipts()
    ensures ReceiptsInv(EMPTY)
  {
  }

  /**
   * In every run, for a product no approved note lists again with a positive quantity, get_current_stock
   * of the procurement ledger is the total of its approved receipts, whatever the database does with ties.
   */
  lemma ProcurementStockIsApprovedReceipts(ops: seq<Op>, p: nat, pick: nat)
    requires NeverMisleads(Run(ops).grns, p)
    ensures Proc.CurrentStock(Run(ops).receipts, p, pick) == Sum(Run(ops).grns, ApprovedQty(p))
  {
    EmptyReceipts();
    ReceiptsInvAfter(EMPTY, ops);
    assert ReceiptsFor(Run(ops), p);
    CurrentStockIsTotal(Run(ops).receipts, p, pick);
  }

  // ------------------------------------------------------------------
  // The hypothesis is exact
  // ------------------------------------------------------------------

  /** Whichever newest row the database returns, get_current_stock is the total of approved receipts. */
  ghost predicate ReadsRight(s: State, p: nat) {
    forall pick: nat :: Proc.CurrentStock(s.receipts, p, pick) == Sum(s.grns, ApprovedQty(p))
  }

  /** The first approval that breaks the reading is one whose note repeats the product. */
  lemma ApprovalReadsRightIff(s: State, id: nat, picks: seq<nat>, p: nat)
    requires RowsOk(s) && ReceiptsFor(s, p) && NeverMisleads(s.grns, p) && Proc.ApproveGrn(s, id, picks).Ok?
    ensures ReadsRight(Proc.ApproveGrn(s, id, picks).value, p) <==> LaterZero(s.grns[id].lines, p)
  {
    var t := Proc.ApproveGrn(s, id, picks).value;
    NoteReadsRightIff(Proc.Desk(s.books, s.receipts, s.pos), s.grns[id].lines, picks, id, s.clock, p);
    ApprovalKeepsReceiptsFor(s, id, picks, p);
    assert ReadsRight(t, p) <==> ReadsTotal(t.receipts, p);
  }

  lemma StepReadsRightIff(s: State, op: Op, p: nat)
    requires RowsOk(s) && ReceiptsFor(s, p) && NeverMisleads(s.grns, p)
    ensures ReadsRight(s, p)
    ensures ReadsRight(Exec(s, op), p) <==> NeverMisleads(Exec(s, op).grns, p)
  {
    forall pick: nat ensures Proc.CurrentStock(s.receipts, p, pick) == Sum(s.grns, ApprovedQty(p)) {
      CurrentStockIsTotal(s.receipts, p, pick);
    }
    var t := Exec(s, op);
    if op.ApproveGrn? && Apply(s, op).Ok? {
      ApprovalReadsRightIff(s, op.id, op.picks, p);
      ApprovalMisleadsIff(s, op.id, op.picks, p);
    } else if !op.ApproveGrn? {
      OtherStepsKeepReceipts(s, op);
      SameApprovedSum(s.grns, t.grns, p);
      SameApprovedMisleads(s.grns, t.grns, p);
    }
  }

  lemma ApprovalMisleadsIff(s: State, id: nat, picks: seq<nat>, p: nat)
    requires NeverMisleads(s.grns, p) && Proc.ApproveGrn(s, id, picks).Ok?
    ensures NeverMisleads(Proc.ApproveGrn(s, id, picks).value.grns, p) <==> LaterZero(s.grns[id].lines, p)
  {
    var t := Proc.ApproveGrn(s, id, picks).value;
    assert t.grns[id].status.Approved? && t.grns[id].lines == s.grns[id].lines;
    forall g | 0 <= g < |t.grns| && g != id && t.grns[g].status.Approved? ensures LaterZero(t.grns[g].lines, p) {
      assert t.grns[g] == s.grns[g];
    }
  }

  lemma SameApprovedMisleads(grns: seq<Grn>, next: seq<Grn>, p: nat)
    requires SameApproved(grns, next) && NeverMisleads(grns, p)
    ensures NeverMisleads(next, p)
  {
  }

  /** A note that misleads stays approved. */
  lemma {:induction false} MisleadingStays(s: State, ops: seq<Op>, p: nat)
    requires NeverMisleads(After(s, ops).grns, p)
    ensures NeverMisleads(s.grns, p)
    decreases |ops|
  {
    if ops != [] {
      var op, t := ops[0], Exec(s, ops[0]);
      MisleadingStays(t, ops[1..], p);
      if op.ApproveGrn? {
        forall g | 0 <= g < |s.grns| && s.grns[g].status.Approved? ensures LaterZero(s.grns[g].lines, p) {
          assert t.grns[g] == s.grns[g];
        }
      } else {
        OtherStepsKeepReceipts(s, op);
        SameApprovedSum(s.grns, t.grns, p);
      }
    }
  }

  ghost function RightFor(p: nat): State -> bool {
    (s: State) => ReadsRight(s, p)
  }

  lemma {:induction false} ReadsRightFromIff(s: State, ops: seq<Op>, p: nat)
    requires ReceiptsInv(s) && NeverMisleads(s.grns, p)
    ensures Throughout(s, ops, RightFor(p)) <==> NeverMisleads(After(s, ops).grns, p)
    decreases |ops|
  {
    assert ReceiptsFor(s, p);
    if ops == [] {
      StepReadsRightIff(s, SubmitGrn(|s.grns|), p);
      assert ops[..0] == [];
    } else {
      var next := Exec(s, ops[0]);
      StepKeepsReceipts(s, ops[0]);
      StepReadsRightIff(s, ops[0], p);
      ThroughoutTail(s, ops, RightFor(p));
      if NeverMisleads(next.grns, p) {
        ReadsRightFromIff(next, ops[1..], p);
      } else {
        if NeverMisleads(After(s, ops).grns, p) {
          MisleadingStays(next, ops[1..], p);
        }
        assert After(next, ops[1..][..0]) == next;
      }
    }
  }

  /**
   * get_current_stock is right at every moment of a run, for every tie-break, exactly when no approved
   * note lists the product again with a positive quantity.
   */
  lemma ReadsRightIff(ops: seq<Op>, p: nat)
    ensures (forall n | 0 <= n <= |ops| :: ReadsRight(Run(ops[..n]), p)) <==> NeverMisleads(Run(ops).grns, p)
  {
    EmptyReceipts();
    ReadsRightFromIff(EMPTY, ops, p);
    assert Throughout(EMPTY, ops, RightFor(p)) <==> forall n | 0 <= n <= |ops| :: ReadsRight(Run(ops[..n]), p);
  }
}
