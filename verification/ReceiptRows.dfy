/** The procurement ledger, note by note: every approved note is booked once, line by line. */
module ReceiptRows {
  import opened Sums
  import opened Tables
  import opened System
  import opened TwoLedgers
  import opened Lifecycle
  import Proc = Procurement

  function BookedOn(grn: nat): Receipt -> bool {
    (r: Receipt) => r.grn == grn
  }

  /** The rows that carry a note's id, in the order they were written. */
  function ReceiptsOf(rs: seq<Receipt>, grn: nat): seq<Receipt> {
    Filter(rs, BookedOn(grn))
  }

  predicate Records(r: Receipt, x: GrnLine) {
    r.product == x.product && r.change == x.qty && r.unitCost == x.cost && r.after == r.before + r.change
  }

  /** One row per line, in line order. */
  ghost predicate AllRecorded(rs: seq<Receipt>, lines: seq<GrnLine>) {
    |rs| == |lines| && forall k | 0 <= k < |lines| :: Records(rs[k], lines[k])
  }

  function Owed(s: State, grn: nat): seq<GrnLine> {
    if grn < |s.grns| && s.grns[grn].status.Approved? then s.grns[grn].lines else []
  }

  ghost predicate Recorded(s: State) {
    forall grn: nat :: AllRecorded(ReceiptsOf(s.receipts, grn), Owed(s, grn))
  }

  lemma PostLineRecords(d: Proc.Desk, x: GrnLine, pick: nat, grn: nat, at: nat) returns (row: Receipt)
    requires Proc.PostLine(d, x, pick, grn, at).Ok?
    ensures Proc.PostLine(d, x, pick, grn, at).value.receipts == d.receipts + [row]
    ensures Records(row, x) && row.grn == grn
  {
    row := Proc.ReceiptFor(d.receipts, x, pick, grn, at);
  }

  /** The rows carry the note's id and record its lines. */
  ghost predicate BooksNote(added: seq<Receipt>, lines: seq<GrnLine>, grn: nat) {
    AllRecorded(added, lines) && forall i | 0 <= i < |added| :: added[i].grn == grn
  }

  lemma BooksOneMore(row: Receipt, rest: seq<Receipt>, lines: seq<GrnLine>, grn: nat)
    requires lines != [] && Records(row, lines[0]) && row.grn == grn && BooksNote(rest, lines[1..], grn)
    ensures BooksNote([row] + rest, lines, grn)
  {
    forall k | 0 <= k < |lines| ensures Records(([row] + rest)[k], lines[k]) {
      assert k > 0 ==> Records(rest[k - 1], lines[1..][k - 1]);
    }
  }

  lemma AppendOneMore(rs: seq<Receipt>, row: Receipt, rest: seq<Receipt>)
    ensures rs + [row] + rest == rs + ([row] + rest)
  {
  }

  lemma {:induction false} PostLinesRecords(
    d: Proc.Desk, lines: seq<GrnLine>, picks: seq<nat>, grn: nat, at: nat) returns (added: seq<Receipt>)
    requires Proc.PostLines(d, lines, picks, grn, at).Ok?
    ensures Proc.PostLines(d, lines, picks, grn, at).value.receipts == d.receipts + added
    ensures BooksNote(added, lines, grn)
    decreases |lines|
  {
    if lines == [] {
      added := [];
    } else {
      var row := PostLineRecords(d, lines[0], Proc.Head(picks), grn, at);
      var next := Proc.PostLine(d, lines[0], Proc.Head(picks), grn, at).value;
      var rest := PostLinesRecords(next, lines[1..], Proc.Tail(picks), grn, at);
      added := [row] + rest;
      BooksOneMore(row, rest, lines, grn);
      AppendOneMore(d.receipts, row, rest);
    }
  }

  lemma ApprovalRecords(s: State, id: nat, picks: seq<nat>)
    requires Recorded(s) && Proc.ApproveGrn(s, id, picks).Ok?
    ensures Recorded(Proc.ApproveGrn(s, id, picks).value)
  {
    var t := Proc.ApproveGrn(s, id, picks).value;
    var added := PostLinesRecords(Proc.Desk(s.books, s.receipts, s.pos), s.grns[id].lines, picks, id, s.clock);
    forall grn: nat ensures AllRecorded(ReceiptsOf(t.receipts, grn), Owed(t, grn)) {
      assert AllRecorded(ReceiptsOf(s.receipts, grn), Owed(s, grn));
      FilterConcat(s.receipts, added, BookedOn(grn));
      if grn == id {
        FilterAll(added, BookedOn(grn));
        assert [] + added == added;
      } else {
        FilterNone(added, BookedOn(grn));
        assert ReceiptsOf(s.receipts, grn) + [] == ReceiptsOf(s.receipts, grn);
      }
    }
  }

  lemma StepRecords(s: State, op: Op)
    requires Recorded(s)
    ensures Recorded(Exec(s, op))
  {
    var t := Exec(s, op);
    if op.ApproveGrn? {
      if Apply(s, op).Ok? {
        ApprovalRecords(s, op.id, op.picks);
      }
    } else {
      OtherStepsKeepReceipts(s, op);
      forall grn: nat ensures AllRecorded(ReceiptsOf(t.receipts, grn), Owed(t, grn)) {
        assert AllRecorded(ReceiptsOf(s.receipts, grn), Owed(s, grn));
      }
    }
  }

  lemma {:induction false} RecordedAfter(s: State, ops: seq<Op>)
    requires Recorded(s)
    ensures Recorded(After(s, ops))
    decreases |ops|
  {
    if ops != [] {
      StepRecords(s, ops[0]);
      RecordedAfter(Exec(s, ops[0]), ops[1..]);
    }
  }

  /**
   * In every run the procurement ledger has rows of a note exactly when the note is approved, and then one
   * per line, in line order, with the line's product, quantity and cost.
   */
  lemma ReceiptsExactlyOnce(ops: seq<Op>, grn: nat)
    ensures
      var s := Run(ops);
      var rows := ReceiptsOf(s.receipts, grn);
      && (rows != [] <==> grn < |s.grns| && s.grns[grn].status.Approved?)
      && (rows != [] ==>
            && |rows| == |s.grns[grn].lines|
            && forall k | 0 <= k < |rows| ::
                 var r, x := rows[k], s.grns[grn].lines[k];
                 && r.product == x.product && r.change == x.qty && r.unitCost == x.cost
                 && r.after == r.before + r.change)
  {
    assert Recorded(EMPTY);
    RecordedAfter(EMPTY, ops);
    EveryRunIsHealthy(ops);
    var s := Run(ops);
    assert AllRecorded(ReceiptsOf(s.receipts, grn), Owed(s, grn));
    if grn < |s.grns| {
      assert GrnOk(s.grns[grn]);
    }
  }
}
