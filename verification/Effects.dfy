/** Documents and the inventory ledger: the invariants of every step, and exactly-once effect. */
module Effects {
  import opened Results
  import opened Stock
  import opened Postings
  import opened Tables
  import opened System
  import Adj = Adjustments
  import Rel = Releases
  import Proc = Procurement

  /** Every document's ledger entries are exactly what it owes: one per line, once approved. */
  ghost predicate Posted(s: State) {
    forall ref: Ref :: AllFit(EntriesOf(s.books.ledger, ref), Due(s, ref))
  }

  ghost predicate SameDues(s: State, t: State) {
    forall ref: Ref :: Due(s, ref) == Due(t, ref)
  }

  /** A step that touches no stock, no ledger and no approved document. */
  ghost predicate Quiet(s: State, t: State) {
    t.books == s.books && t.receipts == s.receipts && t.clock == s.clock && SameDues(s, t)
  }

  predicate Approval(op: Op) {
    op.ApproveGrn? || op.ApproveAdjustment? || op.ApproveRelease?
  }

  lemma PoStepsAreQuiet(s: State, op: Op)
    requires OnPo(op)
    ensures Quiet(s, Exec(s, op))
    ensures Exec(s, op).grns == s.grns
  {
  }

  lemma GrnStepsAreQuiet(s: State, op: Op)
    requires OnGrn(op) && !Approval(op)
    ensures Quiet(s, Exec(s, op))
    ensures Exec(s, op).pos == s.pos
  {
  }

  lemma AdjustmentStepsAreQuiet(s: State, op: Op)
    requires OnAdjustment(op) && !Approval(op)
    ensures Quiet(s, Exec(s, op))
  {
  }

  lemma ReleaseStepsAreQuiet(s: State, op: Op)
    requires OnRelease(op) && !Approval(op)
    ensures Quiet(s, Exec(s, op))
  {
  }

  lemma OtherStepsAreQuiet(s: State, op: Op)
    requires !Approval(op)
    ensures Quiet(s, Exec(s, op))
  {
    if OnPo(op) {
      PoStepsAreQuiet(s, op);
    } else if OnGrn(op) {
      GrnStepsAreQuiet(s, op);
    } else if OnAdjustment(op) {
      AdjustmentStepsAreQuiet(s, op);
    } else if OnRelease(op) {
      ReleaseStepsAreQuiet(s, op);
    }
  }

  /** The books part of the interleaved approval loop is the batch of the note's postings. */
  lemma {:induction false} PostLinesBooks(
    d: Proc.Desk, lines: seq<GrnLine>, picks: seq<nat>, grn: nat, at: nat)
    requires Proc.PostLines(d, lines, picks, grn, at).Ok?
    ensures PostAll(d.books, GrnPostings(lines), Ref(GrnRef, grn)) ==
            Ok(Proc.PostLines(d, lines, picks, grn, at).value.books)
    decreases |lines|
  {
    if lines != [] {
      var next := Proc.PostLine(d, lines[0], Proc.Head(picks), grn, at).value;
      PostLinesBooks(next, lines[1..], Proc.Tail(picks), grn, at);
      assert GrnPostings(lines)[1..] == GrnPostings(lines[1..]);
    }
  }

  function SubjectOf(op: Op): Ref
    requires Approval(op)
  {
    match op
    case ApproveGrn(id, _) => Ref(GrnRef, id)
    case ApproveAdjustment(id) => Ref(AdjustmentRef, id)
    case ApproveRelease(id) => Ref(ReleaseRef, id)
  }

  /** From s to t the document ref starts to owe its lines, has posted them, and nothing else changes. */
  ghost predicate Posts(s: State, t: State, ref: Ref) {
    && Due(s, ref) == []
    && PostAll(s.books, Due(t, ref), ref) == Ok(t.books)
    && forall other: Ref | other != ref :: Due(t, other) == Due(s, other)
  }

  lemma GrnApprovalPosts(s: State, id: nat, picks: seq<nat>)
    requires Proc.ApproveGrn(s, id, picks).Ok?
    ensures Posts(s, Proc.ApproveGrn(s, id, picks).value, Ref(GrnRef, id))
  {
    PostLinesBooks(Proc.Desk(s.books, s.receipts, s.pos), s.grns[id].lines, picks, id, s.clock);
  }

  lemma AdjustmentApprovalPosts(s: State, id: nat)
    requires Adj.Approve(s, id).Ok?
    ensures Posts(s, Adj.Approve(s, id).value, Ref(AdjustmentRef, id))
  {
  }

  lemma ReleaseApprovalPosts(s: State, id: nat)
    requires Rel.Approve(s, id).Ok?
    ensures Posts(s, Rel.Approve(s, id).value, Ref(ReleaseRef, id))
  {
    var t := Rel.Approve(s, id).value;
    Rel.PostingsOfCosted(s.books.stock, s.releases[id].lines);
    assert Due(t, Ref(ReleaseRef, id)) == ReleasePostings(s.releases[id].lines);
  }

  /** An accepted approval posts exactly the lines that become due, and makes nothing else due. */
  lemma ApprovalPosts(s: State, op: Op)
    requires Approval(op) && Apply(s, op).Ok?
    ensures Posts(s, Apply(s, op).value, SubjectOf(op))
  {
    match op
    case ApproveGrn(id, picks) => GrnApprovalPosts(s, id, picks);
    case ApproveAdjustment(id) => AdjustmentApprovalPosts(s, id);
    case ApproveRelease(id) => ReleaseApprovalPosts(s, id);
  }

  lemma PostingFits(b: Books, ps: seq<Posting>, ref: Ref, other: Ref, due: seq<Posting>)
    requires PostAll(b, ps, ref).Ok?
    requires AllFit(EntriesOf(b.ledger, other), due)
    requires other == ref ==> due == []
    ensures AllFit(EntriesOf(PostAll(b, ps, ref).value.ledger, other), if other == ref then ps else due)
  {
    PostAllAppends(b, ps, ref);
    PostAllEntriesOf(b, ps, ref, other);
    var added := PostAll(b, ps, ref).value.ledger[|b.ledger|..];
    assert [] + added == added;
    assert EntriesOf(b.ledger, other) + [] == EntriesOf(b.ledger, other);
  }

  lemma PostsKeepsPosted(s: State, t: State, ref: Ref)
    requires Posts(s, t, ref) && Posted(s)
    ensures Posted(t)
  {
    forall other: Ref ensures AllFit(EntriesOf(t.books.ledger, other), Due(t, other)) {
      assert AllFit(EntriesOf(s.books.ledger, other), Due(s, other));
      PostingFits(s.books, Due(t, ref), ref, other, Due(s, other));
    }
  }

  lemma ApprovalKeepsPosted(s: State, op: Op)
    requires Approval(op) && Apply(s, op).Ok?
    requires Sound(s.books) && Posted(s)
    ensures Sound(Apply(s, op).value.books) && Posted(Apply(s, op).value)
  {
    var t, ref := Apply(s, op).value, SubjectOf(op);
    ApprovalPosts(s, op);
    PostAllKeepsSound(s.books, Due(t, ref), ref);
    PostsKeepsPosted(s, t, ref);
  }

  ghost predicate BooksAgree(s: State) {
    Sound(s.books) && Posted(s)
  }

  lemma StepKeepsBooks(s: State, op: Op)
    requires BooksAgree(s)
    ensures BooksAgree(Exec(s, op))
  {
    if Approval(op) {
      if Apply(s, op).Ok? {
        ApprovalKeepsPosted(s, op);
      }
    } else {
      OtherStepsAreQuiet(s, op);
      var t := Exec(s, op);
      forall ref: Ref ensures AllFit(EntriesOf(t.books.ledger, ref), Due(t, ref)) {
        assert AllFit(EntriesOf(s.books.ledger, ref), Due(s, ref));
        assert Due(s, ref) == Due(t, ref);
      }
    }
  }

  lemma {:induction false} BooksAgreeAfter(s: State, ops: seq<Op>)
    requires BooksAgree(s)
    ensures BooksAgree(After(s, ops))
    decreases |ops|
  {
    if ops != [] {
      StepKeepsBooks(s, ops[0]);
      BooksAgreeAfter(Exec(s, ops[0]), ops[1..]);
    }
  }

  lemma BooksAgreeInEveryRun(ops: seq<Op>)
    ensures BooksAgree(Run(ops))
  {
    BooksAgreeAfter(EMPTY, ops);
  }
}
