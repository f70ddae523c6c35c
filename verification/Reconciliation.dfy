/** On-hand stock as a balance of documents, and the cached totals of approved releases. */
module Reconciliation {
  import opened Rounding
  import opened Stock
  import opened Postings
  import opened Sums
  import opened Tables
  import opened System
  import opened Effects
  import opened TwoLedgers
  import Rel = Releases
  import Proc = Procurement

  // ------------------------------------------------------------------
  // Ledger totals are document totals
  // ------------------------------------------------------------------

  lemma {:induction false} FilterKeeps<T(!new)>(xs: seq<T>, keep: T -> bool, x: T)
    requires x in xs && keep(x)
    ensures x in Filter(xs, keep)
  {
    if xs[0] != x {
      FilterKeeps(xs[1..], keep, x);
    }
  }

  /** Every ledger entry references a document that exists. */
  lemma EntriesHaveDocuments(s: State, e: Entry)
    requires Posted(s) && e in s.books.ledger
    ensures Due(s, e.ref) != []
  {
    FilterKeeps(s.books.ledger, RefersTo(e.ref), e);
    assert AllFit(EntriesOf(s.books.ledger, e.ref), Due(s, e.ref));
  }

  function TableSize(s: State, kind: RefKind): nat {
    match kind
    case GrnRef => |s.grns|
    case AdjustmentRef => |s.adjustments|
    case ReleaseRef => |s.releases|
  }

  lemma KindTotal(s: State, kind: RefKind, f: Entry -> int)
    requires Posted(s)
    ensures Sum(s.books.ledger, OfKind(kind, f)) == ByDocument(s.books.ledger, kind, f, TableSize(s, kind))
  {
    forall e | e in s.books.ledger && e.ref.kind == kind ensures e.ref.id < TableSize(s, kind) {
      EntriesHaveDocuments(s, e);
    }
    SumByDocument(s.books.ledger, kind, f, TableSize(s, kind));
  }

  lemma {:induction false} GrnTotal(s: State, p: nat, n: nat)
    requires Posted(s) && n <= |s.grns|
    ensures ByDocument(s.books.ledger, GrnRef, ChangeFor(p), n) == Sum(s.grns[..n], ApprovedQty(p))
  {
    if n > 0 {
      GrnTotal(s, p, n - 1);
      var g, ref := s.grns[n - 1], Ref(GrnRef, n - 1);
      assert s.grns[..n] == s.grns[..n - 1] + [g];
      SumAppend(s.grns[..n - 1], g, ApprovedQty(p));
      assert AllFit(EntriesOf(s.books.ledger, ref), Due(s, ref));
      NetOfFitting(EntriesOf(s.books.ledger, ref), Due(s, ref), p);
      if g.status.Approved? {
        SumPointwise(GrnPostings(g.lines), g.lines, QtyFor(p), LineQty(p));
      }
    }
  }

  function ReleaseQty(p: nat): ReleaseLine -> int {
    (x: ReleaseLine) => if x.product == p then x.qty else 0
  }

  function ReleasedQty(p: nat): StockRelease -> int {
    (r: StockRelease) => if r.status.Approved? then Sum(r.lines, ReleaseQty(p)) else 0
  }

  lemma {:induction false} ReleaseTotal(s: State, p: nat, n: nat)
    requires Posted(s) && n <= |s.releases|
    ensures ByDocument(s.books.ledger, ReleaseRef, ChangeFor(p), n) == -Sum(s.releases[..n], ReleasedQty(p))
  {
    if n > 0 {
      ReleaseTotal(s, p, n - 1);
      var r, ref := s.releases[n - 1], Ref(ReleaseRef, n - 1);
      assert s.releases[..n] == s.releases[..n - 1] + [r];
      SumAppend(s.releases[..n - 1], r, ReleasedQty(p));
      assert AllFit(EntriesOf(s.books.ledger, ref), Due(s, ref));
      NetOfFitting(EntriesOf(s.books.ledger, ref), Due(s, ref), p);
      if r.status.Approved? {
        SumPointwise(ReleasePostings(r.lines), r.lines, QtyFor(p), ReleaseQty(p));
      }
    }
  }

  function AdjustedQty(p: nat): AdjustmentLine -> int {
    (x: AdjustmentLine) => if x.product == p then x.qty else 0
  }

  /** The net effect of an adjustment; for a recount only its ledger entries can tell. */
  function NetAdjustment(s: State, id: nat, p: nat): int
    requires id < |s.adjustments|
  {
    var a := s.adjustments[id];
    if !a.status.Approved? then 0
    else match a.kind
      case ByIncrease => Sum(a.lines, AdjustedQty(p))
      case ByDecrease => -Sum(a.lines, AdjustedQty(p))
      case ByRecount => Sum(EntriesOf(s.books.ledger, Ref(AdjustmentRef, id)), ChangeFor(p))
  }

  function NetAdjustments(s: State, p: nat, n: nat): int
    requires n <= |s.adjustments|
  {
    if n == 0 then 0 else NetAdjustments(s, p, n - 1) + NetAdjustment(s, n - 1, p)
  }

  lemma {:induction false} AdjustmentTotal(s: State, p: nat, n: nat)
    requires Posted(s) && n <= |s.adjustments|
    ensures ByDocument(s.books.ledger, AdjustmentRef, ChangeFor(p), n) == NetAdjustments(s, p, n)
  {
    if n > 0 {
      AdjustmentTotal(s, p, n - 1);
      var a, ref := s.adjustments[n - 1], Ref(AdjustmentRef, n - 1);
      assert AllFit(EntriesOf(s.books.ledger, ref), Due(s, ref));
      NetOfFitting(EntriesOf(s.books.ledger, ref), Due(s, ref), p);
      if a.status.Approved? && !a.kind.ByRecount? {
        SumPointwise(AdjustmentPostings(a.kind, a.lines), a.lines, QtyFor(p), AdjustedQty(p));
      }
    }
  }

  /** On hand = approved receipts + net approved adjustments - approved releases. */
  lemma OnHandIsBalance(s: State, p: nat)
    requires BooksAgree(s)
    ensures LevelOf(s.books.stock, p).qty ==
            Sum(s.grns, ApprovedQty(p)) + NetAdjustments(s, p, |s.adjustments|) - Sum(s.releases, ReleasedQty(p))
  {
    assert LevelOf(s.books.stock, p) == Replay(s.books.ledger, p);
    OnHandIsSumAndLast(s.books.ledger, p);
    SumByKind(s.books.ledger, ChangeFor(p));
    KindTotal(s, GrnRef, ChangeFor(p));
    KindTotal(s, AdjustmentRef, ChangeFor(p));
    KindTotal(s, ReleaseRef, ChangeFor(p));
    GrnTotal(s, p, |s.grns|);
    ReleaseTotal(s, p, |s.releases|);
    AdjustmentTotal(s, p, |s.adjustments|);
    assert s.grns[..|s.grns|] == s.grns && s.releases[..|s.releases|] == s.releases;
  }

  /** The two ledgers agree: on hand = procurement stock + net adjustments - releases, in every run. */
  lemma TwoLedgersAgree(ops: seq<Op>, p: nat, pick: nat)
    requires NeverMisleads(Run(ops).grns, p)
    ensures
      var s := Run(ops);
      LevelOf(s.books.stock, p).qty ==
      Proc.CurrentStock(s.receipts, p, pick) + NetAdjustments(s, p, |s.adjustments|)
      - Sum(s.releases, ReleasedQty(p))
  {
    BooksAgreeInEveryRun(ops);
    OnHandIsBalance(Run(ops), p);
    ProcurementStockIsApprovedReceipts(ops, p, pick);
  }

  // ------------------------------------------------------------------
  // Cached totals of releases
  // ------------------------------------------------------------------

  /** Totals are sums of the lines; each line is costed at the unit cost its ledger entry records. */
  ghost predicate CostedRelease(s: State, id: nat)
    requires id < |s.releases|
  {
    var r, es := s.releases[id], EntriesOf(s.books.ledger, Ref(ReleaseRef, id));
    if r.status.Approved? then
      && |es| == |r.lines|
      && r.totalQty == Sum(r.lines, Rel.LineQty())
      && r.totalCost == Sum(r.lines, Rel.LineTotal())
      && forall k | 0 <= k < |r.lines| ::
           && r.lines[k].unitCost == es[k].unitCost
           && r.lines[k].lineTotal == Round(r.lines[k].qty * r.lines[k].unitCost, 10000)
    else
      r.totalQty == 0 && r.totalCost == 0
  }

  ghost predicate ReleasesCosted(s: State) {
    forall id | 0 <= id < |s.releases| :: CostedRelease(s, id)
  }

  /** Releases never move an average, so every line is posted at the average held before the document. */
  lemma {:induction false} ReleasePostingCosts(b: Books, ps: seq<Posting>, ref: Ref)
    requires forall i | 0 <= i < |ps| :: ps[i].move.Release?
    requires PostAll(b, ps, ref).Ok?
    ensures
      var ledger := PostAll(b, ps, ref).value.ledger;
      && |ledger| == |b.ledger| + |ps|
      && forall i | 0 <= i < |ps| :: ledger[|b.ledger| + i].unitCost == LevelOf(b.stock, ps[i].product).avg
    decreases |ps|
  {
    if ps != [] {
      var next := Post(b, ps[0], ref).value;
      var ledger := PostAll(b, ps, ref).value.ledger;
      ReleasePostingCosts(next, ps[1..], ref);
      PostAllAppends(next, ps[1..], ref);
      assert ledger[|b.ledger|] == next.ledger[|b.ledger|];
      forall i | 0 <= i < |ps| ensures ledger[|b.ledger| + i].unitCost == LevelOf(b.stock, ps[i].product).avg {
        if i > 0 {
          assert ps[i] == ps[1..][i - 1];
          assert ledger[|next.ledger| + (i - 1)].unitCost == LevelOf(next.stock, ps[i].product).avg;
        }
      }
    }
  }

  lemma ReleasePostingEntries(b: Books, ps: seq<Posting>, ref: Ref)
    requires forall i | 0 <= i < |ps| :: ps[i].move.Release?
    requires PostAll(b, ps, ref).Ok? && EntriesOf(b.ledger, ref) == []
    ensures
      var es := EntriesOf(PostAll(b, ps, ref).value.ledger, ref);
      |es| == |ps| && forall k | 0 <= k < |ps| :: es[k].unitCost == LevelOf(b.stock, ps[k].product).avg
  {
    ReleasePostingCosts(b, ps, ref);
    PostAllEntriesOf(b, ps, ref, ref);
    var ledger := PostAll(b, ps, ref).value.ledger;
    var es := EntriesOf(ledger, ref);
    assert es == ledger[|b.ledger|..];
    forall k | 0 <= k < |ps| ensures es[k].unitCost == LevelOf(b.stock, ps[k].product).avg {
      assert es[k] == ledger[|b.ledger| + k];
    }
  }

  lemma ReleaseApprovalCosts(s: State, id: nat)
    requires BooksAgree(s) && Rel.Approve(s, id).Ok?
    ensures CostedRelease(Rel.Approve(s, id).value, id)
  {
    var r, ref := s.releases[id], Ref(ReleaseRef, id);
    var ps := ReleasePostings(r.lines);
    assert AllFit(EntriesOf(s.books.ledger, ref), Due(s, ref));
    ReleasePostingEntries(s.books, ps, ref);
    forall k | 0 <= k < |r.lines| ensures ps[k].product == r.lines[k].product {
    }
  }

  lemma SameEntriesStayCosted(s: State, t: State, id: nat)
    requires id < |s.releases| && id < |t.releases| && CostedRelease(s, id)
    requires t.releases[id] == s.releases[id] ||
             (!t.releases[id].status.Approved? && t.releases[id].totalQty == 0 && t.releases[id].totalCost == 0)
    requires EntriesOf(t.books.ledger, Ref(ReleaseRef, id)) == EntriesOf(s.books.ledger, Ref(ReleaseRef, id))
    ensures CostedRelease(t, id)
  {
  }

  lemma ApprovalKeepsOtherEntries(s: State, op: Op, other: Ref)
    requires Approval(op) && Apply(s, op).Ok? && other != SubjectOf(op)
    ensures EntriesOf(Apply(s, op).value.books.ledger, other) == EntriesOf(s.books.ledger, other)
  {
    ApprovalPosts(s, op);
    var t := Apply(s, op).value;
    PostAllEntriesOf(s.books, Due(t, SubjectOf(op)), SubjectOf(op), other);
    assert EntriesOf(s.books.ledger, other) + [] == EntriesOf(s.books.ledger, other);
  }

  /** A release step rewrites one release that stays unapproved, or adds one. */
  lemma ReleaseStepShape(s: State, op: Op, id: nat)
    requires !op.ApproveRelease? && ReleasesCosted(s) && id < |Exec(s, op).releases|
    ensures (id < |s.releases| && Exec(s, op).releases[id] == s.releases[id]) ||
            (&& !Exec(s, op).releases[id].status.Approved?
             && Exec(s, op).releases[id].totalQty == 0 && Exec(s, op).releases[id].totalCost == 0)
  {
    if id < |s.releases| {
      assert CostedRelease(s, id);
    }
  }

  lemma StepKeepsReleasesCosted(s: State, op: Op)
    requires BooksAgree(s) && ReleasesCosted(s)
    ensures ReleasesCosted(Exec(s, op))
  {
    var t := Exec(s, op);
    if Apply(s, op).Ok? {
      forall id | 0 <= id < |t.releases| ensures CostedRelease(t, id) {
        var ref := Ref(ReleaseRef, id);
        if Approval(op) && SubjectOf(op) == ref {
          ReleaseApprovalCosts(s, id);
        } else {
          if Approval(op) {
            ApprovalKeepsOtherEntries(s, op, ref);
          } else {
            OtherStepsAreQuiet(s, op);
            ReleaseStepShape(s, op, id);
          }
          if id < |s.releases| {
            assert CostedRelease(s, id);
            SameEntriesStayCosted(s, t, id);
          }
        }
      }
    }
  }

  lemma {:induction false} ReleasesCostedAfter(s: State, ops: seq<Op>)
    requires BooksAgree(s) && ReleasesCosted(s)
    ensures ReleasesCosted(After(s, ops))
    decreases |ops|
  {
    if ops != [] {
      StepKeepsBooks(s, ops[0]);
      StepKeepsReleasesCosted(s, ops[0]);
      ReleasesCostedAfter(Exec(s, ops[0]), ops[1..]);
    }
  }

  /**
   * In every run an approved release's cached totals are the sums of its lines and, for the
   * quantity, of its ledger entries; every line total is its quantity at the posted unit cost.
   */
  lemma ReleaseTotalsReconcile(ops: seq<Op>, id: nat)
    requires id < |Run(ops).releases| && Run(ops).releases[id].status.Approved?
    ensures
      var s := Run(ops);
      && CostedRelease(s, id)
      && s.releases[id].totalQty == -Sum(EntriesOf(s.books.ledger, Ref(ReleaseRef, id)), AnyChange())
  {
    ReleasesCostedAfter(EMPTY, ops);
    BooksAgreeInEveryRun(ops);
    var s, ref := Run(ops), Ref(ReleaseRef, id);
    assert CostedRelease(s, id);
    var r, es := s.releases[id], EntriesOf(s.books.ledger, ref);
    assert AllFit(es, Due(s, ref));
    SumOpposite(es, r.lines);
  }

  function AnyChange(): Entry -> int {
    (e: Entry) => e.change
  }

  lemma {:induction false} SumOpposite(es: seq<Entry>, lines: seq<ReleaseLine>)
    requires |es| == |lines|
    requires forall k | 0 <= k < |lines| :: es[k].change == -(lines[k].qty as int)
    ensures Sum(es, AnyChange()) == -Sum(lines, Rel.LineQty())
  {
    if lines != [] {
      SumOpposite(es[1..], lines[1..]);
    }
  }
}
