/** What the stock on hand is worth, in terms of what documents bought and released. */
module Valuation {
  import opened Rounding
  import opened Stock
  import opened Postings
  import opened Sums
  import opened Tables
  import opened System
  import opened Effects
  import opened Reconciliation
  import opened Consumption

  // ------------------------------------------------------------------
  // Posted value: what documents say, and what only the running average can say
  // ------------------------------------------------------------------

  /** Costed increases at their own cost and releases at the cost they record; units of 10^-8. */
  function DocumentValue(p: nat): Entry -> int {
    (e: Entry) =>
      if e.product == p && (Costed(e.change, e.unitCost) || e.entryType.StockReleased?) then e.change * e.unitCost
      else 0
  }

  /** Every other change counts at the running average: decreases, losses in a count, increases without a cost. */
  function AtAverage(ledger: seq<Entry>, p: nat): int
    decreases |ledger|
  {
    if ledger == [] then 0
    else
      var e, rest := ledger[|ledger| - 1], ledger[..|ledger| - 1];
      if e.product != p || Costed(e.change, e.unitCost) || e.entryType.StockReleased? then AtAverage(rest, p)
      else AtAverage(rest, p) + e.change * Replay(rest, p).avg
  }

  predicate ReleasedAtAverage(ledger: seq<Entry>, i: nat)
    requires i < |ledger|
  {
    var e := ledger[i];
    e.entryType.StockReleased? ==> e.change <= 0 && e.unitCost == Replay(ledger[..i], e.product).avg
  }

  /** Every release entry records the average of its moment. */
  ghost predicate ReleasesPriced(ledger: seq<Entry>) {
    forall i | 0 <= i < |ledger| :: ReleasedAtAverage(ledger, i)
  }

  lemma PricedPrefix(ledger: seq<Entry>, n: nat)
    requires ReleasesPriced(ledger) && n <= |ledger|
    ensures ReleasesPriced(ledger[..n])
  {
    forall i | 0 <= i < n ensures ReleasedAtAverage(ledger[..n], i) {
      assert ReleasedAtAverage(ledger, i);
      assert ledger[..n][..i] == ledger[..i];
    }
  }

  lemma {:induction false} PostedValueSplits(ledger: seq<Entry>, p: nat)
    requires ReleasesPriced(ledger)
    ensures PostedValue(ledger, p) == Sum(ledger, DocumentValue(p)) + AtAverage(ledger, p)
    decreases |ledger|
  {
    if ledger != [] {
      var n := |ledger| - 1;
      PricedPrefix(ledger, n);
      PostedValueSplits(ledger[..n], p);
      assert ledger == ledger[..n] + [ledger[n]];
      SumAppend(ledger[..n], ledger[n], DocumentValue(p));
      assert ReleasedAtAverage(ledger, n);
    }
  }

  lemma PostKeepsPriced(b: Books, x: Posting, ref: Ref)
    requires Sound(b) && ReleasesPriced(b.ledger) && Post(b, x, ref).Ok?
    ensures ReleasesPriced(Post(b, x, ref).value.ledger)
  {
    var ledger, n := Post(b, x, ref).value.ledger, |b.ledger|;
    assert LevelOf(b.stock, x.product) == Replay(b.ledger, x.product);
    forall i | 0 <= i < |ledger| ensures ReleasedAtAverage(ledger, i) {
      assert ledger[..i] == b.ledger[..i];
      if i < n {
        assert ReleasedAtAverage(b.ledger, i);
      } else {
        assert ledger[..i] == b.ledger;
      }
    }
  }

  lemma {:induction false} PostAllKeepsPriced(b: Books, ps: seq<Posting>, ref: Ref)
    requires Sound(b) && ReleasesPriced(b.ledger) && PostAll(b, ps, ref).Ok?
    ensures ReleasesPriced(PostAll(b, ps, ref).value.ledger)
    decreases |ps|
  {
    if ps != [] {
      PostKeepsSound(b, ps[0], ref);
      PostKeepsPriced(b, ps[0], ref);
      PostAllKeepsPriced(Post(b, ps[0], ref).value, ps[1..], ref);
    }
  }

  lemma StepKeepsPriced(s: State, op: Op)
    requires BooksAgree(s) && ReleasesPriced(s.books.ledger)
    ensures ReleasesPriced(Exec(s, op).books.ledger)
  {
    if Approval(op) {
      if Apply(s, op).Ok? {
        ApprovalPosts(s, op);
        PostAllKeepsPriced(s.books, Due(Exec(s, op), SubjectOf(op)), SubjectOf(op));
      }
    } else {
      OtherStepsAreQuiet(s, op);
    }
  }

  lemma {:induction false} PricedAfter(s: State, ops: seq<Op>)
    requires BooksAgree(s) && ReleasesPriced(s.books.ledger)
    ensures ReleasesPriced(After(s, ops).books.ledger)
    decreases |ops|
  {
    if ops != [] {
      StepKeepsBooks(s, ops[0]);
      StepKeepsPriced(s, ops[0]);
      PricedAfter(Exec(s, ops[0]), ops[1..]);
    }
  }

  // ------------------------------------------------------------------
  // Document by document
  // ------------------------------------------------------------------

  function PostingCost(p: nat): Posting -> int {
    (x: Posting) => if x.product == p then x.qty * x.cost else 0
  }

  function NoteLineCost(p: nat): GrnLine -> int {
    (x: GrnLine) => if x.product == p then x.qty * x.cost else 0
  }

  function AdjustmentLineCost(p: nat): AdjustmentLine -> int {
    (x: AdjustmentLine) => if x.product == p then x.qty * x.cost else 0
  }

  /** Approved receipts at cost. */
  function ReceivedAtCost(p: nat): Grn -> int {
    (g: Grn) => if g.status.Approved? then Sum(g.lines, NoteLineCost(p)) else 0
  }

  /** Approved increases at cost; what a count gains at the sheet's cost only its ledger entries can tell. */
  function AdjustedAtCost(s: State, id: nat, p: nat): int
    requires id < |s.adjustments|
  {
    var a := s.adjustments[id];
    if !a.status.Approved? then 0
    else match a.kind
      case ByIncrease => Sum(a.lines, AdjustmentLineCost(p))
      case ByDecrease => 0
      case ByRecount => Sum(EntriesOf(s.books.ledger, Ref(AdjustmentRef, id)), DocumentValue(p))
  }

  function AdjustmentsAtCost(s: State, p: nat, n: nat): int
    requires n <= |s.adjustments|
  {
    if n == 0 then 0 else AdjustmentsAtCost(s, p, n - 1) + AdjustedAtCost(s, n - 1, p)
  }

  function LineValue(p: nat): ReleaseLine -> int {
    (x: ReleaseLine) => if x.product == p then x.qty * x.unitCost else 0
  }

  function ReleasedValue(p: nat): StockRelease -> int {
    (r: StockRelease) => if r.status.Approved? then Sum(r.lines, LineValue(p)) else 0
  }

  /** The line totals of approved releases, and how many lines they are. */
  function ReleasedCost(p: nat): StockRelease -> int {
    (r: StockRelease) => if r.status.Approved? then Sum(r.lines, LineCost(p)) else 0
  }

  function ReleasedLines(p: nat): StockRelease -> int {
    (r: StockRelease) => if r.status.Approved? then Sum(r.lines, LineCount(p)) else 0
  }

  ghost predicate AllBringIn(ps: seq<Posting>) {
    forall i | 0 <= i < |ps| :: ps[i].move.Receive? || ps[i].move.Increase?
  }

  lemma ZeroFactor(a: nat, b: nat)
    ensures a == 0 || b == 0 ==> a * b == 0
  {
  }

  lemma ValueOfIncreases(es: seq<Entry>, ps: seq<Posting>, p: nat)
    requires AllFit(es, ps) && AllBringIn(ps)
    ensures Sum(es, DocumentValue(p)) == Sum(ps, PostingCost(p))
  {
    forall i | 0 <= i < |es| ensures DocumentValue(p)(es[i]) == PostingCost(p)(ps[i]) {
      assert Fits(es[i], ps[i]);
      ZeroFactor(ps[i].qty, ps[i].cost);
    }
    SumPointwise(es, ps, DocumentValue(p), PostingCost(p));
  }

  lemma ValueOfDecreases(es: seq<Entry>, ps: seq<Posting>, p: nat)
    requires AllFit(es, ps) && forall i | 0 <= i < |ps| :: ps[i].move.Decrease?
    ensures Sum(es, DocumentValue(p)) == 0
  {
    forall i | 0 <= i < |es| ensures DocumentValue(p)(es[i]) == 0 {
      assert Fits(es[i], ps[i]);
    }
    SumZero(es, DocumentValue(p));
  }

  lemma {:induction false} NotesValue(s: State, p: nat, n: nat)
    requires Posted(s) && n <= |s.grns|
    ensures ByDocument(s.books.ledger, GrnRef, DocumentValue(p), n) == Sum(s.grns[..n], ReceivedAtCost(p))
  {
    if n > 0 {
      NotesValue(s, p, n - 1);
      var g, ref := s.grns[n - 1], Ref(GrnRef, n - 1);
      assert s.grns[..n] == s.grns[..n - 1] + [g];
      SumAppend(s.grns[..n - 1], g, ReceivedAtCost(p));
      assert AllFit(EntriesOf(s.books.ledger, ref), Due(s, ref));
      ValueOfIncreases(EntriesOf(s.books.ledger, ref), Due(s, ref), p);
      if g.status.Approved? {
        SumPointwise(GrnPostings(g.lines), g.lines, PostingCost(p), NoteLineCost(p));
      }
    }
  }

  lemma {:induction false} AdjustmentsValue(s: State, p: nat, n: nat)
    requires Posted(s) && n <= |s.adjustments|
    ensures ByDocument(s.books.ledger, AdjustmentRef, DocumentValue(p), n) == AdjustmentsAtCost(s, p, n)
  {
    if n > 0 {
      AdjustmentsValue(s, p, n - 1);
      var a, ref := s.adjustments[n - 1], Ref(AdjustmentRef, n - 1);
      var es, ps := EntriesOf(s.books.ledger, ref), Due(s, ref);
      assert AllFit(es, ps);
      if !a.status.Approved? {
        assert es == [];
      } else if a.kind.ByIncrease? {
        ValueOfIncreases(es, ps, p);
        SumPointwise(ps, a.lines, PostingCost(p), AdjustmentLineCost(p));
      } else if a.kind.ByDecrease? {
        ValueOfDecreases(es, ps, p);
      }
    }
  }

  lemma {:induction false} ReleaseEntriesValue(es: seq<Entry>, lines: seq<ReleaseLine>, p: nat)
    requires |es| == |lines|
    requires forall k | 0 <= k < |lines| ::
               && es[k].product == lines[k].product && es[k].entryType.StockReleased?
               && es[k].change == -(lines[k].qty as int) && es[k].unitCost == lines[k].unitCost
    ensures Sum(es, DocumentValue(p)) == -Sum(lines, LineValue(p))
  {
    if lines != [] {
      ReleaseEntriesValue(es[1..], lines[1..], p);
      assert es[0].change * es[0].unitCost == -(lines[0].qty * lines[0].unitCost);
    }
  }

  lemma {:induction false} ReleasesValue(s: State, p: nat, n: nat)
    requires Posted(s) && ReleasesCosted(s) && n <= |s.releases|
    ensures ByDocument(s.books.ledger, ReleaseRef, DocumentValue(p), n) == -Sum(s.releases[..n], ReleasedValue(p))
  {
    if n > 0 {
      ReleasesValue(s, p, n - 1);
      var r, ref := s.releases[n - 1], Ref(ReleaseRef, n - 1);
      assert s.releases[..n] == s.releases[..n - 1] + [r];
      SumAppend(s.releases[..n - 1], r, ReleasedValue(p));
      var es := EntriesOf(s.books.ledger, ref);
      assert AllFit(es, Due(s, ref)) && CostedRelease(s, n - 1);
      if r.status.Approved? {
        forall k | 0 <= k < |r.lines|
          ensures es[k].product == r.lines[k].product && es[k].entryType.StockReleased?
          ensures es[k].change == -(r.lines[k].qty as int)
        {
          assert Fits(es[k], Due(s, ref)[k]);
        }
        ReleaseEntriesValue(es, r.lines, p);
      }
    }
  }

  lemma DocumentsValue(s: State, p: nat)
    requires Posted(s) && ReleasesCosted(s)
    ensures Sum(s.books.ledger, DocumentValue(p)) ==
            Sum(s.grns, ReceivedAtCost(p)) + AdjustmentsAtCost(s, p, |s.adjustments|)
            - Sum(s.releases, ReleasedValue(p))
  {
    SumByKind(s.books.ledger, DocumentValue(p));
    KindTotal(s, GrnRef, DocumentValue(p));
    KindTotal(s, AdjustmentRef, DocumentValue(p));
    KindTotal(s, ReleaseRef, DocumentValue(p));
    NotesValue(s, p, |s.grns|);
    AdjustmentsValue(s, p, |s.adjustments|);
    ReleasesValue(s, p, |s.releases|);
    assert s.grns[..|s.grns|] == s.grns && s.releases[..|s.releases|] == s.releases;
  }

  // ------------------------------------------------------------------
  // The rounding of release lines
  // ------------------------------------------------------------------

  ghost predicate RoundedWithin(cost: int, value: int, lines: int) {
    -10000 * lines <= 2 * (10000 * cost - value) <= 10000 * lines
  }

  lemma {:induction false} LineRounding(lines: seq<ReleaseLine>, p: nat)
    requires forall k | 0 <= k < |lines| :: lines[k].lineTotal == Round(lines[k].qty * lines[k].unitCost, 10000)
    ensures RoundedWithin(Sum(lines, LineCost(p)), Sum(lines, LineValue(p)), Sum(lines, LineCount(p)))
  {
    if lines != [] {
      LineRounding(lines[1..], p);
      RoundError(lines[0].qty * lines[0].unitCost, 10000);
    }
  }

  lemma OneReleaseRounding(s: State, id: nat, p: nat)
    requires id < |s.releases| && CostedRelease(s, id)
    ensures
      var r := s.releases[id];
      RoundedWithin(ReleasedCost(p)(r), ReleasedValue(p)(r), ReleasedLines(p)(r))
  {
    var r := s.releases[id];
    if r.status.Approved? {
      LineRounding(r.lines, p);
    }
  }

  lemma {:induction false} ReleaseRounding(s: State, p: nat, n: nat)
    requires ReleasesCosted(s) && n <= |s.releases|
    ensures
      var rs := s.releases[..n];
      RoundedWithin(Sum(rs, ReleasedCost(p)), Sum(rs, ReleasedValue(p)), Sum(rs, ReleasedLines(p)))
  {
    if n > 0 {
      var rs, before, r := s.releases[..n], s.releases[..n - 1], s.releases[n - 1];
      ReleaseRounding(s, p, n - 1);
      OneReleaseRounding(s, n - 1, p);
      assert rs == before + [r];
      SumAppend(before, r, ReleasedLines(p));
      SumAppend(before, r, ReleasedCost(p));
      SumAppend(before, r, ReleasedValue(p));
    }
  }

  // ------------------------------------------------------------------
  // Over every run
  // ------------------------------------------------------------------

  /** Half a unit of cost per unit held at each costed increase, and half a unit of total per release line. */
  function Room(s: State, p: nat): int {
    Sum(s.books.ledger, RoundingRoom(p)) + 10000 * Sum(s.releases, ReleasedLines(p))
  }

  ghost predicate ValuedAt(s: State, p: nat, value: int) {
    var l := LevelOf(s.books.stock, p);
    -Room(s, p) <= 2 * (l.qty * l.avg - value) <= Room(s, p)
  }

  /**
   * In every run quantity times average is approved receipts at cost, plus increases at cost, less the
   * line totals of approved releases, plus what the other changes moved at the running average, up to
   * the rounding of averages and line totals.
   */
  lemma StockIsWorthItsDocuments(ops: seq<Op>, p: nat)
    ensures
      var s := Run(ops);
      ValuedAt(s, p,
        Sum(s.grns, ReceivedAtCost(p)) + AdjustmentsAtCost(s, p, |s.adjustments|)
        - 10000 * Sum(s.releases, ReleasedCost(p)) + AtAverage(s.books.ledger, p))
  {
    var s := Run(ops);
    BooksAgreeInEveryRun(ops);
    ReleasesCostedAfter(EMPTY, ops);
    PricedAfter(EMPTY, ops);
    PostedValueSplits(s.books.ledger, p);
    DocumentsValue(s, p);
    assert LevelOf(s.books.stock, p) == Replay(s.books.ledger, p);
    ValuationError(s.books.ledger, p);
    ReleaseRounding(s, p, |s.releases|);
    assert s.releases[..|s.releases|] == s.releases;
  }

  // ------------------------------------------------------------------
  // Products that are only bought and released
  // ------------------------------------------------------------------

  /** Approved lines bring the product in at a cost or release it; none decreases or recounts it. */
  ghost predicate OnlyBought(s: State, p: nat) {
    forall ref: Ref :: OnlyBuys(Due(s, ref), p)
  }

  ghost predicate OnlyBuys(ps: seq<Posting>, p: nat) {
    forall i | 0 <= i < |ps| && ps[i].product == p ::
      match ps[i].move
      case Receive | Increase => ps[i].qty > 0 ==> ps[i].cost > 0
      case Decrease | Recount => false
      case Release => true
  }

  lemma EntryOfBought(s: State, p: nat, e: Entry)
    requires Posted(s) && OnlyBought(s, p) && e in s.books.ledger && e.product == p
    ensures Costed(e.change, e.unitCost) || e.entryType.StockReleased? || e.change == 0
  {
    var es, ps := EntriesOf(s.books.ledger, e.ref), Due(s, e.ref);
    FilterKeeps(s.books.ledger, RefersTo(e.ref), e);
    var k :| 0 <= k < |es| && es[k] == e;
    assert AllFit(es, ps) && OnlyBuys(ps, p);
    assert Fits(es[k], ps[k]);
  }

  lemma {:induction false} NothingAtAverage(ledger: seq<Entry>, p: nat)
    requires forall e | e in ledger && e.product == p ::
               Costed(e.change, e.unitCost) || e.entryType.StockReleased? || e.change == 0
    ensures AtAverage(ledger, p) == 0
    decreases |ledger|
  {
    if ledger != [] {
      NothingAtAverage(ledger[..|ledger| - 1], p);
      assert ledger[|ledger| - 1] in ledger;
    }
  }

  /**
   * What such a product cost is on hand at its average, or was released at the cost the consumption
   * report shows for it.
   */
  lemma BoughtIsHeldOrReleased(ops: seq<Op>, p: nat, agg: map<nat, Row>)
    requires OnlyBought(Run(ops), p) && Aggregated(agg, Reported(Run(ops)))
    ensures
      var s := Run(ops);
      ValuedAt(s, p,
        Sum(s.grns, ReceivedAtCost(p)) + AdjustmentsAtCost(s, p, |s.adjustments|) - 10000 * RowOf(agg, p).cost)
  {
    StockIsWorthItsDocuments(ops, p);
    BooksAgreeInEveryRun(ops);
    var s := Run(ops);
    forall e | e in s.books.ledger && e.product == p
      ensures Costed(e.change, e.unitCost) || e.entryType.StockReleased? || e.change == 0
    {
      EntryOfBought(s, p, e);
    }
    NothingAtAverage(s.books.ledger, p);
    ApprovedIsNotDeleted(ops);
    ReportedSum(s.releases, CostIn(p), ReleasedCost(p));
    assert Totals(agg, p, Sum(Reported(s), QtyIn(p)), Sum(Reported(s), CostIn(p)), Sum(Reported(s), CountIn(p)));
  }
}
