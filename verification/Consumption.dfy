/** The product consumption report, and its reconciliation with releases and ledger. */
module Consumption {
  import opened Stock
  import opened Postings
  import opened Sums
  import opened Tables
  import opened System
  import opened Reconciliation
  import opened Lifecycle
  import Rel = Releases

  /** The accumulators of one product. */
  datatype Row = Row(qty: int, cost: int, count: nat)

  const NO_ROW := Row(0, 0, 0)

  function RowOf(agg: map<nat, Row>, p: nat): Row {
    if p in agg then agg[p] else NO_ROW
  }

  function AddLine(r: Row, x: ReleaseLine): Row {
    Row(r.qty + x.qty, r.cost + x.lineTotal, r.count + 1)
  }

  function LineCost(p: nat): ReleaseLine -> int {
    (x: ReleaseLine) => if x.product == p then x.lineTotal else 0
  }

  function LineCount(p: nat): ReleaseLine -> int {
    (x: ReleaseLine) => if x.product == p then 1 else 0
  }

  function QtyIn(p: nat): StockRelease -> int {
    (r: StockRelease) => Sum(r.lines, ReleaseQty(p))
  }

  function CostIn(p: nat): StockRelease -> int {
    (r: StockRelease) => Sum(r.lines, LineCost(p))
  }

  function CountIn(p: nat): StockRelease -> int {
    (r: StockRelease) => Sum(r.lines, LineCount(p))
  }

  ghost predicate Totals(agg: map<nat, Row>, p: nat, qty: int, cost: int, count: int) {
    var row := RowOf(agg, p);
    row.qty == qty && row.cost == cost && row.count == count
  }

  /** What the rows hold after the given lines were added to base. */
  ghost predicate Accumulated(base: map<nat, Row>, agg: map<nat, Row>, lines: seq<ReleaseLine>) {
    && agg.Keys == base.Keys + (set x | x in lines :: x.product)
    && forall p: nat :: Totals(agg, p,
         RowOf(base, p).qty + Sum(lines, ReleaseQty(p)),
         RowOf(base, p).cost + Sum(lines, LineCost(p)),
         RowOf(base, p).count + Sum(lines, LineCount(p)))
  }

  lemma AccumulateNone(base: map<nat, Row>)
    ensures Accumulated(base, base, [])
  {
  }

  lemma AccumulateOne(base: map<nat, Row>, agg: map<nat, Row>, lines: seq<ReleaseLine>, x: ReleaseLine)
    requires Accumulated(base, agg, lines)
    ensures Accumulated(base, agg[x.product := AddLine(RowOf(agg, x.product), x)], lines + [x])
  {
    var next := agg[x.product := AddLine(RowOf(agg, x.product), x)];
    forall p: nat ensures Totals(next, p,
        RowOf(base, p).qty + Sum(lines + [x], ReleaseQty(p)),
        RowOf(base, p).cost + Sum(lines + [x], LineCost(p)),
        RowOf(base, p).count + Sum(lines + [x], LineCount(p)))
    {
      assert Totals(agg, p,
        RowOf(base, p).qty + Sum(lines, ReleaseQty(p)),
        RowOf(base, p).cost + Sum(lines, LineCost(p)),
        RowOf(base, p).count + Sum(lines, LineCount(p)));
      SumAppend(lines, x, ReleaseQty(p));
      SumAppend(lines, x, LineCost(p));
      SumAppend(lines, x, LineCount(p));
    }
  }

  /** One release: the inner loop over its items updates the dictionary in place. */
  method AggregateLines(agg: map<nat, Row>, lines: seq<ReleaseLine>) returns (next: map<nat, Row>)
    ensures Accumulated(agg, next, lines)
  {
    next := agg;
    AccumulateNone(agg);
    for i := 0 to |lines|
      invariant Accumulated(agg, next, lines[..i])
    {
      var x := lines[i];
      ghost var before := next;
      if x.product !in next {
        next := next[x.product := NO_ROW];
      }
      next := next[x.product := AddLine(next[x.product], x)];
      assert next == before[x.product := AddLine(RowOf(before, x.product), x)];
      AccumulateOne(agg, before, lines[..i], x);
      assert lines[..i + 1] == lines[..i] + [x];
    }
    assert lines[..|lines|] == lines;
  }

  /** What the finished dictionary holds: the rows of the listed products, with their totals. */
  ghost predicate Aggregated(agg: map<nat, Row>, releases: seq<StockRelease>) {
    && agg.Keys == (set r, x | r in releases && x in r.lines :: x.product)
    && forall p: nat :: Totals(agg, p,
         Sum(releases, QtyIn(p)), Sum(releases, CostIn(p)), Sum(releases, CountIn(p)))
  }

  lemma AggregateOne(before: map<nat, Row>, agg: map<nat, Row>, releases: seq<StockRelease>, r: StockRelease)
    requires Aggregated(before, releases) && Accumulated(before, agg, r.lines)
    ensures Aggregated(agg, releases + [r])
  {
    forall p: nat ensures Totals(agg, p,
        Sum(releases + [r], QtyIn(p)), Sum(releases + [r], CostIn(p)), Sum(releases + [r], CountIn(p)))
    {
      assert Totals(before, p,
        Sum(releases, QtyIn(p)), Sum(releases, CostIn(p)), Sum(releases, CountIn(p)));
      SumAppend(releases, r, QtyIn(p));
      SumAppend(releases, r, CostIn(p));
      SumAppend(releases, r, CountIn(p));
    }
  }

  /** The outer loop over the releases. */
  method Aggregate(releases: seq<StockRelease>) returns (agg: map<nat, Row>)
    ensures Aggregated(agg, releases)
  {
    agg := map[];
    for i := 0 to |releases|
      invariant Aggregated(agg, releases[..i])
    {
      ghost var before := agg;
      agg := AggregateLines(agg, releases[i].lines);
      AggregateOne(before, agg, releases[..i], releases[i]);
      assert releases[..i + 1] == releases[..i] + [releases[i]];
    }
    assert releases[..|releases|] == releases;
  }

  // ------------------------------------------------------------------
  // Reconciliation over runs
  // ------------------------------------------------------------------

  /** The rows get_for_report selects for this report: approved and not deleted. */
  function Reportable(): StockRelease -> bool {
    (r: StockRelease) => r.status.Approved? && !r.deleted
  }

  function Reported(s: State): seq<StockRelease> {
    Filter(s.releases, Reportable())
  }

  /** A measure of the reported releases is that of the approved ones. */
  lemma {:induction false} ReportedSum(
    releases: seq<StockRelease>, f: StockRelease -> int, approved: StockRelease -> int)
    requires forall r | r in releases && r.deleted :: !r.status.Approved?
    requires forall r | r in releases :: approved(r) == if r.status.Approved? then f(r) else 0
    ensures Sum(Filter(releases, Reportable()), f) == Sum(releases, approved)
  {
    if releases != [] {
      ReportedSum(releases[1..], f, approved);
      var rest := Filter(releases[1..], Reportable());
      assert releases[0] in releases;
      if Reportable()(releases[0]) {
        SumConcat([releases[0]], rest, f);
        assert Sum([releases[0]], f) == f(releases[0]);
      }
    }
  }

  lemma ApprovedIsNotDeleted(ops: seq<Op>)
    ensures forall r | r in Run(ops).releases && r.deleted :: !r.status.Approved?
  {
    var s := Run(ops);
    EveryRunIsHealthy(ops);
    forall r | r in s.releases && r.deleted ensures !r.status.Approved? {
      var i :| 0 <= i < |s.releases| && s.releases[i] == r;
      assert ReleaseOk(s.releases[i]);
    }
  }

  /** The costs of all rows, for ids below n. */
  function CostBelow(agg: map<nat, Row>, n: nat): int {
    if n == 0 then 0 else CostBelow(agg, n - 1) + RowOf(agg, n - 1).cost
  }

  function CostByProduct(releases: seq<StockRelease>, n: nat): int {
    if n == 0 then 0 else CostByProduct(releases, n - 1) + Sum(releases, CostIn(n - 1))
  }

  ghost predicate ProductsBelow(lines: seq<ReleaseLine>, n: nat) {
    forall i | 0 <= i < |lines| :: lines[i].product < n
  }

  function LineCostBelow(lines: seq<ReleaseLine>, n: nat): int {
    if n == 0 then 0 else LineCostBelow(lines, n - 1) + Sum(lines, LineCost(n - 1))
  }

  lemma {:induction false} LineCostBelowStep(lines: seq<ReleaseLine>, n: nat)
    requires lines != []
    ensures LineCostBelow(lines, n) ==
            LineCostBelow(lines[1..], n) + if lines[0].product < n then lines[0].lineTotal else 0
  {
    if n > 0 {
      LineCostBelowStep(lines, n - 1);
    }
  }

  lemma {:induction false} NoLinesNoCost(n: nat)
    ensures LineCostBelow([], n) == 0
  {
    if n > 0 {
      NoLinesNoCost(n - 1);
    }
  }

  lemma {:induction false} LineCostsByProduct(lines: seq<ReleaseLine>, n: nat)
    requires ProductsBelow(lines, n)
    ensures LineCostBelow(lines, n) == Sum(lines, Rel.LineTotal())
  {
    if lines == [] {
      NoLinesNoCost(n);
    } else {
      forall i | 0 <= i < |lines[1..]| ensures lines[1..][i].product < n {
        assert lines[1..][i] == lines[i + 1];
      }
      LineCostsByProduct(lines[1..], n);
      LineCostBelowStep(lines, n);
    }
  }

  function TotalCost(): StockRelease -> int {
    (r: StockRelease) => r.totalCost
  }

  lemma {:induction false} CostByProductStep(releases: seq<StockRelease>, n: nat)
    requires releases != []
    ensures CostByProduct(releases, n) ==
            LineCostBelow(releases[0].lines, n) + CostByProduct(releases[1..], n)
  {
    if n > 0 {
      CostByProductStep(releases, n - 1);
    }
  }

  lemma {:induction false} NoReleasesNoCost(n: nat)
    ensures CostByProduct([], n) == 0
  {
    if n > 0 {
      NoReleasesNoCost(n - 1);
    }
  }

  lemma {:induction false} CostsByProduct(releases: seq<StockRelease>, n: nat)
    requires forall i | 0 <= i < |releases| ::
               ProductsBelow(releases[i].lines, n) && releases[i].totalCost == Sum(releases[i].lines, Rel.LineTotal())
    ensures CostByProduct(releases, n) == Sum(releases, TotalCost())
  {
    if releases == [] {
      NoReleasesNoCost(n);
    } else {
      forall i | 0 <= i < |releases[1..]|
        ensures ProductsBelow(releases[1..][i].lines, n)
        ensures releases[1..][i].totalCost == Sum(releases[1..][i].lines, Rel.LineTotal())
      {
        assert releases[1..][i] == releases[i + 1];
      }
      CostsByProduct(releases[1..], n);
      CostByProductStep(releases, n);
      LineCostsByProduct(releases[0].lines, n);
    }
  }

  lemma {:induction false} FilterSound<T(!new)>(xs: seq<T>, keep: T -> bool, x: T)
    requires x in Filter(xs, keep)
    ensures x in xs && keep(x)
  {
    if !(keep(xs[0]) && x == xs[0]) {
      FilterSound(xs[1..], keep, x);
    }
  }

  lemma {:induction false} CostBelowIsByProduct(agg: map<nat, Row>, releases: seq<StockRelease>, n: nat)
    requires Aggregated(agg, releases)
    ensures CostBelow(agg, n) == CostByProduct(releases, n)
  {
    if n > 0 {
      CostBelowIsByProduct(agg, releases, n - 1);
      var p := n - 1;
      assert Totals(agg, p, Sum(releases, QtyIn(p)), Sum(releases, CostIn(p)), Sum(releases, CountIn(p)));
    }
  }

  /** In every run the reported quantity of a product is the negated sum of its release ledger changes. */
  lemma ReportedQuantityMatchesLedger(ops: seq<Op>, agg: map<nat, Row>, p: nat)
    requires Aggregated(agg, Reported(Run(ops)))
    ensures RowOf(agg, p).qty == -Sum(Run(ops).books.ledger, OfKind(ReleaseRef, ChangeFor(p)))
  {
    var s := Run(ops);
    EveryRunIsHealthy(ops);
    ApprovedIsNotDeleted(ops);
    ReportedSum(s.releases, QtyIn(p), ReleasedQty(p));
    KindTotal(s, ReleaseRef, ChangeFor(p));
    ReleaseTotal(s, p, |s.releases|);
    assert s.releases[..|s.releases|] == s.releases;
    assert Totals(agg, p, Sum(Reported(s), QtyIn(p)), Sum(Reported(s), CostIn(p)), Sum(Reported(s), CountIn(p)));
  }

  /** In every run the costs of all rows add up to the cached total costs of the reported releases. */
  lemma ReportedCostMatchesReleases(ops: seq<Op>, agg: map<nat, Row>, n: nat)
    requires Aggregated(agg, Reported(Run(ops)))
    requires forall r | r in Reported(Run(ops)) :: ProductsBelow(r.lines, n)
    ensures CostBelow(agg, n) == Sum(Reported(Run(ops)), TotalCost())
  {
    var s, rs := Run(ops), Reported(Run(ops));
    forall i | 0 <= i < |rs|
      ensures ProductsBelow(rs[i].lines, n) && rs[i].totalCost == Sum(rs[i].lines, Rel.LineTotal())
    {
      FilterSound(s.releases, Reportable(), rs[i]);
      var id :| 0 <= id < |s.releases| && s.releases[id] == rs[i];
      ReleaseTotalsReconcile(ops, id);
    }
    CostBelowIsByProduct(agg, rs, n);
    CostsByProduct(rs, n);
  }
}
