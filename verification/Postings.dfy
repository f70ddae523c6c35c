/** What applying a whole document to the books means, independent of the loop that does it. */
module Postings {
  import opened Sums
  import opened Stock

  function RefersTo(ref: Ref): Entry -> bool {
    (e: Entry) => e.ref == ref
  }

  /** The ledger entries that reference one document, in posting order. */
  function EntriesOf(ledger: seq<Entry>, ref: Ref): seq<Entry> {
    Filter(ledger, RefersTo(ref))
  }

  predicate Fits(e: Entry, p: Posting) {
    && e.product == p.product
    && match p.move
       case Receive => e.change == p.qty && e.unitCost == p.cost && e.entryType == PurchaseReceipt
       case Increase => e.change == p.qty && e.unitCost == p.cost && e.entryType == AdjustmentIn
       case Decrease => -e.change == p.qty && e.unitCost == p.cost && e.entryType == AdjustmentOut
       case Recount =>
         && e.after == p.qty && e.unitCost == p.cost
         && e.entryType == if e.change >= 0 then AdjustmentIn else AdjustmentOut
       case Release => -e.change == p.qty && e.entryType == StockReleased
  }

  /** One entry per line, in line order, each recording what its line asked for. */
  ghost predicate AllFit(es: seq<Entry>, ps: seq<Posting>) {
    |es| == |ps| && forall i | 0 <= i < |ps| :: Fits(es[i], ps[i])
  }

  /** A document appends one fitting entry per line and leaves the ledger before them as it was. */
  lemma {:induction false} PostAllAppends(b: Books, ps: seq<Posting>, ref: Ref)
    requires PostAll(b, ps, ref).Ok?
    ensures
      var ledger := PostAll(b, ps, ref).value.ledger;
      && b.ledger <= ledger
      && AllFit(ledger[|b.ledger|..], ps)
      && forall e | e in ledger[|b.ledger|..] :: e.ref == ref
    decreases |ps|
  {
    if ps != [] {
      var next := Post(b, ps[0], ref).value;
      PostAllAppends(next, ps[1..], ref);
      var ledger := PostAll(next, ps[1..], ref).value.ledger;
      var n := |b.ledger|;
      assert ledger[n..] == [ledger[n]] + ledger[n + 1..];
      assert ledger[n] == next.ledger[n];
      forall i | 0 <= i < |ps| ensures Fits(ledger[n..][i], ps[i]) {
        if i > 0 {
          assert ledger[n..][i] == ledger[n + 1..][i - 1] && ps[i] == ps[1..][i - 1];
        }
      }
    }
  }

  /** Posting a document changes the entries of its own reference only. */
  lemma PostAllEntriesOf(b: Books, ps: seq<Posting>, ref: Ref, other: Ref)
    requires PostAll(b, ps, ref).Ok?
    ensures
      var ledger := PostAll(b, ps, ref).value.ledger;
      && b.ledger <= ledger
      && EntriesOf(ledger, other) ==
      EntriesOf(b.ledger, other) + if other == ref then ledger[|b.ledger|..] else []
  {
    PostAllAppends(b, ps, ref);
    var ledger := PostAll(b, ps, ref).value.ledger;
    var added := ledger[|b.ledger|..];
    assert ledger == b.ledger + added;
    FilterConcat(b.ledger, added, RefersTo(other));
    if other == ref {
      FilterAll(added, RefersTo(other));
    } else {
      FilterNone(added, RefersTo(other));
    }
  }

  // ------------------------------------------------------------------
  // Lines that take stock out: DECREASE adjustments and releases
  // ------------------------------------------------------------------

  function QtyFor(p: nat): Posting -> int {
    (x: Posting) => if x.product == p then x.qty else 0
  }

  /** The quantity all lines of a document together ask for one product. */
  function Demand(ps: seq<Posting>, p: nat): int {
    Sum(ps, QtyFor(p))
  }

  predicate Removal(p: Posting) {
    p.move.Decrease? || p.move.Release?
  }

  ghost predicate AllRemovals(ps: seq<Posting>) {
    forall i | 0 <= i < |ps| :: Removal(ps[i])
  }

  ghost predicate NoNegativeStock(stock: map<nat, Level>) {
    forall p: nat :: LevelOf(stock, p).qty >= 0
  }

  ghost predicate SameLevels(s: map<nat, Level>, t: map<nat, Level>) {
    forall p: nat :: LevelOf(s, p) == LevelOf(t, p)
  }

  ghost predicate Covered(stock: map<nat, Level>, ps: seq<Posting>) {
    forall p: nat :: Demand(ps, p) <= LevelOf(stock, p).qty
  }

  lemma DemandStep(ps: seq<Posting>, p: nat)
    requires ps != []
    ensures Demand(ps, p) == Demand(ps[1..], p) + if ps[0].product == p then ps[0].qty else 0
    ensures Demand(ps[1..], p) >= 0
  {
    SumNonNegative(ps[1..], QtyFor(p));
  }

  lemma RemovalStep(b: Books, x: Posting, ref: Ref)
    requires Removal(x)
    ensures Post(b, x, ref).Ok? <==> x.qty <= LevelOf(b.stock, x.product).qty
    ensures Post(b, x, ref).Ok? ==> forall p: nat ::
              LevelOf(Post(b, x, ref).value.stock, p) ==
              if p == x.product then Level(LevelOf(b.stock, p).qty - x.qty, LevelOf(b.stock, p).avg)
              else LevelOf(b.stock, p)
  {
  }

  lemma RemovalKeepsAverages(b: Books, x: Posting, ref: Ref)
    requires Removal(x) && Post(b, x, ref).Ok?
    ensures forall p: nat :: LevelOf(Post(b, x, ref).value.stock, p).avg == LevelOf(b.stock, p).avg
  {
  }

  /**
   * A document of removals is accepted exactly when every product's total over all its lines is on
   * hand. Then each product loses that total, and no average moves.
   */
  lemma {:induction false} RemovalsSucceedIff(b: Books, ps: seq<Posting>, ref: Ref)
    requires AllRemovals(ps) && NoNegativeStock(b.stock)
    ensures PostAll(b, ps, ref).Ok? <==> Covered(b.stock, ps)
    ensures PostAll(b, ps, ref).Ok? ==> forall p: nat ::
              LevelOf(PostAll(b, ps, ref).value.stock, p) ==
              Level(LevelOf(b.stock, p).qty - Demand(ps, p), LevelOf(b.stock, p).avg)
    decreases |ps|
  {
    if ps != [] {
      var x, rest := ps[0], ps[1..];
      RemovalStep(b, x, ref);
      forall p: nat
        ensures Demand(ps, p) == Demand(rest, p) + if x.product == p then x.qty else 0
        ensures Demand(rest, p) >= 0
      {
        DemandStep(ps, p);
      }
      if Post(b, x, ref).Ok? {
        var next := Post(b, x, ref).value;
        RemovalsSucceedIff(next, rest, ref);
        assert Covered(b.stock, ps) <==> Covered(next.stock, rest) by {
          RemovalCoverage(b, x, rest, ps, next);
        }
      } else {
        assert Demand(ps, x.product) > LevelOf(b.stock, x.product).qty;
      }
    }
  }

  lemma RemovalCoverage(b: Books, x: Posting, rest: seq<Posting>, ps: seq<Posting>, next: Books)
    requires forall p: nat :: Demand(ps, p) == Demand(rest, p) + if x.product == p then x.qty else 0
    requires forall p: nat ::
               LevelOf(next.stock, p).qty == LevelOf(b.stock, p).qty - if p == x.product then x.qty else 0
    ensures Covered(b.stock, ps) <==> Covered(next.stock, rest)
  {
  }

  /** Two documents that ask the same totals get the same verdict and leave the same rows. */
  lemma SameDemandSameOutcome(b: Books, ps: seq<Posting>, qs: seq<Posting>, ref: Ref)
    requires AllRemovals(ps) && AllRemovals(qs) && NoNegativeStock(b.stock)
    requires forall p: nat :: Demand(ps, p) == Demand(qs, p)
    ensures PostAll(b, ps, ref).Ok? <==> PostAll(b, qs, ref).Ok?
    ensures PostAll(b, ps, ref).Ok? ==>
              SameLevels(PostAll(b, ps, ref).value.stock, PostAll(b, qs, ref).value.stock)
  {
    RemovalsSucceedIff(b, ps, ref);
    RemovalsSucceedIff(b, qs, ref);
    assert Covered(b.stock, ps) <==> Covered(b.stock, qs);
  }

  /** The first pass of release approval: every line on its own is within the stock on hand. */
  predicate EachAvailable(stock: map<nat, Level>, ps: seq<Posting>) {
    forall i | 0 <= i < |ps| :: ps[i].qty <= LevelOf(stock, ps[i].product).qty
  }

  ghost predicate DistinctProducts(ps: seq<Posting>) {
    forall i, j | 0 <= i < j < |ps| :: ps[i].product != ps[j].product
  }

  /** No product is listed twice with a positive quantity. */
  ghost predicate NoDoubleDemand(ps: seq<Posting>) {
    forall i, j | 0 <= i < j < |ps| && ps[i].product == ps[j].product :: ps[i].qty == 0 || ps[j].qty == 0
  }

  lemma {:induction false} DemandOfOneLine(ps: seq<Posting>, p: nat)
    requires NoDoubleDemand(ps)
    ensures Demand(ps, p) == 0 || exists i | 0 <= i < |ps| :: ps[i].product == p && Demand(ps, p) == ps[i].qty
  {
    if ps != [] {
      var rest := ps[1..];
      forall i, j | 0 <= i < j < |rest| && rest[i].product == rest[j].product
        ensures rest[i].qty == 0 || rest[j].qty == 0
      {
        assert rest[i] == ps[i + 1] && rest[j] == ps[j + 1];
      }
      if QtyFor(p)(ps[0]) > 0 {
        forall i | 0 <= i < |rest| ensures QtyFor(p)(rest[i]) == 0 {
          assert rest[i] == ps[i + 1];
        }
        SumZero(rest, QtyFor(p));
        assert ps[0].product == p && Demand(ps, p) == ps[0].qty;
      } else {
        DemandOfOneLine(rest, p);
        if i :| 0 <= i < |rest| && rest[i].product == p && Demand(rest, p) == rest[i].qty {
          assert ps[i + 1] == rest[i];
        }
      }
    }
  }

  /** Covering the totals implies the first pass; unless a product is asked for twice the converse holds too. */
  lemma FirstPassVersusTotals(stock: map<nat, Level>, ps: seq<Posting>)
    requires NoNegativeStock(stock)
    ensures Covered(stock, ps) ==> EachAvailable(stock, ps)
    ensures NoDoubleDemand(ps) && EachAvailable(stock, ps) ==> Covered(stock, ps)
  {
    if Covered(stock, ps) {
      forall i | 0 <= i < |ps| ensures ps[i].qty <= LevelOf(stock, ps[i].product).qty {
        SumNonNegative(ps, QtyFor(ps[i].product));
        assert QtyFor(ps[i].product)(ps[i]) == ps[i].qty;
        assert Demand(ps, ps[i].product) <= LevelOf(stock, ps[i].product).qty;
      }
    }
    if NoDoubleDemand(ps) && EachAvailable(stock, ps) {
      forall p: nat ensures Demand(ps, p) <= LevelOf(stock, p).qty {
        DemandOfOneLine(ps, p);
      }
    }
  }

  lemma TwoLinesDemand(ps: seq<Posting>, p: nat, k: nat, m: nat)
    requires k < |ps| && m < |ps| && k != m && ps[k].product == p == ps[m].product
    ensures Demand(ps, p) >= ps[k].qty + ps[m].qty
  {
    WithoutSum(ps, k, QtyFor(p));
    var rest := Without(ps, k);
    SumNonNegative(rest, QtyFor(p));
    assert rest[if m < k then m else m - 1] == ps[m];
  }

  function Restock(ps: seq<Posting>): seq<Posting> {
    seq(|ps|, i requires 0 <= i < |ps| => Posting(ps[i].product, Increase, ps[i].qty, 0))
  }

  lemma {:induction false} RestockAdds(b: Books, ps: seq<Posting>, ref: Ref)
    requires NoNegativeStock(b.stock)
    ensures PostAll(b, Restock(ps), ref).Ok?
    ensures forall p: nat ::
              LevelOf(PostAll(b, Restock(ps), ref).value.stock, p).qty == LevelOf(b.stock, p).qty + Demand(ps, p)
    decreases |ps|
  {
    if ps != [] {
      assert Restock(ps)[1..] == Restock(ps[1..]);
      assert LevelOf(b.stock, ps[0].product).qty >= 0;
      var next := Post(b, Restock(ps)[0], ref).value;
      forall p: nat ensures LevelOf(next.stock, p).qty >= 0 {
        assert LevelOf(b.stock, p).qty >= 0;
      }
      RestockAdds(next, ps[1..], ref);
    }
  }

  /** Sound books that hold all of what the lines ask for, except that one unit of product p is missing. */
  lemma OneShort(ps: seq<Posting>, p: nat, ref: Ref) returns (b: Books)
    requires Demand(ps, p) > 0
    ensures Sound(b)
    ensures forall q: nat :: LevelOf(b.stock, q).qty == Demand(ps, q) - if q == p then 1 else 0
  {
    var empty := Books(map[], []);
    RestockAdds(empty, ps, ref);
    PostAllKeepsSound(empty, Restock(ps), ref);
    var full := PostAll(empty, Restock(ps), ref).value;
    var x := Posting(p, Decrease, 1, 0);
    RemovalStep(full, x, ref);
    PostKeepsSound(full, x, ref);
    b := Post(full, x, ref).value;
  }

  lemma SoundIsNotNegative(b: Books)
    requires Sound(b)
    ensures NoNegativeStock(b.stock)
  {
    forall p: nat ensures LevelOf(b.stock, p).qty >= 0 {
      assert LevelOf(b.stock, p) == Replay(b.ledger, p);
      ReplayNonNegative(b.ledger, p);
    }
  }

  /** With a product asked for twice there are books that pass the first pass and not the second. */
  lemma FirstPassMisses(ps: seq<Posting>, i: nat, j: nat, ref: Ref) returns (b: Books)
    requires AllRemovals(ps)
    requires i < j < |ps| && ps[i].product == ps[j].product && ps[i].qty > 0 && ps[j].qty > 0
    ensures Sound(b) && EachAvailable(b.stock, ps) && !PostAll(b, ps, ref).Ok?
  {
    var p := ps[i].product;
    TwoLinesDemand(ps, p, i, j);
    b := OneShort(ps, p, ref);
    forall k | 0 <= k < |ps| ensures ps[k].qty <= LevelOf(b.stock, ps[k].product).qty {
      if ps[k].product == p {
        TwoLinesDemand(ps, p, k, if k == i then j else i);
      } else {
        SumNonNegative(ps, QtyFor(ps[k].product));
        assert QtyFor(ps[k].product)(ps[k]) == ps[k].qty;
      }
    }
    SoundIsNotNegative(b);
    RemovalsSucceedIff(b, ps, ref);
    assert LevelOf(b.stock, p).qty < Demand(ps, p);
  }

  /** When no product is asked for twice the first pass guarantees that the deduction loop cannot fail. */
  lemma FirstPassSuffices(b: Books, ps: seq<Posting>, ref: Ref)
    requires AllRemovals(ps) && NoNegativeStock(b.stock)
    requires NoDoubleDemand(ps) && EachAvailable(b.stock, ps)
    ensures PostAll(b, ps, ref).Ok?
  {
    FirstPassVersusTotals(b.stock, ps);
    RemovalsSucceedIff(b, ps, ref);
  }

  /** What the first pass accepts the deduction loop can post, on whatever books. */
  ghost predicate FirstPassDecides(ps: seq<Posting>, ref: Ref) {
    forall b: Books | Sound(b) && EachAvailable(b.stock, ps) :: PostAll(b, ps, ref).Ok?
  }

  /** The first pass is enough exactly for documents that list no product twice with a positive quantity. */
  lemma FirstPassDecidesIff(ps: seq<Posting>, ref: Ref)
    requires AllRemovals(ps)
    ensures FirstPassDecides(ps, ref) <==> NoDoubleDemand(ps)
  {
    if NoDoubleDemand(ps) {
      forall b: Books | Sound(b) && EachAvailable(b.stock, ps) ensures PostAll(b, ps, ref).Ok? {
        SoundIsNotNegative(b);
        FirstPassSuffices(b, ps, ref);
      }
    } else {
      var i, j :| 0 <= i < j < |ps| && ps[i].product == ps[j].product && ps[i].qty != 0 && ps[j].qty != 0;
      var b := FirstPassMisses(ps, i, j, ref);
      assert Sound(b) && EachAvailable(b.stock, ps) && !PostAll(b, ps, ref).Ok?;
    }
  }

  // ------------------------------------------------------------------
  // Lines that put stock in, and recounts
  // ------------------------------------------------------------------

  ghost predicate NoRemovals(ps: seq<Posting>) {
    forall i | 0 <= i < |ps| :: !Removal(ps[i])
  }

  /** Receipts, increases and recounts never fail for lack of stock. */
  lemma {:induction false} AdditionsNeverFail(b: Books, ps: seq<Posting>, ref: Ref)
    requires NoRemovals(ps) && NoNegativeStock(b.stock)
    ensures PostAll(b, ps, ref).Ok?
    ensures NoNegativeStock(PostAll(b, ps, ref).value.stock)
    decreases |ps|
  {
    if ps != [] {
      var next := Post(b, ps[0], ref).value;
      forall p: nat ensures LevelOf(next.stock, p).qty >= 0 {
        assert LevelOf(b.stock, p).qty >= 0;
      }
      AdditionsNeverFail(next, ps[1..], ref);
    }
  }

  predicate AllRecounts(ps: seq<Posting>) {
    forall i | 0 <= i < |ps| :: ps[i].move.Recount?
  }

  /** The last quantity a count sheet lists for a product, or what was there when it lists none. */
  function LastCount(ps: seq<Posting>, p: nat, otherwise: int): int
    decreases |ps|
  {
    if ps == [] then otherwise
    else LastCount(ps[1..], p, if ps[0].product == p then ps[0].qty else otherwise)
  }

  /** A recount leaves each product at its last listed count, whatever the stock was before. */
  lemma {:induction false} RecountSetsLastCount(b: Books, ps: seq<Posting>, ref: Ref, p: nat)
    requires AllRecounts(ps) && NoNegativeStock(b.stock)
    ensures PostAll(b, ps, ref).Ok?
    ensures LevelOf(PostAll(b, ps, ref).value.stock, p).qty == LastCount(ps, p, LevelOf(b.stock, p).qty)
    decreases |ps|
  {
    if ps != [] {
      var next := Post(b, ps[0], ref).value;
      forall q: nat ensures LevelOf(next.stock, q).qty >= 0 {
        assert LevelOf(b.stock, q).qty >= 0;
      }
      RecountSetsLastCount(next, ps[1..], ref, p);
    }
  }

  ghost predicate AtCount(stock: map<nat, Level>, ps: seq<Posting>) {
    forall i | 0 <= i < |ps| :: LevelOf(stock, ps[i].product).qty == ps[i].qty
  }

  /** Counting what is already there appends zero changes only and moves no quantity and no average. */
  lemma {:induction false} RecountAtCountIsIdle(b: Books, ps: seq<Posting>, ref: Ref)
    requires AllRecounts(ps) && AtCount(b.stock, ps)
    ensures PostAll(b, ps, ref).Ok?
    ensures
      var next := PostAll(b, ps, ref).value;
      && SameLevels(next.stock, b.stock)
      && b.ledger <= next.ledger
      && forall e | e in next.ledger[|b.ledger|..] :: e.change == 0
    decreases |ps|
  {
    if ps != [] {
      var next := Post(b, ps[0], ref).value;
      assert SameLevels(next.stock, b.stock);
      forall i | 0 <= i < |ps[1..]| ensures LevelOf(next.stock, ps[1..][i].product).qty == ps[1..][i].qty {
        assert ps[1..][i] == ps[i + 1];
        assert LevelOf(next.stock, ps[i + 1].product) == LevelOf(b.stock, ps[i + 1].product);
      }
      RecountAtCountIsIdle(next, ps[1..], ref);
      var ledger := PostAll(b, ps, ref).value.ledger;
      var n := |b.ledger|;
      assert ledger[n..] == [ledger[n]] + ledger[n + 1..];
      assert ledger[n] == next.ledger[n];
    }
  }

  lemma {:induction false} LastCountOfDistinct(ps: seq<Posting>, i: nat, otherwise: int)
    requires DistinctProducts(ps) && i < |ps|
    ensures LastCount(ps, ps[i].product, otherwise) == ps[i].qty
    decreases |ps|
  {
    var rest := ps[1..];
    forall j, k | 0 <= j < k < |rest| ensures rest[j].product != rest[k].product {
      assert rest[j] == ps[j + 1] && rest[k] == ps[k + 1];
    }
    if i > 0 {
      assert rest[i - 1] == ps[i];
      LastCountOfDistinct(rest, i - 1, otherwise);
    } else {
      LastCountUnlisted(rest, ps[0].product, ps[0].qty);
    }
  }

  lemma {:induction false} LastCountUnlisted(ps: seq<Posting>, p: nat, otherwise: int)
    requires forall i | 0 <= i < |ps| :: ps[i].product != p
    ensures LastCount(ps, p, otherwise) == otherwise
    decreases |ps|
  {
    if ps != [] {
      LastCountUnlisted(ps[1..], p, otherwise);
    }
  }

  /** Repeating a recount of distinct products appends only zero changes and keeps every average. */
  lemma RecountTwice(b: Books, ps: seq<Posting>, ref: Ref, again: Ref)
    requires AllRecounts(ps) && NoNegativeStock(b.stock) && DistinctProducts(ps)
    ensures PostAll(b, ps, ref).Ok?
    ensures
      var once := PostAll(b, ps, ref).value;
      && PostAll(once, ps, again).Ok?
      && SameLevels(PostAll(once, ps, again).value.stock, once.stock)
      && once.ledger <= PostAll(once, ps, again).value.ledger
      && forall e | e in PostAll(once, ps, again).value.ledger[|once.ledger|..] :: e.change == 0
  {
    RecountSetsLastCount(b, ps, ref, 0);
    var once := PostAll(b, ps, ref).value;
    forall i | 0 <= i < |ps| ensures LevelOf(once.stock, ps[i].product).qty == ps[i].qty {
      RecountSetsLastCount(b, ps, ref, ps[i].product);
      LastCountOfDistinct(ps, i, LevelOf(b.stock, ps[i].product).qty);
    }
    RecountAtCountIsIdle(once, ps, again);
  }

  // ------------------------------------------------------------------
  // Ledger totals by document
  // ------------------------------------------------------------------

  /** A measure of entries, restricted to those that reference documents of one kind. */
  function OfKind(kind: RefKind, f: Entry -> int): Entry -> int {
    (e: Entry) => if e.ref.kind == kind then f(e) else 0
  }

  /** The measure summed document by document over the ids below n. */
  function ByDocument(ledger: seq<Entry>, kind: RefKind, f: Entry -> int, n: nat): int {
    if n == 0 then 0
    else ByDocument(ledger, kind, f, n - 1) + Sum(EntriesOf(ledger, Ref(kind, n - 1)), f)
  }

  lemma {:induction false} ByDocumentStep(ledger: seq<Entry>, kind: RefKind, f: Entry -> int, n: nat)
    requires ledger != []
    ensures
      var e := ledger[0];
      ByDocument(ledger, kind, f, n) ==
      ByDocument(ledger[1..], kind, f, n) + if e.ref.id < n then OfKind(kind, f)(e) else 0
  {
    if n > 0 {
      ByDocumentStep(ledger, kind, f, n - 1);
      var ref := Ref(kind, n - 1);
      if ledger[0].ref == ref {
        assert EntriesOf(ledger, ref)[1..] == EntriesOf(ledger[1..], ref);
      }
    }
  }

  /** Summing by entry and summing by document agree once every reference is below n. */
  lemma {:induction false} SumByDocument(ledger: seq<Entry>, kind: RefKind, f: Entry -> int, n: nat)
    requires forall e | e in ledger && e.ref.kind == kind :: e.ref.id < n
    ensures Sum(ledger, OfKind(kind, f)) == ByDocument(ledger, kind, f, n)
  {
    if ledger == [] {
      ByDocumentEmpty(kind, f, n);
    } else {
      SumByDocument(ledger[1..], kind, f, n);
      ByDocumentStep(ledger, kind, f, n);
    }
  }

  lemma {:induction false} ByDocumentEmpty(kind: RefKind, f: Entry -> int, n: nat)
    ensures ByDocument([], kind, f, n) == 0
  {
    if n > 0 {
      ByDocumentEmpty(kind, f, n - 1);
    }
  }

  /** Every entry belongs to a receipt, an adjustment or a release. */
  lemma {:induction false} SumByKind(ledger: seq<Entry>, f: Entry -> int)
    ensures Sum(ledger, f) ==
            Sum(ledger, OfKind(GrnRef, f)) + Sum(ledger, OfKind(AdjustmentRef, f))
            + Sum(ledger, OfKind(ReleaseRef, f))
  {
    if ledger != [] {
      SumByKind(ledger[1..], f);
    }
  }

  /** The net change a fitting set of entries makes, when no line is a recount. */
  lemma NetOfFitting(es: seq<Entry>, ps: seq<Posting>, p: nat)
    requires AllFit(es, ps)
    ensures NoRemovals(ps) && (forall i | 0 <= i < |ps| :: !ps[i].move.Recount?) ==>
              Sum(es, ChangeFor(p)) == Demand(ps, p)
    ensures AllRemovals(ps) ==> Sum(es, ChangeFor(p)) == -Demand(ps, p)
  {
    if NoRemovals(ps) && (forall i | 0 <= i < |ps| :: !ps[i].move.Recount?) {
      SumPointwise(es, ps, ChangeFor(p), QtyFor(p));
    }
    if AllRemovals(ps) {
      SumNegated(es, ps, p);
    }
  }

  lemma {:induction false} SumNegated(es: seq<Entry>, ps: seq<Posting>, p: nat)
    requires AllFit(es, ps) && AllRemovals(ps)
    ensures Sum(es, ChangeFor(p)) == -Sum(ps, QtyFor(p))
    decreases |ps|
  {
    if ps != [] {
      assert Fits(es[0], ps[0]) && Removal(ps[0]);
      forall i | 0 <= i < |ps[1..]| ensures Fits(es[1..][i], ps[1..][i]) {
        assert Fits(es[i + 1], ps[i + 1]);
      }
      SumNegated(es[1..], ps[1..], p);
    }
  }
}
