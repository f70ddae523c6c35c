/**
 * The inventory engine: the stock snapshot, the append-only ledger, and the one function every
 * stock change goes through.
 */
module Stock {
  import opened Results
  import opened Rounding
  import opened Sums

  /** A row of the inventory table: quantity_on_hand and average_cost. */
  datatype Level = Level(qty: int, avg: int)

  datatype RefKind = GrnRef | AdjustmentRef | ReleaseRef
  datatype Ref = Ref(kind: RefKind, id: nat)
  datatype EntryType = PurchaseReceipt | AdjustmentIn | AdjustmentOut | StockReleased

  datatype Entry = Entry(
    product: nat, entryType: EntryType, before: int, change: int, after: int, unitCost: int, ref: Ref)

  datatype Books = Books(stock: map<nat, Level>, ledger: seq<Entry>)

  /** What a document line asks for: a receipt, one of the three adjustment kinds, or a release. */
  datatype Move = Receive | Increase | Decrease | Recount | Release
  datatype Posting = Posting(product: nat, move: Move, qty: nat, cost: nat)

  /** A product without a row reads as zero stock, which is also the row get_or_create inserts. */
  function LevelOf(stock: map<nat, Level>, p: nat): Level {
    if p in stock then stock[p] else Level(0, 0)
  }

  predicate Costed(change: int, unitCost: int) {
    change > 0 && unitCost > 0
  }

  /** The row after a change; the average moves only on an increase that carries a cost. */
  function Next(l: Level, change: int, unitCost: int): Level {
    var after := l.qty + change;
    Level(after,
          if !Costed(change, unitCost) then l.avg
          else if after > 0 then Round(l.qty * l.avg + change * unitCost, after)
          else unitCost)
  }

  function ChangeOf(p: Posting, onHand: int): int {
    match p.move
    case Receive | Increase => p.qty
    case Decrease | Release => 0 - p.qty
    case Recount => p.qty - onHand
  }

  function TypeOf(move: Move, change: int): EntryType {
    match move
    case Receive => PurchaseReceipt
    case Increase => AdjustmentIn
    case Decrease => AdjustmentOut
    case Recount => if change >= 0 then AdjustmentIn else AdjustmentOut
    case Release => StockReleased
  }

  /** A release is costed at the average of the moment; every other line carries its own cost. */
  function CostOf(p: Posting, l: Level): int {
    if p.move.Release? then l.avg else p.cost
  }

  function EntryFor(l: Level, p: Posting, ref: Ref): Entry {
    var change := ChangeOf(p, l.qty);
    Entry(p.product, TypeOf(p.move, change), l.qty, change, l.qty + change, CostOf(p, l), ref)
  }

  function Post(b: Books, p: Posting, ref: Ref): Result<Books> {
    var l := LevelOf(b.stock, p.product);
    var change := ChangeOf(p, l.qty);
    if l.qty + change < 0 then Err(Invalid)
    else Ok(Books(b.stock[p.product := Next(l, change, CostOf(p, l))], b.ledger + [EntryFor(l, p, ref)]))
  }

  function PostAll(b: Books, ps: seq<Posting>, ref: Ref): Result<Books>
    decreases |ps|
  {
    if ps == [] then Ok(b)
    else match Post(b, ps[0], ref)
      case Err(e) => Err(e)
      case Ok(next) => PostAll(next, ps[1..], ref)
  }

  /** How much a line brings in; a removal brings in less than nothing, a count what was missing. */
  predicate Brings(p: Posting, onHand: int, change: int) {
    && (p.move.Receive? || p.move.Increase? ==> change == p.qty)
    && (p.move.Decrease? || p.move.Release? ==> onHand == (onHand + change) + p.qty)
    && (p.move.Recount? ==> onHand + change == p.qty)
  }

  /**
   * One line against the books. It is refused iff the product would go below zero. Otherwise the product
   * has what it had and what the line brings; its average is the nearest-even weighted one when stock
   * comes in at a cost and stays as it was in every other case; no other product moves; and one entry says
   * all this, at the line's cost, or at the average for a release.
   */
  lemma PostLaw(b: Books, p: Posting, ref: Ref, change: int)
    requires Brings(p, LevelOf(b.stock, p.product).qty, change) && LevelOf(b.stock, p.product).qty >= 0
    ensures
      var was := LevelOf(b.stock, p.product);
      var cost := if p.move.Release? then was.avg else p.cost;
      && (Post(b, p, ref).Ok? <==> was.qty + change >= 0)
      && (Post(b, p, ref).Err? ==> Post(b, p, ref) == Err(Invalid))
      && (Post(b, p, ref).Ok? ==>
            var next := Post(b, p, ref).value;
            var now := LevelOf(next.stock, p.product);
            && now.qty == was.qty + change
            && (change > 0 && cost > 0 ==> NearestEven(was.qty * was.avg + change * cost, now.qty, now.avg))
            && (change <= 0 || cost == 0 ==> now.avg == was.avg)
            && (forall q: nat | q != p.product :: LevelOf(next.stock, q) == LevelOf(b.stock, q))
            && |next.ledger| == |b.ledger| + 1 && next.ledger[..|b.ledger|] == b.ledger
            && var e := next.ledger[|b.ledger|];
            && e.product == p.product && e.before == was.qty && e.change == change && e.after == now.qty
            && e.unitCost == cost && e.ref == ref)
  {
    var l := LevelOf(b.stock, p.product);
    if change > 0 && p.cost > 0 {
      RoundIsNearestEven(l.qty * l.avg + change * p.cost, l.qty + change);
    }
  }

  // ------------------------------------------------------------------
  // The snapshot is a replay of the ledger
  // ------------------------------------------------------------------

  /** The row of a product as rebuilt from its ledger entries alone. */
  function Replay(ledger: seq<Entry>, p: nat): Level
    decreases |ledger|
  {
    if ledger == [] then Level(0, 0)
    else
      var e := ledger[|ledger| - 1];
      var l := Replay(ledger[..|ledger| - 1], p);
      if e.product == p then Next(l, e.change, e.unitCost) else l
  }

  predicate Linked(ledger: seq<Entry>, i: nat)
    requires i < |ledger|
  {
    var e := ledger[i];
    && e.before == Replay(ledger[..i], e.product).qty
    && e.after == e.before + e.change
    && e.after >= 0
    && e.unitCost >= 0
  }

  ghost predicate Chained(ledger: seq<Entry>) {
    forall i | 0 <= i < |ledger| :: Linked(ledger, i)
  }

  ghost predicate Mirrors(stock: map<nat, Level>, ledger: seq<Entry>) {
    forall p: nat :: LevelOf(stock, p) == Replay(ledger, p)
  }

  ghost predicate Sound(b: Books) {
    Chained(b.ledger) && Mirrors(b.stock, b.ledger)
  }

  lemma ReplayAppend(ledger: seq<Entry>, e: Entry, p: nat)
    ensures Replay(ledger + [e], p) ==
            if e.product == p then Next(Replay(ledger, p), e.change, e.unitCost) else Replay(ledger, p)
  {
    assert (ledger + [e])[..|ledger|] == ledger;
  }

  lemma ChainedPrefix(ledger: seq<Entry>, n: nat)
    requires Chained(ledger) && n <= |ledger|
    ensures Chained(ledger[..n])
  {
    forall i | 0 <= i < n ensures Linked(ledger[..n], i) {
      assert Linked(ledger, i);
      assert ledger[..n][..i] == ledger[..i];
    }
  }

  lemma ChainedAppend(ledger: seq<Entry>, e: Entry)
    requires Chained(ledger)
    requires e.before == Replay(ledger, e.product).qty && e.after == e.before + e.change
    requires e.after >= 0 && e.unitCost >= 0
    ensures Chained(ledger + [e])
  {
    var longer := ledger + [e];
    forall i | 0 <= i < |longer| ensures Linked(longer, i) {
      assert longer[..i] == ledger[..i];
      if i < |ledger| {
        assert Linked(ledger, i);
      } else {
        assert ledger[..i] == ledger;
      }
    }
  }

  lemma WeightedBetween(qty: int, low: int, change: int, high: int)
    requires qty >= 0 && change >= 0 && low <= high
    ensures low * (qty + change) <= qty * low + change * high <= high * (qty + change)
    ensures low * (qty + change) <= qty * high + change * low <= high * (qty + change)
  {
    MulMonotone(change, low, high);
    MulMonotone(qty, low, high);
    assert low * (qty + change) == qty * low + change * low;
    assert high * (qty + change) == qty * high + change * high;
  }

  /** The weighted average of two costs lies between them, also after rounding. */
  lemma AverageBetween(l: Level, change: int, unitCost: int)
    requires l.qty >= 0 && Costed(change, unitCost)
    ensures l.avg <= unitCost ==> l.avg <= Next(l, change, unitCost).avg <= unitCost
    ensures unitCost <= l.avg ==> unitCost <= Next(l, change, unitCost).avg <= l.avg
    ensures l.qty == 0 ==> Next(l, change, unitCost).avg == unitCost
  {
    var total := l.qty * l.avg + change * unitCost;
    if l.avg <= unitCost {
      WeightedBetween(l.qty, l.avg, change, unitCost);
      RoundBetween(l.avg, total, unitCost, l.qty + change);
    } else {
      WeightedBetween(l.qty, unitCost, change, l.avg);
      RoundBetween(unitCost, total, l.avg, l.qty + change);
    }
    if l.qty == 0 {
      RoundOnGrid(unitCost, change);
    }
  }

  /** A costed increase changes quantity times average by its own value, up to half a unit per unit held. */
  lemma ValueStep(l: Level, change: int, unitCost: int)
    requires l.qty >= 0
    ensures
      var now := Next(l, change, unitCost);
      if Costed(change, unitCost) then
        -now.qty <= 2 * (now.qty * now.avg - (l.qty * l.avg + change * unitCost)) <= now.qty
      else
        now.qty * now.avg == l.qty * l.avg + change * l.avg
  {
    if Costed(change, unitCost) {
      RoundError(l.qty * l.avg + change * unitCost, l.qty + change);
    }
  }

  lemma {:induction false} ReplayNonNegative(ledger: seq<Entry>, p: nat)
    requires Chained(ledger)
    ensures Replay(ledger, p).qty >= 0 && Replay(ledger, p).avg >= 0
    decreases |ledger|
  {
    if ledger != [] {
      var n := |ledger| - 1;
      ChainedPrefix(ledger, n);
      ReplayNonNegative(ledger[..n], p);
      var e, l := ledger[n], Replay(ledger[..n], p);
      assert Linked(ledger, n);
      if e.product == p && Costed(e.change, e.unitCost) {
        AverageBetween(l, e.change, e.unitCost);
      }
    }
  }

  /** One accepted change keeps the ledger chained and the snapshot equal to its replay. */
  lemma PostKeepsSound(b: Books, p: Posting, ref: Ref)
    requires Sound(b) && Post(b, p, ref).Ok?
    ensures Sound(Post(b, p, ref).value)
  {
    var l := LevelOf(b.stock, p.product);
    var e := EntryFor(l, p, ref);
    ReplayNonNegative(b.ledger, p.product);
    ChainedAppend(b.ledger, e);
    var next := Post(b, p, ref).value;
    forall q: nat ensures LevelOf(next.stock, q) == Replay(next.ledger, q) {
      ReplayAppend(b.ledger, e, q);
      assert LevelOf(b.stock, q) == Replay(b.ledger, q);
    }
  }

  lemma {:induction false} PostAllKeepsSound(b: Books, ps: seq<Posting>, ref: Ref)
    requires Sound(b) && PostAll(b, ps, ref).Ok?
    ensures Sound(PostAll(b, ps, ref).value)
    decreases |ps|
  {
    if ps != [] {
      PostKeepsSound(b, ps[0], ref);
      PostAllKeepsSound(Post(b, ps[0], ref).value, ps[1..], ref);
    }
  }

  // ------------------------------------------------------------------
  // What a chained ledger says about one product
  // ------------------------------------------------------------------

  function ChangeFor(p: nat): Entry -> int {
    (e: Entry) => if e.product == p then e.change else 0
  }

  /** The quantity_after of the newest entry of a product, zero when it has none. */
  function LastAfter(ledger: seq<Entry>, p: nat): int
    decreases |ledger|
  {
    if ledger == [] then 0
    else
      var e := ledger[|ledger| - 1];
      if e.product == p then e.after else LastAfter(ledger[..|ledger| - 1], p)
  }

  /** On-hand stock is the sum of the changes and also the newest quantity_after. */
  lemma {:induction false} OnHandIsSumAndLast(ledger: seq<Entry>, p: nat)
    requires Chained(ledger)
    ensures Replay(ledger, p).qty == Sum(ledger, ChangeFor(p)) == LastAfter(ledger, p)
    decreases |ledger|
  {
    if ledger != [] {
      var n := |ledger| - 1;
      ChainedPrefix(ledger, n);
      OnHandIsSumAndLast(ledger[..n], p);
      assert ledger == ledger[..n] + [ledger[n]];
      SumAppend(ledger[..n], ledger[n], ChangeFor(p));
      assert Linked(ledger, n);
    }
  }

  /** The chain itself: every entry starts where the previous entry of its product ended. */
  lemma EntriesChain(ledger: seq<Entry>, i: nat)
    requires Chained(ledger) && i < |ledger|
    ensures ledger[i].before == LastAfter(ledger[..i], ledger[i].product)
    ensures ledger[i].before + ledger[i].change == ledger[i].after >= 0
  {
    assert Linked(ledger, i);
    ChainedPrefix(ledger, i);
    OnHandIsSumAndLast(ledger[..i], ledger[i].product);
  }

  /**
   * The value posted for a product, in units of 10^-8: a costed increase counts at its own cost,
   * everything else at the running average.
   */
  function PostedValue(ledger: seq<Entry>, p: nat): int
    decreases |ledger|
  {
    if ledger == [] then 0
    else
      var e, rest := ledger[|ledger| - 1], ledger[..|ledger| - 1];
      if e.product != p then PostedValue(rest, p)
      else PostedValue(rest, p)
           + e.change * (if Costed(e.change, e.unitCost) then e.unitCost else Replay(rest, p).avg)
  }

  function RoundingRoom(p: nat): Entry -> int {
    (e: Entry) => if e.product == p && Costed(e.change, e.unitCost) then e.after else 0
  }

  /**
   * Valuation over a whole run: on-hand quantity times average cost differs from the posted value
   * by at most half a unit of cost per unit held at each costed increase.
   */
  lemma {:induction false} ValuationError(ledger: seq<Entry>, p: nat)
    requires Chained(ledger)
    ensures
      var l := Replay(ledger, p);
      -Sum(ledger, RoundingRoom(p)) <= 2 * (l.qty * l.avg - PostedValue(ledger, p)) <= Sum(ledger, RoundingRoom(p))
    decreases |ledger|
  {
    if ledger != [] {
      var n := |ledger| - 1;
      var e, rest := ledger[n], ledger[..n];
      var l, now := Replay(rest, p), Replay(ledger, p);
      ChainedPrefix(ledger, n);
      ValuationError(rest, p);
      assert ledger == rest + [e];
      SumAppend(rest, e, RoundingRoom(p));
      if e.product == p {
        assert Linked(ledger, n);
        ReplayNonNegative(rest, p);
        ValueStep(l, e.change, e.unitCost);
      }
    }
  }

  ghost predicate IncreasesWithin(ledger: seq<Entry>, p: nat, lo: int, hi: int) {
    forall i | 0 <= i < |ledger| && ledger[i].product == p && ledger[i].change > 0 ::
      lo <= ledger[i].unitCost <= hi
  }

  ghost predicate HasIncrease(ledger: seq<Entry>, p: nat) {
    exists i | 0 <= i < |ledger| :: ledger[i].product == p && ledger[i].change > 0
  }

  /**
   * Over any run the average stays between the smallest and the largest unit cost of the product's
   * increases so far, zero-cost ones included; before the first increase the row is empty.
   */
  lemma {:induction false} AverageWithinCosts(ledger: seq<Entry>, p: nat, lo: int, hi: int)
    requires Chained(ledger) && IncreasesWithin(ledger, p, lo, hi)
    ensures HasIncrease(ledger, p) ==> lo <= Replay(ledger, p).avg <= hi
    ensures !HasIncrease(ledger, p) ==> Replay(ledger, p) == Level(0, 0)
    decreases |ledger|
  {
    if ledger != [] {
      var n := |ledger| - 1;
      var e, rest := ledger[n], ledger[..n];
      ChainedPrefix(ledger, n);
      assert Linked(ledger, n);
      assert IncreasesWithin(rest, p, lo, hi) by {
        forall i | 0 <= i < n && rest[i].product == p && rest[i].change > 0
          ensures lo <= rest[i].unitCost <= hi
        {
          assert ledger[i] == rest[i];
        }
      }
      AverageWithinCosts(rest, p, lo, hi);
      ReplayNonNegative(rest, p);
      IncreaseAppend(rest, e, p);
      assert ledger == rest + [e];
      if e.product == p && Costed(e.change, e.unitCost) {
        AverageBetween(Replay(rest, p), e.change, e.unitCost);
      }
    }
  }

  lemma IncreaseAppend(ledger: seq<Entry>, e: Entry, p: nat)
    ensures HasIncrease(ledger + [e], p) <==> HasIncrease(ledger, p) || (e.product == p && e.change > 0)
  {
    var longer := ledger + [e];
    if HasIncrease(ledger, p) {
      var i :| 0 <= i < |ledger| && ledger[i].product == p && ledger[i].change > 0;
      assert longer[i] == ledger[i];
    }
    assert longer[|ledger|] == e;
    if HasIncrease(longer, p) {
      var i :| 0 <= i < |longer| && longer[i].product == p && longer[i].change > 0;
      assert i < |ledger| ==> ledger[i] == longer[i];
    }
  }
}
