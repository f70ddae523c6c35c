/**
 * The services as they run: methods that change the tables step by step, in loops, and restore them
 * when a loop fails half way. Each method is proved to produce exactly the state, or exactly the
 * error, of its specification.
 */
module Database {
  import opened Results
  import opened Rounding
  import opened Sums
  import opened Stock
  import opened Postings
  import opened Tables
  import Adj = Adjustments
  import Rel = Releases
  import Proc = Procurement
  import Sys = System

  /** The new state is the specified one on success; on an error it is the old one. */
  predicate Answers(spec: Result<State>, before: State, r: Result<()>, after: State) {
    match spec
    case Ok(s) => r.Ok? && after == s
    case Err(e) => r == Err(e) && after == before
  }

  class Db {
    var stock: map<nat, Level>
    var ledger: seq<Entry>
    var receipts: seq<Receipt>
    var clock: nat
    var pos: seq<PurchaseOrder>
    var grns: seq<Grn>
    var adjustments: seq<Adjustment>
    var releases: seq<StockRelease>
    var products: set<nat>
    var suppliers: set<nat>

    function Snapshot(): State
      reads this
    {
      State(Books(stock, ledger), receipts, clock, pos, grns, adjustments, releases, products, suppliers)
    }

    constructor ()
      ensures Snapshot() == EMPTY
    {
      stock, ledger, receipts, clock := map[], [], [], 0;
      pos, grns, adjustments, releases := [], [], [], [];
      products, suppliers := {}, {};
    }

    // ------------------------------------------------------------------
    // The inventory engine
    // ------------------------------------------------------------------

    /** _apply_inventory_change on the row of a product; it refuses a change below zero. */
    method ApplyInventoryChange(product: nat, change: int, unitCost: int, entryType: EntryType, ref: Ref)
      returns (ok: bool)
      modifies `stock, `ledger
      ensures
        var l := LevelOf(old(stock), product);
        && (ok <==> l.qty + change >= 0)
        && (ok ==>
              && stock == old(stock)[product := Next(l, change, unitCost)]
              && ledger == old(ledger) + [Entry(product, entryType, l.qty, change, l.qty + change, unitCost, ref)])
        && (!ok ==> stock == old(stock) && ledger == old(ledger))
    {
      var row := LevelOf(stock, product);
      var before := row.qty;
      var after := before + change;
      if after < 0 {
        return false;
      }
      if change > 0 && unitCost > 0 {
        var totalValue := before * row.avg + change * unitCost;
        row := row.(avg := if after > 0 then Round(totalValue, after) else unitCost);
      }
      row := row.(qty := after);
      stock := stock[product := row];
      ledger := ledger + [Entry(product, entryType, before, change, after, unitCost, ref)];
      return true;
    }

    /** The loop over get_active that create and update run through before they write items. */
    method CheckProducts(ids: seq<nat>) returns (r: Result<()>)
      ensures r == if forall i | 0 <= i < |ids| :: ids[i] in products then Ok(()) else Err(NotFound)
    {
      for i := 0 to |ids|
        invariant forall k | 0 <= k < i :: ids[k] in products
      {
        if ids[i] !in products {
          return Err(NotFound);
        }
      }
      return Ok(());
    }

    /** validate_unique_products of the request schemas. */
    static method CheckUnique(ids: seq<nat>) returns (r: Result<()>)
      ensures r == if exists i, j | 0 <= i < j < |ids| :: ids[i] == ids[j] then Err(Invalid) else Ok(())
    {
      SizeOfElements(ids);
      if |ids| != |Elements(ids)| {
        return Err(Invalid);
      }
      return Ok(());
    }

    // ------------------------------------------------------------------
    // Stock adjustments
    // ------------------------------------------------------------------

    /** get_active, and the status guard every call on a document starts with. */
    method FindAdjustment(id: nat, allowed: set<Status>) returns (r: Result<Adjustment>)
      ensures r.Ok? <==> LiveAdjustment(Snapshot(), id) && adjustments[id].status in allowed
      ensures r.Ok? ==> r.value == adjustments[id]
      ensures r.Err? ==> r.error == if LiveAdjustment(Snapshot(), id) then Invalid else NotFound
    {
      if id >= |adjustments| || adjustments[id].deleted {
        return Err(NotFound);
      }
      if adjustments[id].status !in allowed {
        return Err(Invalid);
      }
      return Ok(adjustments[id]);
    }

    /** The inserts of the items, one by one. */
    method AddAdjustmentItems(id: nat, lines: seq<AdjustmentLine>)
      requires id < |adjustments| && adjustments[id].lines == []
      modifies `adjustments
      ensures adjustments == old(adjustments)[id := old(adjustments)[id].(lines := lines)]
    {
      for i := 0 to |lines|
        invariant adjustments == old(adjustments)[id := old(adjustments)[id].(lines := lines[..i])]
      {
        assert lines[..i + 1] == lines[..i] + [lines[i]];
        adjustments := adjustments[id := adjustments[id].(lines := adjustments[id].lines + [lines[i]])];
      }
      assert lines[..|lines|] == lines;
    }

    /** The schema's checks, the loop over the products, the new row, and the loop over its items. */
    method CreateAdjustment(kind: AdjustmentType, lines: seq<AdjustmentLine>) returns (r: Result<()>)
      modifies `adjustments
      ensures Answers(Adj.Create(old(Snapshot()), kind, lines), old(Snapshot()), r, Snapshot())
    {
      if lines == [] {
        return Err(Invalid);
      }
      var ids := seq(|lines|, i requires 0 <= i < |lines| => lines[i].product);
      assert forall i | 0 <= i < |lines| :: ids[i] == lines[i].product;
      var _ :- CheckUnique(ids);
      var _ :- CheckProducts(ids);
      adjustments := adjustments + [Adjustment(kind, Draft, false, [])];
      AddAdjustmentItems(|adjustments| - 1, lines);
      return Ok(());
    }

    /** The kind is written before the products are checked; a late refusal restores the row. */
    method UpdateAdjustment(id: nat, kind: Option<AdjustmentType>, lines: Option<seq<AdjustmentLine>>)
      returns (r: Result<()>)
      modifies `adjustments
      ensures Answers(Adj.Update(old(Snapshot()), id, kind, lines), old(Snapshot()), r, Snapshot())
    {
      var a :- FindAdjustment(id, {Draft});
      var saved := adjustments;
      if kind.Some? {
        adjustments := adjustments[id := a.(kind := kind.value)];
      }
      if lines.Some? {
        var ids := seq(|lines.value|, i requires 0 <= i < |lines.value| => lines.value[i].product);
        assert forall i | 0 <= i < |lines.value| :: ids[i] == lines.value[i].product;
        var checked := CheckProducts(ids);
        if checked.Err? {
          adjustments := saved;
          return checked;
        }
        adjustments := adjustments[id := adjustments[id].(lines := [])];
        AddAdjustmentItems(id, lines.value);
      }
      return Ok(());
    }

    method DeleteAdjustment(id: nat) returns (r: Result<()>)
      modifies `adjustments
      ensures Answers(Adj.Delete(old(Snapshot()), id), old(Snapshot()), r, Snapshot())
    {
      var a :- FindAdjustment(id, {Draft});
      adjustments := adjustments[id := a.(deleted := true)];
      return Ok(());
    }

    method SubmitAdjustment(id: nat) returns (r: Result<()>)
      modifies `adjustments
      ensures Answers(Adj.Submit(old(Snapshot()), id), old(Snapshot()), r, Snapshot())
    {
      var a :- FindAdjustment(id, {Draft});
      if a.lines == [] {
        return Err(Invalid);
      }
      adjustments := adjustments[id := a.(status := Submitted)];
      return Ok(());
    }

    /** One round of the adjustment loop: find the direction, apply the change. */
    method PostAdjustmentLine(kind: AdjustmentType, x: AdjustmentLine, ref: Ref) returns (ok: bool)
      modifies `stock, `ledger
      ensures
        var spec := Post(Books(old(stock), old(ledger)), Posting(x.product, MoveOf(kind), x.qty, x.cost), ref);
        && (spec.Ok? ==> ok && Books(stock, ledger) == spec.value)
        && (spec.Err? ==> !ok && spec.error == Invalid)
    {
      var change: int;
      var entryType: EntryType;
      match kind {
        case ByIncrease =>
          change, entryType := x.qty, AdjustmentIn;
        case ByDecrease =>
          change, entryType := 0 - x.qty, AdjustmentOut;
        case ByRecount =>
          change := x.qty - LevelOf(stock, x.product).qty;
          entryType := if change >= 0 then AdjustmentIn else AdjustmentOut;
      }
      ok := ApplyInventoryChange(x.product, change, x.cost, entryType, ref);
    }

    /** Line by line, stopping at the first failure. */
    method PostAdjustment(a: Adjustment, ref: Ref) returns (ok: bool)
      modifies `stock, `ledger
      ensures
        var spec := PostAll(Books(old(stock), old(ledger)), AdjustmentPostings(a.kind, a.lines), ref);
        && (spec.Ok? ==> ok && Books(stock, ledger) == spec.value)
        && (spec.Err? ==> !ok && spec.error == Invalid)
    {
      ghost var ps := AdjustmentPostings(a.kind, a.lines);
      for i := 0 to |a.lines|
        invariant PostAll(Books(old(stock), old(ledger)), ps, ref) == PostAll(Books(stock, ledger), ps[i..], ref)
      {
        assert ps[i..][0] == ps[i] && ps[i..][1..] == ps[i + 1..];
        ok := PostAdjustmentLine(a.kind, a.lines[i], ref);
        if !ok {
          return;
        }
      }
      assert ps[|a.lines|..] == [];
      return true;
    }

    method ApproveAdjustment(id: nat) returns (r: Result<()>)
      modifies `stock, `ledger, `adjustments
      ensures Answers(Adj.Approve(old(Snapshot()), id), old(Snapshot()), r, Snapshot())
    {
      var a :- FindAdjustment(id, {Submitted});
      var savedStock, savedLedger := stock, ledger;
      var ok := PostAdjustment(a, Ref(AdjustmentRef, id));
      if !ok {
        stock, ledger := savedStock, savedLedger;
        return Err(Invalid);
      }
      adjustments := adjustments[id := a.(status := Approved)];
      return Ok(());
    }

    method CancelAdjustment(id: nat) returns (r: Result<()>)
      modifies `adjustments
      ensures Answers(Adj.Cancel(old(Snapshot()), id), old(Snapshot()), r, Snapshot())
    {
      var a :- FindAdjustment(id, {Draft, Submitted});
      adjustments := adjustments[id := a.(status := Cancelled)];
      return Ok(());
    }

    // ------------------------------------------------------------------
    // Stock releases
    // ------------------------------------------------------------------

    method FindRelease(id: nat, allowed: set<Status>) returns (r: Result<StockRelease>)
      ensures r.Ok? <==> LiveRelease(Snapshot(), id) && releases[id].status in allowed
      ensures r.Ok? ==> r.value == releases[id]
      ensures r.Err? ==> r.error == if LiveRelease(Snapshot(), id) then Invalid else NotFound
    {
      if id >= |releases| || releases[id].deleted {
        return Err(NotFound);
      }
      if releases[id].status !in allowed {
        return Err(Invalid);
      }
      return Ok(releases[id]);
    }

    method AddReleaseItems(id: nat, lines: seq<Rel.Request>)
      requires id < |releases| && releases[id].lines == []
      modifies `releases
      ensures releases == old(releases)[id := old(releases)[id].(lines := Rel.Uncosted(lines))]
    {
      ghost var items := Rel.Uncosted(lines);
      for i := 0 to |lines|
        invariant releases == old(releases)[id := old(releases)[id].(lines := items[..i])]
      {
        var item := ReleaseLine(lines[i].product, lines[i].qty, 0, 0);
        assert items[..i + 1] == items[..i] + [item];
        releases := releases[id := releases[id].(lines := releases[id].lines + [item])];
      }
      assert items[..|lines|] == items;
    }

    method CreateRelease(lines: seq<Rel.Request>) returns (r: Result<()>)
      modifies `releases
      ensures Answers(Rel.Create(old(Snapshot()), lines), old(Snapshot()), r, Snapshot())
    {
      if lines == [] {
        return Err(Invalid);
      }
      var ids := seq(|lines|, i requires 0 <= i < |lines| => lines[i].product);
      assert forall i | 0 <= i < |lines| :: ids[i] == lines[i].product;
      var _ :- CheckUnique(ids);
      var _ :- CheckProducts(ids);
      releases := releases + [StockRelease(Draft, false, [], 0, 0)];
      AddReleaseItems(|releases| - 1, lines);
      return Ok(());
    }

    method UpdateRelease(id: nat, lines: Option<seq<Rel.Request>>) returns (r: Result<()>)
      modifies `releases
      ensures Answers(Rel.Update(old(Snapshot()), id, lines), old(Snapshot()), r, Snapshot())
    {
      var sr :- FindRelease(id, {Draft});
      if lines.Some? {
        var ids := seq(|lines.value|, i requires 0 <= i < |lines.value| => lines.value[i].product);
        assert forall i | 0 <= i < |lines.value| :: ids[i] == lines.value[i].product;
        var _ :- CheckProducts(ids);
        releases := releases[id := sr.(lines := [])];
        AddReleaseItems(id, lines.value);
      }
      return Ok(());
    }

    method DeleteRelease(id: nat) returns (r: Result<()>)
      modifies `releases
      ensures Answers(Rel.Delete(old(Snapshot()), id), old(Snapshot()), r, Snapshot())
    {
      var sr :- FindRelease(id, {Draft});
      releases := releases[id := sr.(deleted := true)];
      return Ok(());
    }

    method SubmitRelease(id: nat) returns (r: Result<()>)
      modifies `releases
      ensures Answers(Rel.Submit(old(Snapshot()), id), old(Snapshot()), r, Snapshot())
    {
      var sr :- FindRelease(id, {Draft});
      if sr.lines == [] {
        return Err(Invalid);
      }
      releases := releases[id := sr.(status := Submitted)];
      return Ok(());
    }

    /** The pre-validation loop: it looks at each line on its own. */
    method CheckAvailable(lines: seq<ReleaseLine>) returns (ok: bool)
      ensures ok <==> EachAvailable(stock, ReleasePostings(lines))
    {
      ghost var ps := ReleasePostings(lines);
      for i := 0 to |lines|
        invariant forall k | 0 <= k < i :: ps[k].qty <= LevelOf(stock, ps[k].product).qty
      {
        var available := LevelOf(stock, lines[i].product).qty;
        if available < lines[i].qty {
          assert ps[i].qty > LevelOf(stock, ps[i].product).qty;
          return false;
        }
      }
      return true;
    }

    /** One round of the deduction loop: take the quantity out and cost the line at the current average. */
    method DeductLine(x: ReleaseLine, ref: Ref) returns (ok: bool, costed: ReleaseLine)
      modifies `stock, `ledger
      ensures
        var spec := Post(Books(old(stock), old(ledger)), Posting(x.product, Release, x.qty, 0), ref);
        && (spec.Ok? ==> ok && Books(stock, ledger) == spec.value)
        && (spec.Err? ==> !ok && spec.error == Invalid)
      ensures costed == Rel.CostLine(old(stock), x)
    {
      var unitCost := LevelOf(stock, x.product).avg;
      costed := x.(unitCost := unitCost, lineTotal := Round(x.qty * unitCost, 10000));
      ok := ApplyInventoryChange(x.product, 0 - x.qty, unitCost, StockReleased, ref);
    }

    /**
     * The deduction loop reads each average when it gets to the line and accumulates the totals. The
     * result is the same as costing all lines at the averages before the call.
     */
    method Deduct(lines: seq<ReleaseLine>, ref: Ref)
      returns (ok: bool, costed: seq<ReleaseLine>, totalQty: int, totalCost: int)
      modifies `stock, `ledger
      ensures
        var spec := PostAll(Books(old(stock), old(ledger)), ReleasePostings(lines), ref);
        && (spec.Ok? ==> ok && Books(stock, ledger) == spec.value)
        && (spec.Err? ==> !ok && spec.error == Invalid)
      ensures ok ==> costed == Rel.CostLines(old(stock), lines)
      ensures totalQty == Sum(costed, Rel.LineQty()) && totalCost == Sum(costed, Rel.LineTotal())
    {
      costed, totalQty, totalCost := [], 0, 0;
      ghost var ps := ReleasePostings(lines);
      for i := 0 to |lines|
        invariant PostAll(Books(old(stock), old(ledger)), ps, ref) == PostAll(Books(stock, ledger), ps[i..], ref)
        invariant forall p: nat :: LevelOf(stock, p).avg == LevelOf(old(stock), p).avg
        invariant costed == Rel.CostLines(old(stock), lines)[..i]
        invariant totalQty == Sum(costed, Rel.LineQty()) && totalCost == Sum(costed, Rel.LineTotal())
      {
        assert ps[i..][0] == ps[i] && ps[i..][1..] == ps[i + 1..];
        ghost var before := Books(stock, ledger);
        var x: ReleaseLine;
        ok, x := DeductLine(lines[i], ref);
        if !ok {
          return;
        }
        RemovalKeepsAverages(before, ps[i], ref);
        totalQty := totalQty + x.qty;
        totalCost := totalCost + x.lineTotal;
        SumAppend(costed, x, Rel.LineQty());
        SumAppend(costed, x, Rel.LineTotal());
        costed := costed + [x];
      }
      ok := true;
    }

    method ApproveRelease(id: nat) returns (r: Result<()>)
      modifies `stock, `ledger, `releases
      ensures Answers(Rel.Approve(old(Snapshot()), id), old(Snapshot()), r, Snapshot())
    {
      var sr :- FindRelease(id, {Submitted});
      var available := CheckAvailable(sr.lines);
      if !available {
        return Err(Invalid);
      }
      var savedStock, savedLedger := stock, ledger;
      var ok, costed, totalQty, totalCost := Deduct(sr.lines, Ref(ReleaseRef, id));
      if !ok {
        stock, ledger := savedStock, savedLedger;
        return Err(Invalid);
      }
      releases := releases[id :=
        sr.(lines := costed, totalQty := totalQty, totalCost := totalCost, status := Approved)];
      return Ok(());
    }

    method CancelRelease(id: nat) returns (r: Result<()>)
      modifies `releases
      ensures Answers(Rel.Cancel(old(Snapshot()), id), old(Snapshot()), r, Snapshot())
    {
      var sr :- FindRelease(id, {Draft, Submitted});
      releases := releases[id := sr.(status := Cancelled)];
      return Ok(());
    }

    // ------------------------------------------------------------------
    // Purchase orders
    // ------------------------------------------------------------------

    method FindPo(id: nat, allowed: set<PoStatus>) returns (r: Result<PurchaseOrder>)
      ensures r.Ok? <==> LivePo(pos, id) && pos[id].status in allowed
      ensures r.Ok? ==> r.value == pos[id]
      ensures r.Err? ==> r.error == if LivePo(pos, id) then Invalid else NotFound
    {
      if id >= |pos| || pos[id].deleted {
        return Err(NotFound);
      }
      if pos[id].status !in allowed {
        return Err(Invalid);
      }
      return Ok(pos[id]);
    }

    /** The loop of update: each product is checked just before its item is inserted. */
    method AddOrderItems(id: nat, lines: seq<Proc.OrderLine>) returns (r: Result<()>)
      requires id < |pos| && pos[id].lines == []
      modifies `pos
      ensures r == if Proc.ProductsKnown(Snapshot(), lines) then Ok(()) else Err(NotFound)
      ensures r.Ok? ==> pos == old(pos)[id := old(pos)[id].(lines := Proc.Unreceived(lines))]
    {
      ghost var items := Proc.Unreceived(lines);
      for i := 0 to |lines|
        invariant forall k | 0 <= k < i :: lines[k].product in products
        invariant pos == old(pos)[id := old(pos)[id].(lines := items[..i])]
      {
        if lines[i].product !in products {
          return Err(NotFound);
        }
        var item := PoLine(lines[i].product, lines[i].ordered, 0);
        assert items[..i + 1] == items[..i] + [item];
        pos := pos[id := pos[id].(lines := pos[id].lines + [item])];
      }
      assert items[..|lines|] == items;
      return Ok(());
    }

    method CreatePo(supplier: nat, lines: seq<Proc.OrderLine>) returns (r: Result<()>)
      modifies `pos
      ensures Answers(Proc.CreatePo(old(Snapshot()), supplier, lines), old(Snapshot()), r, Snapshot())
    {
      if lines == [] {
        return Err(Invalid);
      }
      if supplier !in suppliers {
        return Err(NotFound);
      }
      var ids := seq(|lines|, i requires 0 <= i < |lines| => lines[i].product);
      assert forall i | 0 <= i < |lines| :: ids[i] == lines[i].product;
      var _ :- CheckProducts(ids);
      pos := pos + [PurchaseOrder(supplier, PoDraft, false, 0, [])];
      r := AddOrderItems(|pos| - 1, lines);
    }

    /** The supplier and part of the items may be written before a product is refused; then the order is restored. */
    method UpdatePo(id: nat, supplier: Option<nat>, lines: Option<seq<Proc.OrderLine>>) returns (r: Result<()>)
      modifies `pos
      ensures Answers(Proc.UpdatePo(old(Snapshot()), id, supplier, lines), old(Snapshot()), r, Snapshot())
    {
      var p :- FindPo(id, {PoDraft});
      var saved := pos;
      if supplier.Some? {
        if supplier.value !in suppliers {
          return Err(NotFound);
        }
        pos := pos[id := p.(supplier := supplier.value)];
      }
      if lines.Some? {
        pos := pos[id := pos[id].(edition := p.edition + 1, lines := [])];
        r := AddOrderItems(id, lines.value);
        if r.Err? {
          pos := saved;
          return r;
        }
      }
      return Ok(());
    }

    method DeletePo(id: nat) returns (r: Result<()>)
      modifies `pos
      ensures Answers(Proc.DeletePo(old(Snapshot()), id), old(Snapshot()), r, Snapshot())
    {
      var p :- FindPo(id, {PoDraft});
      pos := pos[id := p.(deleted := true)];
      return Ok(());
    }

    method SubmitPo(id: nat) returns (r: Result<()>)
      modifies `pos
      ensures Answers(Proc.SubmitPo(old(Snapshot()), id), old(Snapshot()), r, Snapshot())
    {
      var p :- FindPo(id, {PoDraft});
      if p.lines == [] {
        return Err(Invalid);
      }
      pos := pos[id := p.(status := PoSubmitted)];
      return Ok(());
    }

    /** approve, reject and cancel. */
    method MovePo(id: nat, from: set<PoStatus>, to: PoStatus) returns (r: Result<()>)
      modifies `pos
      ensures Answers(Proc.MovePo(old(Snapshot()), id, from, to), old(Snapshot()), r, Snapshot())
    {
      var p :- FindPo(id, from);
      pos := pos[id := p.(status := to)];
      return Ok(());
    }

    method DuplicatePo(id: nat) returns (r: Result<()>)
      modifies `pos
      ensures Answers(Proc.DuplicatePo(old(Snapshot()), id), old(Snapshot()), r, Snapshot())
    {
      if id >= |pos| || pos[id].deleted {
        return Err(NotFound);
      }
      if exists i | 0 <= i < |pos[id].lines| :: pos[id].lines[i].ordered == 0 {
        return Err(Invalid);
      }
      r := CreatePo(pos[id].supplier, Proc.OrderLines(pos[id].lines));
    }

    // ------------------------------------------------------------------
    // Goods received notes
    // ------------------------------------------------------------------

    /** The checks of one line of a note against the items of its order. */
    method CheckLine(po: nat, x: GrnLine, matchProduct: bool) returns (e: Option<Error>)
      requires po < |pos|
      ensures e == Proc.CheckLine(pos, po, x, matchProduct)
    {
      if x.poLine.po != po || x.poLine.edition != pos[po].edition || x.poLine.pos >= |pos[po].lines| {
        return Some(NotFound);
      }
      var item := pos[po].lines[x.poLine.pos];
      if matchProduct && item.product != x.product {
        return Some(Invalid);
      }
      var remaining := item.ordered - item.received;
      if 100 * x.qty > 100 * remaining + 1 {
        return Some(Invalid);
      }
      return None;
    }

    /** The validation loop of create, before anything is written. */
    method CheckLines(po: nat, lines: seq<GrnLine>) returns (e: Option<Error>)
      requires po < |pos|
      ensures e == Proc.CheckLines(pos, po, lines, true)
    {
      for i := 0 to |lines|
        invariant Proc.CheckLines(pos, po, lines, true) == Proc.CheckLines(pos, po, lines[i..], true)
      {
        assert lines[i..][0] == lines[i] && lines[i..][1..] == lines[i + 1..];
        e := CheckLine(po, lines[i], true);
        if e.Some? {
          return;
        }
      }
      assert lines[|lines|..] == [];
      return None;
    }

    /** The inserts of the items of a new note. */
    method AddNoteItems(id: nat, lines: seq<GrnLine>)
      requires id < |grns| && grns[id].lines == []
      modifies `grns
      ensures grns == old(grns)[id := old(grns)[id].(lines := lines)]
    {
      for i := 0 to |lines|
        invariant grns == old(grns)[id := old(grns)[id].(lines := lines[..i])]
      {
        assert lines[..i + 1] == lines[..i] + [lines[i]];
        grns := grns[id := grns[id].(lines := grns[id].lines + [lines[i]])];
      }
      assert lines[..|lines|] == lines;
    }

    /** The loop of update: each line is checked just before its item is inserted. */
    method CheckAndAddNoteItems(id: nat, po: nat, lines: seq<GrnLine>) returns (e: Option<Error>)
      requires id < |grns| && grns[id].lines == [] && po < |pos|
      modifies `grns
      ensures e == Proc.CheckLines(pos, po, lines, false)
      ensures e.None? ==> grns == old(grns)[id := old(grns)[id].(lines := lines)]
    {
      for i := 0 to |lines|
        invariant Proc.CheckLines(pos, po, lines, false) == Proc.CheckLines(pos, po, lines[i..], false)
        invariant grns == old(grns)[id := old(grns)[id].(lines := lines[..i])]
      {
        assert lines[i..][0] == lines[i] && lines[i..][1..] == lines[i + 1..];
        e := CheckLine(po, lines[i], false);
        if e.Some? {
          return;
        }
        assert lines[..i + 1] == lines[..i] + [lines[i]];
        grns := grns[id := grns[id].(lines := grns[id].lines + [lines[i]])];
      }
      assert lines[|lines|..] == [] && lines[..|lines|] == lines;
      return None;
    }

    method FindGrn(id: nat, allowed: set<Status>) returns (r: Result<Grn>)
      ensures r.Ok? <==> id < |grns| && grns[id].status in allowed
      ensures r.Ok? ==> r.value == grns[id]
      ensures r.Err? ==> r.error == if id < |grns| then Invalid else NotFound
    {
      if id >= |grns| {
        return Err(NotFound);
      }
      if grns[id].status !in allowed {
        return Err(Invalid);
      }
      return Ok(grns[id]);
    }

    method CreateGrn(po: nat, lines: seq<GrnLine>) returns (r: Result<()>)
      modifies `grns
      ensures Answers(Proc.CreateGrn(old(Snapshot()), po, lines), old(Snapshot()), r, Snapshot())
    {
      if lines == [] {
        return Err(Invalid);
      }
      var p :- FindPo(po, {PoApproved, PartiallyReceived});
      var e := CheckLines(po, lines);
      if e.Some? {
        return Err(e.value);
      }
      grns := grns + [Grn(po, Draft, [])];
      AddNoteItems(|grns| - 1, lines);
      return Ok(());
    }

    /** The old items are gone when a line is refused; then the note is restored. */
    method UpdateGrn(id: nat, lines: Option<seq<GrnLine>>) returns (r: Result<()>)
      modifies `grns
      ensures Answers(Proc.UpdateGrn(old(Snapshot()), id, lines), old(Snapshot()), r, Snapshot())
    {
      var g :- FindGrn(id, {Draft});
      if lines.None? {
        return Ok(());
      }
      if g.po >= |pos| || pos[g.po].deleted {
        return Err(NotFound);
      }
      var saved := grns;
      grns := grns[id := g.(lines := [])];
      var e := CheckAndAddNoteItems(id, g.po, lines.value);
      if e.Some? {
        grns := saved;
        return Err(e.value);
      }
      return Ok(());
    }

    method SubmitGrn(id: nat) returns (r: Result<()>)
      modifies `grns
      ensures Answers(Proc.SubmitGrn(old(Snapshot()), id), old(Snapshot()), r, Snapshot())
    {
      var g :- FindGrn(id, {Draft});
      if g.lines == [] {
        return Err(Invalid);
      }
      grns := grns[id := g.(status := Submitted)];
      return Ok(());
    }

    method CancelGrn(id: nat) returns (r: Result<()>)
      modifies `grns
      ensures Answers(Proc.CancelGrn(old(Snapshot()), id), old(Snapshot()), r, Snapshot())
    {
      var g :- FindGrn(id, {Draft, Submitted, Cancelled});
      grns := grns[id := g.(status := Cancelled)];
      return Ok(());
    }

    /** The two flags of the status loop, as the loop computes them. */
    method StatusAfterReceipt(po: nat) returns (status: PoStatus)
      requires po < |pos|
      ensures status == Proc.StatusAfterReceipt(pos[po].lines, pos[po].status)
    {
      var lines := pos[po].lines;
      var allReceived, anyReceived := true, false;
      for i := 0 to |lines|
        invariant allReceived <==> forall k | 0 <= k < i :: Proc.Complete(lines[k])
        invariant anyReceived <==> exists k | 0 <= k < i :: Proc.Begun(lines[k])
      {
        if 100 * lines[i].received >= 100 * lines[i].ordered - 1 {
          assert Proc.Begun(lines[i]);
          anyReceived := true;
        } else {
          assert !Proc.Complete(lines[i]);
          allReceived := false;
          if 100 * lines[i].received > 1 {
            assert Proc.Begun(lines[i]);
            anyReceived := true;
          }
        }
      }
      if allReceived {
        return FullyReceived;
      } else if anyReceived {
        return PartiallyReceived;
      } else {
        return pos[po].status;
      }
    }

    /** What the approval loop has changed so far. */
    function Desk(): Proc.Desk
      reads this
    {
      Proc.Desk(Books(stock, ledger), receipts, pos)
    }

    /** One round of the approval loop: procurement ledger, order line, then the inventory engine. */
    method PostNoteLine(x: GrnLine, pick: nat, id: nat) returns (e: Option<Error>)
      modifies `stock, `ledger, `receipts, `pos
      ensures
        var spec := Proc.PostLine(old(Desk()), x, pick, id, clock);
        && (spec.Ok? ==> e.None? && Desk() == spec.value)
        && (spec.Err? ==> e == Some(spec.error))
    {
      if !Proc.OnOrder(pos, x.poLine) {
        return Some(Crash);
      }
      var current := Proc.CurrentStock(receipts, x.product, pick);
      receipts := receipts + [Receipt(x.product, current, x.qty, current + x.qty, x.cost, id, clock)];
      pos := Proc.ReceiveLine(pos, x);
      var ok := ApplyInventoryChange(x.product, x.qty, x.cost, PurchaseReceipt, Ref(GrnRef, id));
      return if ok then None else Some(Invalid);
    }

    /** One loop writes both ledgers, the order lines and the snapshot. */
    method PostNote(lines: seq<GrnLine>, picks: seq<nat>, id: nat) returns (e: Option<Error>)
      modifies `stock, `ledger, `receipts, `pos
      ensures
        var spec := Proc.PostLines(old(Desk()), lines, picks, id, clock);
        && (spec.Ok? ==> e.None? && Desk() == spec.value)
        && (spec.Err? ==> e == Some(spec.error))
    {
      var rest := picks;
      for i := 0 to |lines|
        invariant Proc.PostLines(old(Desk()), lines, picks, id, clock) ==
                  Proc.PostLines(Desk(), lines[i..], rest, id, clock)
      {
        assert lines[i..][0] == lines[i] && lines[i..][1..] == lines[i + 1..];
        e := PostNoteLine(lines[i], Proc.Head(rest), id);
        if e.Some? {
          return;
        }
        rest := Proc.Tail(rest);
      }
      assert lines[|lines|..] == [];
      return None;
    }

    /** After the loop the order is looked up without a guard. */
    method ApproveGrn(id: nat, picks: seq<nat>) returns (r: Result<()>)
      modifies `stock, `ledger, `receipts, `clock, `pos, `grns
      ensures Answers(Proc.ApproveGrn(old(Snapshot()), id, picks), old(Snapshot()), r, Snapshot())
    {
      var g :- FindGrn(id, {Submitted});
      var savedStock, savedLedger, savedReceipts, savedPos := stock, ledger, receipts, pos;
      var e := PostNote(g.lines, picks, id);
      if e.None? && (g.po >= |pos| || pos[g.po].deleted) {
        e := Some(Crash);
      }
      if e.Some? {
        stock, ledger, receipts, pos := savedStock, savedLedger, savedReceipts, savedPos;
        return Err(e.value);
      }
      var status := StatusAfterReceipt(g.po);
      pos := pos[g.po := pos[g.po].(status := status)];
      grns := grns[id := g.(status := Approved)];
      clock := clock + 1;
      return Ok(());
    }

    // ------------------------------------------------------------------
    // Requests
    // ------------------------------------------------------------------

    method ServePo(op: Sys.Op) returns (r: Result<()>)
      requires Sys.OnPo(op)
      modifies this
      ensures Answers(Sys.ApplyToPo(old(Snapshot()), op), old(Snapshot()), r, Snapshot())
    {
      match op
      case CreatePo(supplier, lines) => r := CreatePo(supplier, lines);
      case UpdatePo(id, supplier, lines) => r := UpdatePo(id, supplier, lines);
      case DeletePo(id) => r := DeletePo(id);
      case SubmitPo(id) => r := SubmitPo(id);
      case ApprovePo(id) => r := MovePo(id, {PoSubmitted}, PoApproved);
      case RejectPo(id) => r := MovePo(id, {PoSubmitted}, PoRejected);
      case CancelPo(id) => r := MovePo(id, {PoDraft, PoSubmitted}, PoCancelled);
      case DuplicatePo(id) => r := DuplicatePo(id);
    }

    method ServeGrn(op: Sys.Op) returns (r: Result<()>)
      requires Sys.OnGrn(op)
      modifies this
      ensures Answers(Sys.ApplyToGrn(old(Snapshot()), op), old(Snapshot()), r, Snapshot())
    {
      match op
      case CreateGrn(po, lines) => r := CreateGrn(po, lines);
      case UpdateGrn(id, lines) => r := UpdateGrn(id, lines);
      case SubmitGrn(id) => r := SubmitGrn(id);
      case ApproveGrn(id, picks) => r := ApproveGrn(id, picks);
      case CancelGrn(id) => r := CancelGrn(id);
    }

    method ServeAdjustment(op: Sys.Op) returns (r: Result<()>)
      requires Sys.OnAdjustment(op)
      modifies this
      ensures Answers(Sys.ApplyToAdjustment(old(Snapshot()), op), old(Snapshot()), r, Snapshot())
    {
      match op
      case CreateAdjustment(kind, lines) => r := CreateAdjustment(kind, lines);
      case UpdateAdjustment(id, kind, lines) => r := UpdateAdjustment(id, kind, lines);
      case DeleteAdjustment(id) => r := DeleteAdjustment(id);
      case SubmitAdjustment(id) => r := SubmitAdjustment(id);
      case ApproveAdjustment(id) => r := ApproveAdjustment(id);
      case CancelAdjustment(id) => r := CancelAdjustment(id);
    }

    method ServeRelease(op: Sys.Op) returns (r: Result<()>)
      requires Sys.OnRelease(op)
      modifies this
      ensures Answers(Sys.ApplyToRelease(old(Snapshot()), op), old(Snapshot()), r, Snapshot())
    {
      match op
      case CreateRelease(lines) => r := CreateRelease(lines);
      case UpdateRelease(id, lines) => r := UpdateRelease(id, lines);
      case DeleteRelease(id) => r := DeleteRelease(id);
      case SubmitRelease(id) => r := SubmitRelease(id);
      case ApproveRelease(id) => r := ApproveRelease(id);
      case CancelRelease(id) => r := CancelRelease(id);
    }

    /** One request in one transaction. */
    method Serve(op: Sys.Op) returns (r: Result<()>)
      modifies this
      ensures r.Ok? <==> Sys.Apply(old(Snapshot()), op).Ok?
      ensures Snapshot() == Sys.Exec(old(Snapshot()), op)
    {
      if Sys.OnPo(op) {
        r := ServePo(op);
      } else if Sys.OnGrn(op) {
        r := ServeGrn(op);
      } else if Sys.OnAdjustment(op) {
        r := ServeAdjustment(op);
      } else if Sys.OnRelease(op) {
        r := ServeRelease(op);
      } else {
        products, suppliers := op.products, op.suppliers;
        r := Ok(());
      }
    }

    /** Requests one after the other: the tables end up as the state machine says. */
    method ServeAll(ops: seq<Sys.Op>)
      modifies this
      ensures Snapshot() == Sys.After(old(Snapshot()), ops)
    {
      for i := 0 to |ops|
        invariant Sys.After(old(Snapshot()), ops) == Sys.After(Snapshot(), ops[i..])
      {
        assert ops[i..][0] == ops[i] && ops[i..][1..] == ops[i + 1..];
        var r := Serve(ops[i]);
      }
      assert ops[|ops|..] == [];
    }
  }
}
