/** The specification of StockReleaseService. */
module Releases {
  import opened Results
  import opened Rounding
  import opened Stock
  import opened Postings
  import opened Sums
  import opened Tables

  /** A requested line; its cost fields stay zero until approval. */
  datatype Request = Request(product: nat, qty: nat)

  predicate ProductsKnown(s: State, lines: seq<Request>) {
    forall i | 0 <= i < |lines| :: lines[i].product in s.products
  }

  predicate RepeatsProduct(lines: seq<Request>) {
    exists i, j | 0 <= i < j < |lines| :: lines[i].product == lines[j].product
  }

  function Uncosted(lines: seq<Request>): seq<ReleaseLine> {
    seq(|lines|, i requires 0 <= i < |lines| => ReleaseLine(lines[i].product, lines[i].qty, 0, 0))
  }

  function Create(s: State, lines: seq<Request>): Result<State> {
    if lines == [] || RepeatsProduct(lines) then Err(Invalid)
    else if !ProductsKnown(s, lines) then Err(NotFound)
    else Ok(s.(releases := s.releases + [StockRelease(Draft, false, Uncosted(lines), 0, 0)]))
  }

  function Update(s: State, id: nat, lines: Option<seq<Request>>): Result<State> {
    if !LiveRelease(s, id) then Err(NotFound)
    else if !s.releases[id].status.Draft? then Err(Invalid)
    else if lines.Some? && !ProductsKnown(s, lines.value) then Err(NotFound)
    else
      var r := s.releases[id];
      Ok(s.(releases := s.releases[id := r.(lines := if lines.Some? then Uncosted(lines.value) else r.lines)]))
  }

  function Delete(s: State, id: nat): Result<State> {
    if !LiveRelease(s, id) then Err(NotFound)
    else if !s.releases[id].status.Draft? then Err(Invalid)
    else Ok(s.(releases := s.releases[id := s.releases[id].(deleted := true)]))
  }

  function Submit(s: State, id: nat): Result<State> {
    if !LiveRelease(s, id) then Err(NotFound)
    else if !s.releases[id].status.Draft? || s.releases[id].lines == [] then Err(Invalid)
    else Ok(s.(releases := s.releases[id := s.releases[id].(status := Submitted)]))
  }

  /** A line costed at the average cost the product has before the approval. */
  function CostLine(stock: map<nat, Level>, x: ReleaseLine): ReleaseLine {
    var unitCost := LevelOf(stock, x.product).avg;
    x.(unitCost := unitCost, lineTotal := Round(x.qty * unitCost, 10000))
  }

  function CostLines(stock: map<nat, Level>, lines: seq<ReleaseLine>): seq<ReleaseLine> {
    seq(|lines|, i requires 0 <= i < |lines| => CostLine(stock, lines[i]))
  }

  function LineQty(): ReleaseLine -> int {
    (x: ReleaseLine) => x.qty
  }

  function LineTotal(): ReleaseLine -> int {
    (x: ReleaseLine) => x.lineTotal
  }

  /** Approval in one piece: check every line, post all lines, cost all lines, add up. */
  function Approve(s: State, id: nat): Result<State> {
    if !LiveRelease(s, id) then Err(NotFound)
    else if !s.releases[id].status.Submitted? then Err(Invalid)
    else
      var r := s.releases[id];
      var ps := ReleasePostings(r.lines);
      if !EachAvailable(s.books.stock, ps) then Err(Invalid)
      else match PostAll(s.books, ps, Ref(ReleaseRef, id))
        case Err(e) => Err(e)
        case Ok(books) =>
          var lines := CostLines(s.books.stock, r.lines);
          Ok(s.(books := books, releases := s.releases[id := r.(
            status := Approved, lines := lines,
            totalQty := Sum(lines, LineQty()), totalCost := Sum(lines, LineTotal()))]))
  }

  function Cancel(s: State, id: nat): Result<State> {
    if !LiveRelease(s, id) then Err(NotFound)
    else if !(s.releases[id].status.Draft? || s.releases[id].status.Submitted?) then Err(Invalid)
    else Ok(s.(releases := s.releases[id := s.releases[id].(status := Cancelled)]))
  }

  lemma PostingsOfCosted(stock: map<nat, Level>, lines: seq<ReleaseLine>)
    ensures ReleasePostings(CostLines(stock, lines)) == ReleasePostings(lines)
  {
  }
}
