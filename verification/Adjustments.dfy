/** The specification of StockAdjustmentService: each call maps a state to a new one or to an error. */
module Adjustments {
  import opened Results
  import opened Stock
  import opened Tables

  predicate ProductsKnown(s: State, lines: seq<AdjustmentLine>) {
    forall i | 0 <= i < |lines| :: lines[i].product in s.products
  }

  predicate RepeatsProduct(lines: seq<AdjustmentLine>) {
    exists i, j | 0 <= i < j < |lines| :: lines[i].product == lines[j].product
  }

  /** The request schema wants lines and distinct products; the service wants known products. */
  function Create(s: State, kind: AdjustmentType, lines: seq<AdjustmentLine>): Result<State> {
    if lines == [] || RepeatsProduct(lines) then Err(Invalid)
    else if !ProductsKnown(s, lines) then Err(NotFound)
    else Ok(s.(adjustments := s.adjustments + [Adjustment(kind, Draft, false, lines)]))
  }

  /** An update may repeat a product, and may leave the document without lines. */
  function Update(s: State, id: nat, kind: Option<AdjustmentType>, lines: Option<seq<AdjustmentLine>>): Result<State> {
    if !LiveAdjustment(s, id) then Err(NotFound)
    else if !s.adjustments[id].status.Draft? then Err(Invalid)
    else if lines.Some? && !ProductsKnown(s, lines.value) then Err(NotFound)
    else
      var a := s.adjustments[id];
      Ok(s.(adjustments := s.adjustments[id := a.(
        kind := if kind.Some? then kind.value else a.kind,
        lines := if lines.Some? then lines.value else a.lines)]))
  }

  function Delete(s: State, id: nat): Result<State> {
    if !LiveAdjustment(s, id) then Err(NotFound)
    else if !s.adjustments[id].status.Draft? then Err(Invalid)
    else Ok(s.(adjustments := s.adjustments[id := s.adjustments[id].(deleted := true)]))
  }

  function Submit(s: State, id: nat): Result<State> {
    if !LiveAdjustment(s, id) then Err(NotFound)
    else if !s.adjustments[id].status.Draft? || s.adjustments[id].lines == [] then Err(Invalid)
    else Ok(s.(adjustments := s.adjustments[id := s.adjustments[id].(status := Submitted)]))
  }

  function Approve(s: State, id: nat): Result<State> {
    if !LiveAdjustment(s, id) then Err(NotFound)
    else if !s.adjustments[id].status.Submitted? then Err(Invalid)
    else
      var a := s.adjustments[id];
      match PostAll(s.books, AdjustmentPostings(a.kind, a.lines), Ref(AdjustmentRef, id))
      case Err(e) => Err(e)
      case Ok(books) =>
        Ok(s.(books := books, adjustments := s.adjustments[id := a.(status := Approved)]))
  }

  function Cancel(s: State, id: nat): Result<State> {
    if !LiveAdjustment(s, id) then Err(NotFound)
    else if !(s.adjustments[id].status.Draft? || s.adjustments[id].status.Submitted?) then Err(Invalid)
    else Ok(s.(adjustments := s.adjustments[id := s.adjustments[id].(status := Cancelled)]))
  }
}
