/**
 * The whole system as a state machine: every service call is one atomic step that either produces
 * the new state or, like the rollback in get_db, leaves the old one.
 */
module System {
  import opened Results
  import opened Tables
  import Adj = Adjustments
  import Rel = Releases
  import Proc = Procurement

  datatype Op =
    | CreatePo(supplier: nat, orderLines: seq<Proc.OrderLine>)
    | UpdatePo(id: nat, newSupplier: Option<nat>, newOrderLines: Option<seq<Proc.OrderLine>>)
    | DeletePo(id: nat)
    | SubmitPo(id: nat)
    | ApprovePo(id: nat)
    | RejectPo(id: nat)
    | CancelPo(id: nat)
    | DuplicatePo(id: nat)
    | CreateGrn(po: nat, grnLines: seq<GrnLine>)
    | UpdateGrn(id: nat, newGrnLines: Option<seq<GrnLine>>)
    | SubmitGrn(id: nat)
    | ApproveGrn(id: nat, picks: seq<nat>)
    | CancelGrn(id: nat)
    | CreateAdjustment(kind: AdjustmentType, lines: seq<AdjustmentLine>)
    | UpdateAdjustment(id: nat, newKind: Option<AdjustmentType>, newLines: Option<seq<AdjustmentLine>>)
    | DeleteAdjustment(id: nat)
    | SubmitAdjustment(id: nat)
    | ApproveAdjustment(id: nat)
    | CancelAdjustment(id: nat)
    | CreateRelease(requests: seq<Rel.Request>)
    | UpdateRelease(id: nat, newRequests: Option<seq<Rel.Request>>)
    | DeleteRelease(id: nat)
    | SubmitRelease(id: nat)
    | ApproveRelease(id: nat)
    | CancelRelease(id: nat)
    | SetCatalogue(products: set<nat>, suppliers: set<nat>)

  predicate OnPo(op: Op) {
    op.CreatePo? || op.UpdatePo? || op.DeletePo? || op.SubmitPo? || op.ApprovePo? || op.RejectPo?
    || op.CancelPo? || op.DuplicatePo?
  }

  predicate OnGrn(op: Op) {
    op.CreateGrn? || op.UpdateGrn? || op.SubmitGrn? || op.ApproveGrn? || op.CancelGrn?
  }

  predicate OnAdjustment(op: Op) {
    op.CreateAdjustment? || op.UpdateAdjustment? || op.DeleteAdjustment? || op.SubmitAdjustment?
    || op.ApproveAdjustment? || op.CancelAdjustment?
  }

  predicate OnRelease(op: Op) {
    op.CreateRelease? || op.UpdateRelease? || op.DeleteRelease? || op.SubmitRelease?
    || op.ApproveRelease? || op.CancelRelease?
  }

  function ApplyToPo(s: State, op: Op): Result<State>
    requires OnPo(op)
  {
    match op
    case CreatePo(supplier, lines) => Proc.CreatePo(s, supplier, lines)
    case UpdatePo(id, supplier, lines) => Proc.UpdatePo(s, id, supplier, lines)
    case DeletePo(id) => Proc.DeletePo(s, id)
    case SubmitPo(id) => Proc.SubmitPo(s, id)
    case ApprovePo(id) => Proc.ApprovePo(s, id)
    case RejectPo(id) => Proc.RejectPo(s, id)
    case CancelPo(id) => Proc.CancelPo(s, id)
    case DuplicatePo(id) => Proc.DuplicatePo(s, id)
  }

  function ApplyToGrn(s: State, op: Op): Result<State>
    requires OnGrn(op)
  {
    match op
    case CreateGrn(po, lines) => Proc.CreateGrn(s, po, lines)
    case UpdateGrn(id, lines) => Proc.UpdateGrn(s, id, lines)
    case SubmitGrn(id) => Proc.SubmitGrn(s, id)
    case ApproveGrn(id, picks) => Proc.ApproveGrn(s, id, picks)
    case CancelGrn(id) => Proc.CancelGrn(s, id)
  }

  function ApplyToAdjustment(s: State, op: Op): Result<State>
    requires OnAdjustment(op)
  {
    match op
    case CreateAdjustment(kind, lines) => Adj.Create(s, kind, lines)
    case UpdateAdjustment(id, kind, lines) => Adj.Update(s, id, kind, lines)
    case DeleteAdjustment(id) => Adj.Delete(s, id)
    case SubmitAdjustment(id) => Adj.Submit(s, id)
    case ApproveAdjustment(id) => Adj.Approve(s, id)
    case CancelAdjustment(id) => Adj.Cancel(s, id)
  }

  function ApplyToRelease(s: State, op: Op): Result<State>
    requires OnRelease(op)
  {
    match op
    case CreateRelease(lines) => Rel.Create(s, lines)
    case UpdateRelease(id, lines) => Rel.Update(s, id, lines)
    case DeleteRelease(id) => Rel.Delete(s, id)
    case SubmitRelease(id) => Rel.Submit(s, id)
    case ApproveRelease(id) => Rel.Approve(s, id)
    case CancelRelease(id) => Rel.Cancel(s, id)
  }

  function Apply(s: State, op: Op): Result<State> {
    if OnPo(op) then ApplyToPo(s, op)
    else if OnGrn(op) then ApplyToGrn(s, op)
    else if OnAdjustment(op) then ApplyToAdjustment(s, op)
    else if OnRelease(op) then ApplyToRelease(s, op)
    else Ok(s.(products := op.products, suppliers := op.suppliers))
  }

  /** One request: commit or roll back. */
  function Exec(s: State, op: Op): State {
    match Apply(s, op)
    case Ok(next) => next
    case Err(_) => s
  }

  /** The state after a sequence of requests. */
  function After(s: State, ops: seq<Op>): State
    decreases |ops|
  {
    if ops == [] then s else After(Exec(s, ops[0]), ops[1..])
  }

  function Run(ops: seq<Op>): State {
    After(EMPTY, ops)
  }

  lemma {:induction false} AfterConcat(s: State, ops: seq<Op>, more: seq<Op>)
    ensures After(s, ops + more) == After(After(s, ops), more)
    decreases |ops|
  {
    if ops == [] {
      assert ops + more == more;
    } else {
      assert (ops + more)[1..] == ops[1..] + more;
      AfterConcat(Exec(s, ops[0]), ops[1..], more);
    }
  }

  /** Something holds at every moment of a run, from its start to its end. */
  ghost predicate Throughout(s: State, ops: seq<Op>, good: State -> bool) {
    forall n | 0 <= n <= |ops| :: good(After(s, ops[..n]))
  }

  lemma ThroughoutTail(s: State, ops: seq<Op>, good: State -> bool)
    requires ops != []
    ensures Throughout(s, ops, good) <==> good(s) && Throughout(Exec(s, ops[0]), ops[1..], good)
  {
    var next, rest := Exec(s, ops[0]), ops[1..];
    forall n | 0 <= n <= |rest| ensures After(s, ops[..n + 1]) == After(next, rest[..n]) {
      assert ops[..n + 1][1..] == rest[..n];
    }
    assert After(s, ops[..0]) == s;
    if Throughout(s, ops, good) {
      forall n | 0 <= n <= |rest| ensures good(After(next, rest[..n])) {
        assert good(After(s, ops[..n + 1]));
      }
    }
    if good(s) && Throughout(next, rest, good) {
      forall n | 0 <= n <= |ops| ensures good(After(s, ops[..n])) {
        if n > 0 {
          assert good(After(next, rest[..n - 1]));
        }
      }
    }
  }

  lemma RunSnoc(ops: seq<Op>, op: Op)
    ensures Run(ops + [op]) == Exec(Run(ops), op)
  {
    AfterConcat(EMPTY, ops, [op]);
    assert After(Exec(Run(ops), op), [op][1..]) == Exec(Run(ops), op);
  }

  /** Some request of the kind was accepted in the run. */
  ghost predicate Done(ops: seq<Op>, what: Op -> bool)
    decreases |ops|
  {
    ops != [] &&
    (Done(Before(ops), what) || (what(Last(ops)) && Apply(Run(Before(ops)), Last(ops)).Ok?))
  }

  function Before(ops: seq<Op>): seq<Op>
    requires ops != []
  {
    ops[..|ops| - 1]
  }

  function Last(ops: seq<Op>): Op
    requires ops != []
  {
    ops[|ops| - 1]
  }

  /** The same, said with the moment of the request. */
  lemma {:induction false} DoneIff(ops: seq<Op>, what: Op -> bool)
    ensures Done(ops, what) <==>
            exists n | 0 <= n < |ops| :: what(ops[n]) && Apply(Run(ops[..n]), ops[n]).Ok?
    decreases |ops|
  {
    if ops != [] {
      var last, rest := |ops| - 1, Before(ops);
      DoneIff(rest, what);
      forall n | 0 <= n < last ensures rest[n] == ops[n] && rest[..n] == ops[..n] {
      }
      if Done(ops, what) && !Done(rest, what) {
        assert what(ops[last]) && Apply(Run(ops[..last]), ops[last]).Ok?;
      } else if Done(rest, what) {
        var n :| 0 <= n < |rest| && what(rest[n]) && Apply(Run(rest[..n]), rest[n]).Ok?;
        assert what(ops[n]) && Apply(Run(ops[..n]), ops[n]).Ok?;
      }
      if n :| 0 <= n < |ops| && what(ops[n]) && Apply(Run(ops[..n]), ops[n]).Ok? {
        if n < last {
          assert what(rest[n]) && Apply(Run(rest[..n]), rest[n]).Ok?;
        }
      }
    }
  }
}
