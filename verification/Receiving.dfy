/** Purchase orders and goods received notes: receipts are conserved, statuses tell the truth. */
module Receiving {
  import opened Results
  import opened Stock
  import opened Postings
  import opened Sums
  import opened Tables
  import opened Procurement

  function QtyForKey(key: LineKey): GrnLine -> int {
    (x: GrnLine) => if x.poLine == key then x.qty else 0
  }

  /** What an approved note received for one order line; nothing before approval. */
  function ApprovedFor(key: LineKey): Grn -> int {
    (g: Grn) => if g.status.Approved? then Sum(g.lines, QtyForKey(key)) else 0
  }

  function KeyOf(pos: seq<PurchaseOrder>, po: nat, i: nat): LineKey
    requires po < |pos|
  {
    LineKey(po, pos[po].edition, i)
  }

  // ------------------------------------------------------------------
  // The batch meaning of the approval loop on the order lines
  // ------------------------------------------------------------------

  /** q is order number po after the given lines: each order line gained its total, nothing else moved. */
  ghost predicate PoGains(p: PurchaseOrder, q: PurchaseOrder, po: nat, lines: seq<GrnLine>) {
    && q.(lines := []) == p.(lines := [])
    && |q.lines| == |p.lines|
    && forall i | 0 <= i < |p.lines| ::
         && q.lines[i].product == p.lines[i].product
         && q.lines[i].ordered == p.lines[i].ordered
         && q.lines[i].received == p.lines[i].received + Sum(lines, QtyForKey(LineKey(po, p.edition, i)))
  }

  ghost predicate Gains(pos: seq<PurchaseOrder>, next: seq<PurchaseOrder>, lines: seq<GrnLine>) {
    |next| == |pos| && forall po | 0 <= po < |pos| :: PoGains(pos[po], next[po], po, lines)
  }

  lemma OneLineGains(pos: seq<PurchaseOrder>, x: GrnLine)
    requires OnOrder(pos, x.poLine)
    ensures Gains(pos, ReceiveLine(pos, x), [x])
  {
    var next := ReceiveLine(pos, x);
    forall po | 0 <= po < |pos| ensures PoGains(pos[po], next[po], po, [x]) {
      forall i | 0 <= i < |pos[po].lines|
        ensures next[po].lines[i].received ==
                pos[po].lines[i].received + Sum([x], QtyForKey(LineKey(po, pos[po].edition, i)))
      {
        assert Sum([x], QtyForKey(LineKey(po, pos[po].edition, i))) ==
               QtyForKey(LineKey(po, pos[po].edition, i))(x);
      }
    }
  }

  lemma GainsCompose(
    a: seq<PurchaseOrder>, b: seq<PurchaseOrder>, c: seq<PurchaseOrder>, x: GrnLine, rest: seq<GrnLine>)
    requires Gains(a, b, [x]) && Gains(b, c, rest)
    ensures Gains(a, c, [x] + rest)
  {
    forall po | 0 <= po < |a| ensures PoGains(a[po], c[po], po, [x] + rest) {
      assert PoGains(a[po], b[po], po, [x]) && PoGains(b[po], c[po], po, rest);
      forall i | 0 <= i < |a[po].lines|
        ensures c[po].lines[i].received ==
                a[po].lines[i].received + Sum([x] + rest, QtyForKey(LineKey(po, a[po].edition, i)))
      {
        SumConcat([x], rest, QtyForKey(LineKey(po, a[po].edition, i)));
      }
    }
  }

  /** The interleaved loop gives every order line the sum of the note's lines for it. */
  lemma {:induction false} PostLinesGains(d: Desk, lines: seq<GrnLine>, picks: seq<nat>, grn: nat, at: nat)
    requires PostLines(d, lines, picks, grn, at).Ok?
    ensures Gains(d.pos, PostLines(d, lines, picks, grn, at).value.pos, lines)
    decreases |lines|
  {
    if lines == [] {
      assert Gains(d.pos, d.pos, []);
    } else {
      var next := PostLine(d, lines[0], Head(picks), grn, at).value;
      OneLineGains(d.pos, lines[0]);
      PostLinesGains(next, lines[1..], Tail(picks), grn, at);
      GainsCompose(d.pos, next.pos, PostLines(next, lines[1..], Tail(picks), grn, at).value.pos, lines[0], lines[1..]);
      assert lines == [lines[0]] + lines[1..];
    }
  }

  ghost predicate AllOnOrder(pos: seq<PurchaseOrder>, lines: seq<GrnLine>) {
    forall i | 0 <= i < |lines| :: OnOrder(pos, lines[i].poLine)
  }

  /** With its lines on order and no negative stock the loop cannot fail. */
  lemma {:induction false} PostLinesSucceeds(d: Desk, lines: seq<GrnLine>, picks: seq<nat>, grn: nat, at: nat)
    requires AllOnOrder(d.pos, lines) && NoNegativeStock(d.books.stock)
    ensures PostLines(d, lines, picks, grn, at).Ok?
    decreases |lines|
  {
    if lines != [] {
      assert OnOrder(d.pos, lines[0].poLine);
      assert LevelOf(d.books.stock, lines[0].product).qty >= 0;
      var next := PostLine(d, lines[0], Head(picks), grn, at).value;
      forall p: nat ensures LevelOf(next.books.stock, p).qty >= 0 {
        assert LevelOf(d.books.stock, p).qty >= 0;
      }
      forall i | 0 <= i < |lines[1..]| ensures OnOrder(next.pos, lines[1..][i].poLine) {
        assert OnOrder(d.pos, lines[i + 1].poLine);
      }
      PostLinesSucceeds(next, lines[1..], Tail(picks), grn, at);
    }
  }

  // ------------------------------------------------------------------
  // Invariants
  // ------------------------------------------------------------------

  /** A note's order is live and receivable, and its lines are lines of that order. */
  ghost predicate GrnOnOrder(pos: seq<PurchaseOrder>, g: Grn) {
    && LivePo(pos, g.po) && Receivable(pos[g.po].status)
    && AllOnOrder(pos, g.lines)
    && forall i | 0 <= i < |g.lines| :: g.lines[i].poLine.po == g.po
  }

  ghost predicate GrnsOnOrder(s: State) {
    forall g | 0 <= g < |s.grns| :: GrnOnOrder(s.pos, s.grns[g])
  }

  /** Every order line's received quantity is the sum of the approved note lines for it. */
  ghost predicate LineConserved(pos: seq<PurchaseOrder>, grns: seq<Grn>, po: nat, i: nat)
    requires po < |pos| && i < |pos[po].lines|
  {
    pos[po].lines[i].received == Sum(grns, ApprovedFor(KeyOf(pos, po, i)))
  }

  ghost predicate Conserved(s: State) {
    forall po, i | 0 <= po < |s.pos| && 0 <= i < |s.pos[po].lines| :: LineConserved(s.pos, s.grns, po, i)
  }

  ghost predicate AllComplete(lines: seq<PoLine>) {
    forall i | 0 <= i < |lines| :: Complete(lines[i])
  }

  ghost predicate SomeBegun(lines: seq<PoLine>) {
    exists i | 0 <= i < |lines| :: Begun(lines[i])
  }

  ghost predicate NothingReceived(lines: seq<PoLine>) {
    forall i | 0 <= i < |lines| :: lines[i].received == 0
  }

  ghost predicate AllOrderedPositive(lines: seq<PoLine>) {
    forall i | 0 <= i < |lines| :: lines[i].ordered > 0
  }

  ghost predicate StatusTrue(p: PurchaseOrder) {
    && (p.deleted ==> p.status.PoDraft?)
    && (p.status.PoSubmitted? || Receivable(p.status) ==> p.lines != [])
    && (!Receivable(p.status) ==> NothingReceived(p.lines))
    && (p.status.FullyReceived? ==> AllComplete(p.lines))
    && (p.status.PartiallyReceived? ==> SomeBegun(p.lines) && !AllComplete(p.lines))
    && (p.status.PoApproved? ==> NothingReceived(p.lines))
  }

  ghost predicate StatusesTrue(s: State) {
    forall po | 0 <= po < |s.pos| :: StatusTrue(s.pos[po])
  }

  ghost predicate ReceivingInv(s: State) {
    GrnsOnOrder(s) && Conserved(s) && StatusesTrue(s)
  }

  // ------------------------------------------------------------------
  // Order steps keep them
  // ------------------------------------------------------------------

  /** An order step: one order not yet receivable is rewritten without receipts, or a new one is added. */
  ghost predicate PoRewrite(pos: seq<PurchaseOrder>, next: seq<PurchaseOrder>) {
    && |pos| <= |next|
    && (forall po | 0 <= po < |pos| ::
          || next[po] == pos[po]
          || (!Receivable(pos[po].status) && NothingReceived(next[po].lines)))
    && (forall po | |pos| <= po < |next| :: NothingReceived(next[po].lines))
  }

  lemma NoReceiptsOff(s: State, key: LineKey)
    requires GrnsOnOrder(s)
    requires key.po < |s.pos| ==> !Receivable(s.pos[key.po].status)
    ensures Sum(s.grns, ApprovedFor(key)) == 0
  {
    forall g | 0 <= g < |s.grns| ensures ApprovedFor(key)(s.grns[g]) == 0 {
      assert GrnOnOrder(s.pos, s.grns[g]);
      SumZero(s.grns[g].lines, QtyForKey(key));
    }
    SumZero(s.grns, ApprovedFor(key));
  }

  lemma PoRewriteKeeps(s: State, t: State)
    requires GrnsOnOrder(s) && Conserved(s)
    requires t.grns == s.grns && PoRewrite(s.pos, t.pos)
    ensures GrnsOnOrder(t) && Conserved(t)
  {
    forall g | 0 <= g < |t.grns| ensures GrnOnOrder(t.pos, t.grns[g]) {
      assert GrnOnOrder(s.pos, s.grns[g]);
      forall i | 0 <= i < |t.grns[g].lines| ensures OnOrder(t.pos, t.grns[g].lines[i].poLine) {
        assert OnOrder(s.pos, s.grns[g].lines[i].poLine);
      }
    }
    forall po, i | 0 <= po < |t.pos| && 0 <= i < |t.pos[po].lines| ensures LineConserved(t.pos, t.grns, po, i) {
      if po < |s.pos| && t.pos[po] == s.pos[po] {
        assert LineConserved(s.pos, s.grns, po, i);
      } else {
        NoReceiptsOff(s, KeyOf(t.pos, po, i));
      }
    }
  }

  lemma StatusUpdate(s: State, id: nat, p: PurchaseOrder)
    requires StatusesTrue(s) && id < |s.pos| && StatusTrue(p)
    ensures StatusesTrue(s.(pos := s.pos[id := p]))
  {
  }

  lemma CreatePoKeeps(s: State, supplier: nat, lines: seq<OrderLine>)
    requires ReceivingInv(s) && CreatePo(s, supplier, lines).Ok?
    ensures ReceivingInv(CreatePo(s, supplier, lines).value)
  {
    var t := CreatePo(s, supplier, lines).value;
    PoRewriteKeeps(s, t);
  }

  lemma UpdatePoKeeps(s: State, id: nat, supplier: Option<nat>, lines: Option<seq<OrderLine>>)
    requires ReceivingInv(s) && UpdatePo(s, id, supplier, lines).Ok?
    ensures ReceivingInv(UpdatePo(s, id, supplier, lines).value)
  {
    var t := UpdatePo(s, id, supplier, lines).value;
    assert StatusTrue(s.pos[id]);
    PoRewriteKeeps(s, t);
    StatusUpdate(s, id, t.pos[id]);
  }

  lemma DeletePoKeeps(s: State, id: nat)
    requires ReceivingInv(s) && DeletePo(s, id).Ok?
    ensures ReceivingInv(DeletePo(s, id).value)
  {
    var t := DeletePo(s, id).value;
    assert StatusTrue(s.pos[id]);
    PoRewriteKeeps(s, t);
    StatusUpdate(s, id, t.pos[id]);
  }

  lemma MovePoKeeps(s: State, id: nat, from: set<PoStatus>, to: PoStatus)
    requires ReceivingInv(s) && MovePo(s, id, from, to).Ok?
    requires forall status | status in from :: !Receivable(status)
    requires !to.PartiallyReceived? && !to.FullyReceived?
    requires to.PoSubmitted? || to.PoApproved? ==> s.pos[id].lines != []
    ensures ReceivingInv(MovePo(s, id, from, to).value)
  {
    var t := MovePo(s, id, from, to).value;
    assert StatusTrue(s.pos[id]);
    PoRewriteKeeps(s, t);
    StatusUpdate(s, id, t.pos[id]);
  }

  // ------------------------------------------------------------------
  // Note steps keep them
  // ------------------------------------------------------------------

  lemma {:induction false} CheckedLines(pos: seq<PurchaseOrder>, po: nat, lines: seq<GrnLine>, matchProduct: bool)
    requires po < |pos| && CheckLines(pos, po, lines, matchProduct).None?
    ensures AllOnOrder(pos, lines)
    ensures forall i | 0 <= i < |lines| ::
              && lines[i].poLine.po == po
              && !ExceedsRemaining(lines[i].qty, pos[po].lines[lines[i].poLine.pos])
              && (matchProduct ==> pos[po].lines[lines[i].poLine.pos].product == lines[i].product)
    decreases |lines|
  {
    if lines != [] {
      CheckedLines(pos, po, lines[1..], matchProduct);
      assert lines == [lines[0]] + lines[1..];
    }
  }

  /** A note step other than approval: notes that are not approved before and after. */
  ghost predicate GrnRewrite(pos: seq<PurchaseOrder>, grns: seq<Grn>, next: seq<Grn>) {
    || (|next| == |grns| + 1 && next[..|grns|] == grns
        && !next[|grns|].status.Approved? && GrnOnOrder(pos, next[|grns|]))
    || (|next| == |grns| && exists id: nat | id < |grns| ::
          && next == grns[id := next[id]]
          && !grns[id].status.Approved? && !next[id].status.Approved? && GrnOnOrder(pos, next[id]))
  }

  lemma GrnRewriteSum(pos: seq<PurchaseOrder>, grns: seq<Grn>, next: seq<Grn>, key: LineKey)
    requires GrnRewrite(pos, grns, next)
    ensures Sum(next, ApprovedFor(key)) == Sum(grns, ApprovedFor(key))
  {
    if |next| == |grns| + 1 {
      assert next == grns + [next[|grns|]];
      SumAppend(grns, next[|grns|], ApprovedFor(key));
    } else {
      var id: nat :| id < |grns| && next == grns[id := next[id]]
                     && !grns[id].status.Approved? && !next[id].status.Approved?;
      SumUpdate(grns, id, next[id], ApprovedFor(key));
    }
  }

  lemma GrnRewriteKeeps(s: State, t: State)
    requires ReceivingInv(s) && t.pos == s.pos && GrnRewrite(s.pos, s.grns, t.grns)
    ensures ReceivingInv(t)
  {
    forall g | 0 <= g < |t.grns| ensures GrnOnOrder(t.pos, t.grns[g]) {
      if g < |s.grns| {
        assert GrnOnOrder(s.pos, s.grns[g]);
        assert |t.grns| == |s.grns| + 1 ==> t.grns[g] == t.grns[..|s.grns|][g];
      }
    }
    forall po, i | 0 <= po < |t.pos| && 0 <= i < |t.pos[po].lines| ensures LineConserved(t.pos, t.grns, po, i) {
      assert LineConserved(s.pos, s.grns, po, i);
      GrnRewriteSum(s.pos, s.grns, t.grns, KeyOf(s.pos, po, i));
    }
  }

  lemma CreateGrnKeeps(s: State, po: nat, lines: seq<GrnLine>)
    requires ReceivingInv(s) && CreateGrn(s, po, lines).Ok?
    ensures ReceivingInv(CreateGrn(s, po, lines).value)
  {
    CheckedLines(s.pos, po, lines, true);
    GrnRewriteKeeps(s, CreateGrn(s, po, lines).value);
  }

  lemma EditGrnKeeps(s: State, id: nat, g: Grn)
    requires ReceivingInv(s) && id < |s.grns|
    requires !s.grns[id].status.Approved? && !g.status.Approved? && GrnOnOrder(s.pos, g)
    ensures ReceivingInv(s.(grns := s.grns[id := g]))
  {
    assert s.grns[id := g][id] == g;
    GrnRewriteKeeps(s, s.(grns := s.grns[id := g]));
  }

  lemma UpdateGrnKeeps(s: State, id: nat, lines: Option<seq<GrnLine>>)
    requires ReceivingInv(s) && UpdateGrn(s, id, lines).Ok?
    ensures ReceivingInv(UpdateGrn(s, id, lines).value)
  {
    if lines.Some? {
      assert GrnOnOrder(s.pos, s.grns[id]);
      CheckedLines(s.pos, s.grns[id].po, lines.value, false);
      EditGrnKeeps(s, id, s.grns[id].(lines := lines.value));
    }
  }

  lemma MoveGrnKeeps(s: State, id: nat, status: Status)
    requires ReceivingInv(s) && id < |s.grns|
    requires !s.grns[id].status.Approved? && !status.Approved?
    ensures ReceivingInv(s.(grns := s.grns[id := s.grns[id].(status := status)]))
  {
    assert GrnOnOrder(s.pos, s.grns[id]);
    EditGrnKeeps(s, id, s.grns[id].(status := status));
  }

  // ------------------------------------------------------------------
  // Note approval keeps them
  // ------------------------------------------------------------------

  lemma GainIsNonNegative(lines: seq<GrnLine>, key: LineKey)
    ensures Sum(lines, QtyForKey(key)) >= 0
  {
  }

  /** After an approval the order's status is recomputed from its lines. */
  lemma StatusAfterGain(p: PurchaseOrder, q: PurchaseOrder, po: nat, lines: seq<GrnLine>)
    requires StatusTrue(p) && Receivable(p.status) && PoGains(p, q, po, lines)
    ensures StatusTrue(q.(status := StatusAfterReceipt(q.lines, p.status)))
    ensures p.status.FullyReceived? ==> StatusAfterReceipt(q.lines, p.status).FullyReceived?
    ensures p.status.PartiallyReceived? ==> !StatusAfterReceipt(q.lines, p.status).PoApproved?
    ensures Receivable(StatusAfterReceipt(q.lines, p.status))
  {
    forall i | 0 <= i < |p.lines| ensures q.lines[i].received >= p.lines[i].received {
      GainIsNonNegative(lines, LineKey(po, p.edition, i));
    }
    if SomeBegun(p.lines) {
      var i :| 0 <= i < |p.lines| && Begun(p.lines[i]);
      assert Begun(q.lines[i]);
    }
    if AllComplete(p.lines) {
      forall i | 0 <= i < |q.lines| ensures Complete(q.lines[i]) {
        assert Complete(p.lines[i]);
      }
    }
    if !SomeBegun(q.lines) {
      forall i | 0 <= i < |q.lines| ensures q.lines[i].received == 0 {
        assert !Begun(q.lines[i]);
      }
    }
  }

  /** An order on which the note has no lines, or which is not the note's order, is left alone. */
  lemma OtherPoUntouched(s: State, id: nat, po: nat, q: PurchaseOrder)
    requires GrnsOnOrder(s) && id < |s.grns| && po < |s.pos| && po != s.grns[id].po
    requires PoGains(s.pos[po], q, po, s.grns[id].lines)
    ensures q == s.pos[po]
  {
    assert GrnOnOrder(s.pos, s.grns[id]);
    forall i | 0 <= i < |q.lines| ensures q.lines[i] == s.pos[po].lines[i] {
      SumZero(s.grns[id].lines, QtyForKey(LineKey(po, s.pos[po].edition, i)));
    }
    assert q.lines == s.pos[po].lines;
  }

  /** In every state of the invariant approval of a submitted note succeeds: its order is always found. */
  lemma ApproveGrnSucceeds(s: State, id: nat, picks: seq<nat>)
    requires GrnsOnOrder(s) && NoNegativeStock(s.books.stock)
    ensures ApproveGrn(s, id, picks).Ok? <==> id < |s.grns| && s.grns[id].status.Submitted?
    ensures ApproveGrn(s, id, picks) != Err(Crash)
  {
    if id < |s.grns| && s.grns[id].status.Submitted? {
      assert GrnOnOrder(s.pos, s.grns[id]);
      var d := Desk(s.books, s.receipts, s.pos);
      PostLinesSucceeds(d, s.grns[id].lines, picks, id, s.clock);
      PostLinesGains(d, s.grns[id].lines, picks, id, s.clock);
      var next := PostLines(d, s.grns[id].lines, picks, id, s.clock).value;
      assert PoGains(s.pos[s.grns[id].po], next.pos[s.grns[id].po], s.grns[id].po, s.grns[id].lines);
    }
  }

  /** What an accepted approval does to the orders, in one statement. */
  ghost predicate OrderReceives(s: State, t: State, id: nat)
    requires id < |s.grns|
  {
    var g := s.grns[id];
    && |t.pos| == |s.pos| && g.po < |s.pos|
    && t.grns == s.grns[id := g.(status := Approved)]
    && (forall po | 0 <= po < |s.pos| && po != g.po :: t.pos[po] == s.pos[po])
    && PoGains(s.pos[g.po], t.pos[g.po].(status := s.pos[g.po].status), g.po, g.lines)
    && t.pos[g.po].status == StatusAfterReceipt(t.pos[g.po].lines, s.pos[g.po].status)
  }

  lemma ApproveGrnReceives(s: State, id: nat, picks: seq<nat>)
    requires GrnsOnOrder(s) && ApproveGrn(s, id, picks).Ok?
    ensures OrderReceives(s, ApproveGrn(s, id, picks).value, id)
  {
    var g, t := s.grns[id], ApproveGrn(s, id, picks).value;
    var d := Desk(s.books, s.receipts, s.pos);
    PostLinesGains(d, g.lines, picks, id, s.clock);
    var next := PostLines(d, g.lines, picks, id, s.clock).value;
    assert GrnOnOrder(s.pos, g);
    assert PoGains(s.pos[g.po], next.pos[g.po], g.po, g.lines);
    assert t.pos[g.po].(status := s.pos[g.po].status) == next.pos[g.po];
    forall po | 0 <= po < |s.pos| && po != g.po ensures t.pos[po] == s.pos[po] {
      assert PoGains(s.pos[po], next.pos[po], po, g.lines);
      OtherPoUntouched(s, id, po, next.pos[po]);
    }
  }

  lemma ApproveGrnConserves(s: State, t: State, id: nat)
    requires GrnsOnOrder(s) && Conserved(s) && id < |s.grns| && s.grns[id].status.Submitted?
    requires OrderReceives(s, t, id)
    ensures Conserved(t)
  {
    var g := s.grns[id];
    forall po, i | 0 <= po < |t.pos| && 0 <= i < |t.pos[po].lines| ensures LineConserved(t.pos, t.grns, po, i) {
      var key := KeyOf(s.pos, po, i);
      assert LineConserved(s.pos, s.grns, po, i);
      SumUpdate(s.grns, id, g.(status := Approved), ApprovedFor(key));
      if po != g.po {
        assert GrnOnOrder(s.pos, g);
        SumZero(g.lines, QtyForKey(key));
      }
    }
  }

  lemma ApproveGrnKeepsOnOrder(s: State, t: State, id: nat)
    requires GrnsOnOrder(s) && StatusesTrue(s) && id < |s.grns|
    requires OrderReceives(s, t, id)
    ensures GrnsOnOrder(t) && StatusesTrue(t)
  {
    var g := s.grns[id];
    assert GrnOnOrder(s.pos, g);
    StatusAfterGain(s.pos[g.po], t.pos[g.po].(status := s.pos[g.po].status), g.po, g.lines);
    assert StatusTrue(t.pos[g.po]);
    forall h | 0 <= h < |t.grns| ensures GrnOnOrder(t.pos, t.grns[h]) {
      assert GrnOnOrder(s.pos, s.grns[h]);
      forall i | 0 <= i < |t.grns[h].lines| ensures OnOrder(t.pos, t.grns[h].lines[i].poLine) {
        assert OnOrder(s.pos, s.grns[h].lines[i].poLine);
      }
    }
  }

  lemma ApproveGrnKeeps(s: State, id: nat, picks: seq<nat>)
    requires ReceivingInv(s) && ApproveGrn(s, id, picks).Ok?
    ensures ReceivingInv(ApproveGrn(s, id, picks).value)
  {
    ApproveGrnReceives(s, id, picks);
    var t := ApproveGrn(s, id, picks).value;
    ApproveGrnConserves(s, t, id);
    ApproveGrnKeepsOnOrder(s, t, id);
  }
}
