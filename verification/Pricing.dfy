/**
 * Money on purchase orders. Quantities and prices count 10^-4, percentages count 10^-2 of a percent,
 * so every intermediate amount is an exact integer count of 10^-16.
 */
module Pricing {
  import opened Rounding
  import opened Sums

  datatype PricedItem = PricedItem(qty: nat, price: nat, discount: nat, tax: nat)

  const HUNDRED_PERCENT := 10000
  /** 10^12: from 10^-16 to the fourth decimal. */
  const UNIT := 1_0000_0000_0000

  /** The request schema keeps both percentages between 0 and 100. */
  predicate ValidItem(x: PricedItem) {
    x.discount <= HUNDRED_PERCENT && x.tax <= HUNDRED_PERCENT
  }

  ghost predicate ValidItems(items: seq<PricedItem>) {
    forall i | 0 <= i < |items| :: ValidItem(items[i])
  }

  function Base(): PricedItem -> int {
    (x: PricedItem) => x.qty * x.price * HUNDRED_PERCENT * HUNDRED_PERCENT
  }

  function Discount(): PricedItem -> int {
    (x: PricedItem) => x.qty * x.price * x.discount * HUNDRED_PERCENT
  }

  function Tax(): PricedItem -> int {
    (x: PricedItem) => x.qty * x.price * (HUNDRED_PERCENT - x.discount) * x.tax
  }

  function Gross(): PricedItem -> int {
    (x: PricedItem) => Base()(x) - Discount()(x) + Tax()(x)
  }

  /** _calc_line_total. */
  function LineTotal(): PricedItem -> int {
    (x: PricedItem) => Round(Gross()(x), UNIT)
  }

  /** The exact amounts of an item: its base, the discount off the base, the tax on what is left. */
  predicate Billed(x: PricedItem, base: int, disc: int, tax: int) {
    && base == x.qty * x.price * (HUNDRED_PERCENT * HUNDRED_PERCENT)
    && disc * HUNDRED_PERCENT == base * x.discount
    && tax * HUNDRED_PERCENT == (base - disc) * x.tax
  }

  ghost predicate AllBilled(items: seq<PricedItem>, base: seq<int>, disc: seq<int>, tax: seq<int>) {
    && |base| == |disc| == |tax| == |items|
    && forall i | 0 <= i < |items| :: Billed(items[i], base[i], disc[i], tax[i])
  }

  function Total(amounts: seq<int>): int {
    Sum(amounts, Itself())
  }

  function Itself(): int -> int {
    (x: int) => x
  }

  /** Quantity times price, in units of 10^-8. */
  function Worth(): PricedItem -> int {
    (x: PricedItem) => x.qty * x.price
  }

  lemma AmountsAreBilled(x: PricedItem)
    ensures Billed(x, Base()(x), Discount()(x), Tax()(x))
  {
    var amount := x.qty * x.price;
    var net := amount * (HUNDRED_PERCENT - x.discount);
    assert Base()(x) - Discount()(x) == net * HUNDRED_PERCENT by {
      assert amount * x.discount + net == amount * HUNDRED_PERCENT;
    }
    assert Tax()(x) == net * x.tax;
  }

  /** The accumulated amounts are those of the items, whatever way they are computed. */
  lemma SumsAreBilled(items: seq<PricedItem>) returns (base: seq<int>, disc: seq<int>, tax: seq<int>)
    ensures AllBilled(items, base, disc, tax)
    ensures Total(base) == Sum(items, Base())
    ensures Total(disc) == Sum(items, Discount())
    ensures Total(tax) == Sum(items, Tax())
  {
    base := seq(|items|, i requires 0 <= i < |items| => Base()(items[i]));
    disc := seq(|items|, i requires 0 <= i < |items| => Discount()(items[i]));
    tax := seq(|items|, i requires 0 <= i < |items| => Tax()(items[i]));
    forall i | 0 <= i < |items| ensures Billed(items[i], base[i], disc[i], tax[i]) {
      AmountsAreBilled(items[i]);
    }
    SumPointwise(base, items, Itself(), Base());
    SumPointwise(disc, items, Itself(), Discount());
    SumPointwise(tax, items, Itself(), Tax());
  }

  lemma {:induction false} BaseIsWorth(items: seq<PricedItem>)
    ensures Sum(items, Base()) == Sum(items, Worth()) * (HUNDRED_PERCENT * HUNDRED_PERCENT)
  {
    if items != [] {
      BaseIsWorth(items[1..]);
      AmountsAreBilled(items[0]);
    }
  }

  class PurchaseOrderTotals {
    var items: seq<PricedItem>
    var subtotal: int
    var discountAmount: int
    var taxAmount: int
    var totalAmount: int

    /** _recalc_po_totals, over the item list it is given: three accumulators, rounded at the end. */
    method Recalc()
      modifies `subtotal, `discountAmount, `taxAmount, `totalAmount
      ensures exists base, disc, tax ::
                && AllBilled(items, base, disc, tax)
                && subtotal == Round(Total(base), UNIT)
                && discountAmount == Round(Total(disc), UNIT)
                && taxAmount == Round(Total(tax), UNIT)
                && totalAmount == Round(Total(base) - Total(disc) + Total(tax), UNIT)
      ensures subtotal == Round(Sum(items, Worth()), 1_0000)
      ensures subtotal == Round(Sum(items, Base()), UNIT)
      ensures discountAmount == Round(Sum(items, Discount()), UNIT)
      ensures taxAmount == Round(Sum(items, Tax()), UNIT)
      ensures totalAmount == Round(Sum(items, Gross()), UNIT)
    {
      var sub, disc, tax := 0, 0, 0;
      for i := 0 to |items|
        invariant sub == Sum(items[..i], Base())
        invariant disc == Sum(items[..i], Discount())
        invariant tax == Sum(items[..i], Tax())
      {
        var x := items[i];
        assert items[..i + 1] == items[..i] + [x];
        SumAppend(items[..i], x, Base());
        SumAppend(items[..i], x, Discount());
        SumAppend(items[..i], x, Tax());
        sub := sub + Base()(x);
        disc := disc + Discount()(x);
        tax := tax + Tax()(x);
      }
      assert items[..|items|] == items;
      GrossIsSum(items);
      subtotal := Round(sub, UNIT);
      discountAmount := Round(disc, UNIT);
      taxAmount := Round(tax, UNIT);
      totalAmount := Round(sub - disc + tax, UNIT);
      ghost var bases, discs, taxes := SumsAreBilled(items);
      BaseIsWorth(items);
      RoundScaled(Sum(items, Worth()), 1_0000, HUNDRED_PERCENT * HUNDRED_PERCENT);
    }
  }

  lemma {:induction false} GrossIsSum(items: seq<PricedItem>)
    ensures Sum(items, Gross()) == Sum(items, Base()) - Sum(items, Discount()) + Sum(items, Tax())
  {
    if items != [] {
      GrossIsSum(items[1..]);
    }
  }

  /** The amount a line bills is its base, less the discount, plus the tax on what is left. */
  lemma GrossIsDiscountedAndTaxed(x: PricedItem)
    ensures Gross()(x) == x.qty * x.price * (HUNDRED_PERCENT - x.discount) * (HUNDRED_PERCENT + x.tax)
  {
    var amount := x.qty * x.price;
    var net := amount * (HUNDRED_PERCENT - x.discount);
    assert Base()(x) - Discount()(x) == net * HUNDRED_PERCENT by {
      assert amount * x.discount + net == amount * HUNDRED_PERCENT;
    }
    assert Tax()(x) == net * x.tax;
    assert Gross()(x) == net * HUNDRED_PERCENT + net * x.tax;
    Distribute(net, HUNDRED_PERCENT, x.tax);
  }

  lemma Distribute(k: int, a: int, b: int)
    ensures k * (a + b) == k * a + k * b
  {
  }

  /** Errors of at most half a unit per term add up to at most half a unit per term. */
  lemma {:induction false} ErrorsAddUp(items: seq<PricedItem>, f: PricedItem -> int, g: PricedItem -> int, unit: int)
    requires unit >= 0
    requires forall x :: -unit <= 2 * (unit * f(x) - g(x)) <= unit
    ensures -|items| * unit <= 2 * (unit * Sum(items, f) - Sum(items, g)) <= |items| * unit
  {
    if items != [] {
      ErrorsAddUp(items[1..], f, g, unit);
      var x, n := items[0], |items| - 1;
      assert -unit <= 2 * (unit * f(x) - g(x)) <= unit;
      assert unit * Sum(items, f) == unit * f(x) + unit * Sum(items[1..], f);
      assert |items| * unit == n * unit + unit;
    }
  }

  lemma LineErrors(items: seq<PricedItem>)
    ensures -|items| * UNIT <= 2 * (UNIT * Sum(items, LineTotal()) - Sum(items, Gross())) <= |items| * UNIT
  {
    forall x: PricedItem ensures -UNIT <= 2 * (UNIT * LineTotal()(x) - Gross()(x)) <= UNIT {
      RoundError(Gross()(x), UNIT);
    }
    ErrorsAddUp(items, LineTotal(), Gross(), UNIT);
  }

  /** For n lines the rounded line totals add up to the total within (n + 1) / 2 units. */
  lemma LineTotalsVersusTotal(items: seq<PricedItem>)
    ensures
      var lines, total := Sum(items, LineTotal()), Round(Sum(items, Gross()), UNIT);
      -(|items| + 1) <= 2 * (lines - total) <= |items| + 1
  {
    LineErrors(items);
    RoundError(Sum(items, Gross()), UNIT);
  }

  /** subtotal - discount + tax, recomputed from the rounded fields, is within two units of the total. */
  lemma FieldsVersusTotal(items: seq<PricedItem>)
    ensures
      var fields := Round(Sum(items, Base()), UNIT) - Round(Sum(items, Discount()), UNIT)
                    + Round(Sum(items, Tax()), UNIT);
      -2 <= fields - Round(Sum(items, Gross()), UNIT) <= 2
  {
    GrossIsSum(items);
    RoundError(Sum(items, Base()), UNIT);
    RoundError(Sum(items, Discount()), UNIT);
    RoundError(Sum(items, Tax()), UNIT);
    RoundError(Sum(items, Gross()), UNIT);
  }

  lemma ItemSigns(x: PricedItem)
    requires ValidItem(x)
    ensures 0 <= Discount()(x) <= Base()(x)
    ensures 0 <= Tax()(x)
  {
    var amount := x.qty * x.price;
    MulMonotone(amount, x.discount, HUNDRED_PERCENT);
    assert amount * (HUNDRED_PERCENT - x.discount) >= 0;
  }

  lemma {:induction false} TotalSigns(items: seq<PricedItem>)
    requires ValidItems(items)
    ensures 0 <= Sum(items, Discount()) <= Sum(items, Base())
    ensures 0 <= Sum(items, Tax())
  {
    if items != [] {
      ItemSigns(items[0]);
      TotalSigns(items[1..]);
    }
  }

  /** Rounding keeps the signs: 0 <= discount <= subtotal, and no negative tax or total. */
  lemma RoundedSigns(items: seq<PricedItem>)
    requires ValidItems(items)
    ensures 0 <= Round(Sum(items, Discount()), UNIT) <= Round(Sum(items, Base()), UNIT)
    ensures 0 <= Round(Sum(items, Tax()), UNIT)
    ensures 0 <= Round(Sum(items, Gross()), UNIT)
  {
    TotalSigns(items);
    GrossIsSum(items);
    RoundMonotone(0, Sum(items, Discount()), UNIT);
    RoundMonotone(Sum(items, Discount()), Sum(items, Base()), UNIT);
    RoundMonotone(0, Sum(items, Tax()), UNIT);
    RoundMonotone(0, Sum(items, Gross()), UNIT);
    RoundOnGrid(0, UNIT);
  }
}
