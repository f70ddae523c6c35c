/** Document numbers, and the search loops that look for a free slug or SKU. */
module Numbering {
  import opened Sums

  // ------------------------------------------------------------------
  // Decimal numerals
  // ------------------------------------------------------------------

  function DigitOf(d: nat): char
    requires d < 10
  {
    (48 + d) as char
  }

  function Digits(n: nat): string {
    if n < 10 then [DigitOf(n)] else Digits(n / 10) + [DigitOf(n % 10)]
  }

  function Zeros(k: nat): string {
    if k == 0 then "" else "0" + Zeros(k - 1)
  }

  /** The :05d format: padded on the left to five digits, longer when the number needs it. */
  function Pad5(n: nat): string {
    Zeros(if |Digits(n)| < 5 then 5 - |Digits(n)| else 0) + Digits(n)
  }

  /** Reading a numeral back. */
  function Value(s: string): int
    decreases |s|
  {
    if s == "" then 0 else 10 * Value(s[..|s| - 1]) + (s[|s| - 1] as int - 48)
  }

  lemma {:induction false} ValueOfDigits(n: nat)
    ensures Value(Digits(n)) == n
  {
    if n < 10 {
      assert Digits(n)[..0] == "";
    } else {
      ValueOfDigits(n / 10);
      assert Digits(n)[..|Digits(n)| - 1] == Digits(n / 10);
    }
  }

  lemma {:induction false} LeadingZeros(k: nat, s: string)
    ensures Value(Zeros(k) + s) == Value(s)
    decreases |s|, k
  {
    if s == "" {
      assert Zeros(k) + s == Zeros(k);
      if k > 0 {
        LeadingZeros(k - 1, "");
        assert Zeros(k - 1) + "" == Zeros(k - 1);
        ZerosFromTheRight(k);
      }
    } else {
      var t := Zeros(k) + s;
      assert t[..|t| - 1] == Zeros(k) + s[..|s| - 1];
      LeadingZeros(k, s[..|s| - 1]);
    }
  }

  lemma {:induction false} ZerosFromTheRight(k: nat)
    requires k > 0
    ensures Zeros(k) == Zeros(k - 1) + "0"
  {
    if k > 1 {
      ZerosFromTheRight(k - 1);
      assert "0" + (Zeros(k - 2) + "0") == ("0" + Zeros(k - 2)) + "0";
    }
  }

  /** Padded numerals read back, also beyond five digits; hence different numbers look different. */
  lemma Pad5ReadsBack(n: nat)
    ensures Value(Pad5(n)) == n
  {
    LeadingZeros(if |Digits(n)| < 5 then 5 - |Digits(n)| else 0, Digits(n));
    ValueOfDigits(n);
  }

  predicate AllDigits(s: string) {
    forall i | 0 <= i < |s| :: '0' <= s[i] <= '9'
  }

  lemma {:induction false} DigitsShape(n: nat)
    ensures AllDigits(Digits(n)) && |Digits(n)| >= 1
    ensures n > 0 ==> Digits(n)[0] != '0'
  {
    if n >= 10 {
      DigitsShape(n / 10);
    }
  }

  lemma {:induction false} ZerosShape(k: nat)
    ensures |Zeros(k)| == k && forall i | 0 <= i < k :: Zeros(k)[i] == '0'
  {
    if k > 0 {
      ZerosShape(k - 1);
    }
  }

  lemma {:induction false} SmallNumbersAreShort(n: nat, k: nat, bound: nat)
    requires k > 0 && bound == Power10(k) && n < bound
    ensures |Digits(n)| <= k
    decreases k
  {
    if n >= 10 {
      SmallNumbersAreShort(n / 10, k - 1, Power10(k - 1));
    }
  }

  function Power10(k: nat): nat {
    if k == 0 then 1 else 10 * Power10(k - 1)
  }

  /** A padded numeral has digits only, five of them up to 99999, and no padding beyond five. */
  lemma Pad5Shape(n: nat)
    ensures AllDigits(Pad5(n)) && |Pad5(n)| >= 5
    ensures n < 100000 ==> |Pad5(n)| == 5
    ensures |Pad5(n)| > 5 ==> Pad5(n)[0] != '0'
  {
    var d := Digits(n);
    DigitsShape(n);
    ZerosShape(if |d| < 5 then 5 - |d| else 0);
    if n < 100000 {
      assert Power10(5) == 100000;
      SmallNumbersAreShort(n, 5, 100000);
    }
  }

  // ------------------------------------------------------------------
  // Sequential document numbers
  // ------------------------------------------------------------------

  /** strftime("%Y%m%d"). */
  type Day = d: string | |d| == 8 witness "20260101"

  function Prefix(kind: string, day: Day): string {
    kind + "-" + day + "-"
  }

  /** A row of a document table; deletion only sets its flag. */
  datatype Row = Row(number: string, deleted: bool)

  datatype Event = Creates(day: Day) | Deletes(i: nat)

  /** LIKE 'prefix%'; a prefix holds no wildcard. The query does not look at the flag. */
  function HasPrefix(prefix: string): Row -> int {
    (row: Row) => if prefix <= row.number then 1 else 0
  }

  /** get_next_po_number and its three siblings. */
  function NextNumber(rows: seq<Row>, kind: string, day: Day): string {
    var count := Sum(rows, HasPrefix(Prefix(kind, day)));
    Prefix(kind, day) + Pad5(if count >= 0 then count + 1 else 0)
  }

  /** The table of one kind after documents were created and deleted in that order. */
  function Table(kind: string, events: seq<Event>): seq<Row>
    decreases |events|
  {
    if events == [] then []
    else
      var rows := Table(kind, events[..|events| - 1]);
      match events[|events| - 1]
      case Creates(day) => rows + [Row(NextNumber(rows, kind, day), false)]
      case Deletes(i) => if i < |rows| then rows[i := rows[i].(deleted := true)] else rows
  }

  /** The days on which the documents of a table were created. */
  function DaysOf(events: seq<Event>): seq<Day>
    decreases |events|
  {
    if events == [] then []
    else
      var days := DaysOf(events[..|events| - 1]);
      match events[|events| - 1]
      case Creates(day) => days + [day]
      case Deletes(_) => days
  }

  function IsDay(day: Day): Day -> int {
    (d: Day) => if d == day then 1 else 0
  }

  /** How many documents the days list holds for one day. */
  function Occurrences(days: seq<Day>, day: Day): int {
    Sum(days, IsDay(day))
  }

  lemma PrefixDeterminesDay(kind: string, d: Day, e: Day, rest: string)
    requires Prefix(kind, d) <= Prefix(kind, e) + rest
    ensures d == e
  {
    var row, n := Prefix(kind, e) + rest, |kind| + 1;
    assert row[n..n + 8] == e;
    assert row[n..n + 8] == Prefix(kind, d)[n..n + 8] == d;
  }

  lemma PrefixesDiffer(kind: string, d: Day, e: Day, rest: string)
    requires d != e
    ensures !(Prefix(kind, d) <= Prefix(kind, e) + rest)
  {
    if Prefix(kind, d) <= Prefix(kind, e) + rest {
      PrefixDeterminesDay(kind, d, e, rest);
    }
  }

  /** The count of a day's rows is the number of documents ever created on it, deleted or not. */
  lemma {:induction false} CountIsOccurrences(kind: string, events: seq<Event>, day: Day)
    ensures |Table(kind, events)| == |DaysOf(events)|
    ensures Sum(Table(kind, events), HasPrefix(Prefix(kind, day))) == Occurrences(DaysOf(events), day)
    ensures Occurrences(DaysOf(events), day) >= 0
    decreases |events|
  {
    if events != [] {
      var before := events[..|events| - 1];
      var rows, days := Table(kind, before), DaysOf(before);
      CountIsOccurrences(kind, before, day);
      match events[|events| - 1]
      case Creates(last) =>
        CountIsOccurrences(kind, before, last);
        SumAppend(rows, Row(NextNumber(rows, kind, last), false), HasPrefix(Prefix(kind, day)));
        SumAppend(days, last, IsDay(day));
        if last != day {
          PrefixesDiffer(kind, day, last, Pad5(Occurrences(days, last) + 1));
        }
      case Deletes(i) =>
        if i < |rows| {
          SumUpdate(rows, i, rows[i].(deleted := true), HasPrefix(Prefix(kind, day)));
        }
    }
  }

  /**
   * The i-th document gets its day's prefix and its ordinal within the day, 1, 2, 3, ..., whatever was
   * deleted before or since.
   */
  lemma {:induction false} NumbersAreOrdinals(kind: string, events: seq<Event>, i: nat)
    requires i < |DaysOf(events)|
    ensures |Table(kind, events)| == |DaysOf(events)|
    ensures
      var days := DaysOf(events);
      && Occurrences(days[..i], days[i]) >= 0
      && Table(kind, events)[i].number ==
         kind + "-" + days[i] + "-" + Pad5(Occurrences(days[..i], days[i]) + 1)
    decreases |events|
  {
    var before, days := events[..|events| - 1], DaysOf(events);
    CountIsOccurrences(kind, events, days[i]);
    CountIsOccurrences(kind, before, days[i]);
    if i < |DaysOf(before)| {
      NumbersAreOrdinals(kind, before, i);
      assert DaysOf(before)[..i] == days[..i];
    } else {
      assert days[..i] == DaysOf(before);
    }
  }

  lemma {:induction false} OccurrencesGrow(days: seq<Day>, i: nat, j: nat)
    requires i < j < |days| && days[i] == days[j]
    ensures Occurrences(days[..i], days[i]) < Occurrences(days[..j], days[j])
  {
    var day := days[i];
    assert days[..j] == days[..i] + [day] + days[i + 1..j];
    SumConcat(days[..i] + [day], days[i + 1..j], IsDay(day));
    SumAppend(days[..i], day, IsDay(day));
    SumNonNegative(days[i + 1..j], IsDay(day));
  }

  /** No two documents of a kind ever share a number, deleted ones included. */
  lemma NumbersAreDistinct(kind: string, events: seq<Event>, i: nat, j: nat)
    requires i < j < |DaysOf(events)|
    ensures |Table(kind, events)| == |DaysOf(events)|
    ensures Table(kind, events)[i].number != Table(kind, events)[j].number
  {
    NumbersAreOrdinals(kind, events, i);
    NumbersAreOrdinals(kind, events, j);
    var days, rows := DaysOf(events), Table(kind, events);
    var m, n := Occurrences(days[..i], days[i]) + 1, Occurrences(days[..j], days[j]) + 1;
    if days[i] != days[j] {
      PrefixesDiffer(kind, days[i], days[j], Pad5(n));
      assert Prefix(kind, days[i]) <= rows[i].number;
    } else {
      OccurrencesGrow(days, i, j);
      OrdinalsDiffer(Prefix(kind, days[i]), m, n);
    }
  }

  lemma OrdinalsDiffer(prefix: string, m: nat, n: nat)
    requires m != n
    ensures prefix + Pad5(m) != prefix + Pad5(n)
  {
    Pad5ReadsBack(m);
    Pad5ReadsBack(n);
    assert (prefix + Pad5(m))[|prefix|..] == Pad5(m) && (prefix + Pad5(n))[|prefix|..] == Pad5(n);
  }

  /** po_number_exists. */
  predicate Taken(rows: seq<Row>, number: string) {
    exists i | 0 <= i < |rows| :: rows[i].number == number
  }

  /** Hence the next number is never taken. */
  lemma NextNumberIsFree(kind: string, events: seq<Event>, day: Day)
    ensures !Taken(Table(kind, events), NextNumber(Table(kind, events), kind, day))
  {
    var more := events + [Creates(day)];
    var rows := Table(kind, events);
    assert more[..|events|] == events;
    CountIsOccurrences(kind, events, day);
    assert Table(kind, more) == rows + [Row(NextNumber(rows, kind, day), false)];
    assert DaysOf(more) == DaysOf(events) + [day];
    forall i | 0 <= i < |rows| ensures rows[i].number != NextNumber(rows, kind, day) {
      NumbersAreDistinct(kind, more, i, |rows|);
    }
  }

  /**
   * Number generation in PurchaseOrderService.create: another number is asked for as long as the number
   * exists. On one table every round gets the same number, so the loop runs out of any patience once it
   * is entered; on the table of a sequential run it never is.
   */
  method NewPoNumber(rows: seq<Row>, day: Day, patience: nat) returns (number: string, rounds: nat)
    ensures number == NextNumber(rows, "PO", day)
    ensures rounds == if Taken(rows, number) then patience else 0
    ensures forall events | rows == Table("PO", events) :: !Taken(rows, number) && rounds == 0
  {
    number := NextNumber(rows, "PO", day);
    rounds := 0;
    while Taken(rows, number) && rounds < patience
      invariant number == NextNumber(rows, "PO", day)
      invariant rounds <= patience && (rounds > 0 ==> Taken(rows, number))
    {
      number := NextNumber(rows, "PO", day);
      rounds := rounds + 1;
    }
    forall events | rows == Table("PO", events) ensures !Taken(rows, number) {
      NextNumberIsFree("PO", events, day);
    }
  }

  // ------------------------------------------------------------------
  // Search loops
  // ------------------------------------------------------------------

  /** The names the slug loop tries: the base itself, then base-1, base-2, ... */
  function SlugNames(base: string): nat -> string {
    (k: nat) => if k == 0 then base else base + "-" + Digits(k)
  }

  /** The names the SKU loop tries, from the given sequence number on. */
  function SkuNames(stem: string, start: nat): nat -> string {
    (k: nat) => stem + Pad5(start + k + 1)
  }

  ghost predicate AllDifferent(names: nat -> string) {
    forall i: nat, j: nat | i < j :: names(i) != names(j)
  }

  lemma SlugNamesDiffer(base: string)
    ensures AllDifferent(SlugNames(base))
  {
    forall i: nat, j: nat | i < j ensures SlugNames(base)(i) != SlugNames(base)(j) {
      ValueOfDigits(i);
      ValueOfDigits(j);
      var n := |base| + 1;
      assert SlugNames(base)(j)[n..] == Digits(j);
      assert i > 0 ==> SlugNames(base)(i)[n..] == Digits(i);
    }
  }

  lemma SkuNamesDiffer(stem: string, start: nat)
    ensures AllDifferent(SkuNames(stem, start))
  {
    forall i: nat, j: nat | i < j ensures SkuNames(stem, start)(i) != SkuNames(stem, start)(j) {
      Pad5ReadsBack(start + i + 1);
      Pad5ReadsBack(start + j + 1);
      assert SkuNames(stem, start)(i)[|stem|..] == Pad5(start + i + 1);
      assert SkuNames(stem, start)(j)[|stem|..] == Pad5(start + j + 1);
    }
  }

  /** Pigeonhole: k different names fit into the live ones only if there are k of them. */
  lemma {:induction false} NamesFit(names: nat -> string, k: nat, live: set<string>)
    requires AllDifferent(names)
    requires forall i: nat | i < k :: names(i) in live
    ensures k <= |live|
  {
    if k > 0 {
      forall i: nat | i < k - 1 ensures names(i) in live - {names(k - 1)} {
        assert names(i) != names(k - 1);
      }
      NamesFit(names, k - 1, live - {names(k - 1)});
    }
  }

  /**
   * CategoryService.create: the first candidate no live category uses. Each failed try is another
   * live slug, so there are at most as many of them as live slugs.
   */
  method UniqueSlug(base: string, live: set<string>) returns (slug: string, tries: nat)
    ensures slug == SlugNames(base)(tries) && slug !in live
    ensures forall k: nat | k < tries :: SlugNames(base)(k) in live
    ensures tries <= |live|
  {
    slug := base;
    tries := 0;
    var counter := 1;
    SlugNamesDiffer(base);
    while slug in live
      invariant slug == SlugNames(base)(tries) && counter == tries + 1
      invariant forall k: nat | k < tries :: SlugNames(base)(k) in live
      invariant tries <= |live|
      decreases |live| - tries
    {
      NamesFit(SlugNames(base), tries + 1, live);
      slug := base + "-" + Digits(counter);
      counter := counter + 1;
      tries := tries + 1;
    }
  }

  /** ProductService.create, wherever the row count makes the sequence start. */
  method UniqueSku(stem: string, start: nat, live: set<string>) returns (sku: string, tries: nat)
    ensures sku == SkuNames(stem, start)(tries) && sku !in live
    ensures forall k: nat | k < tries :: SkuNames(stem, start)(k) in live
    ensures tries <= |live|
  {
    var sequence := start;
    sku := stem + Pad5(sequence + 1);
    tries := 0;
    SkuNamesDiffer(stem, start);
    while sku in live
      invariant sku == SkuNames(stem, start)(tries) && sequence == start + tries
      invariant forall k: nat | k < tries :: SkuNames(stem, start)(k) in live
      invariant tries <= |live|
      decreases |live| - tries
    {
      NamesFit(SkuNames(stem, start), tries + 1, live);
      sequence := sequence + 1;
      sku := stem + Pad5(sequence + 1);
      tries := tries + 1;
    }
  }
}
