/** apps/web/src/lib/sales-order-gst.ts over exact reals: rounding to paise, the CGST/SGST split, conversion and totals. */
module SalesGst {
  import opened Options

  // ----- rounding to paise

  /** `Math.round(value * 100)`: halves go up. */
  function Paise(x: real): int {
    (x * 100.0 + 0.5).Floor
  }

  function Round2(x: real): real {
    Paise(x) as real / 100.0
  }

  /** A whole number of paise. */
  predicate IsPaise(x: real) {
    Round2(x) == x
  }

  lemma RoundNear(x: real)
    ensures -0.005 <= Round2(x) - x <= 0.005
  {
  }

  lemma RoundMonotone(x: real, y: real)
    requires x <= y
    ensures Round2(x) <= Round2(y)
  {
    FloorMonotone(x * 100.0 + 0.5, y * 100.0 + 0.5);
  }

  lemma FloorMonotone(x: real, y: real)
    requires x <= y
    ensures x.Floor <= y.Floor
  {
  }

  lemma WholePaise(n: int)
    ensures Round2(n as real / 100.0) == n as real / 100.0
  {
    assert (n as real + 0.5).Floor == n;
  }

  lemma RoundIsPaise(x: real)
    ensures IsPaise(Round2(x))
  {
    WholePaise(Paise(x));
  }

  lemma PaiseSum(x: real, y: real)
    requires IsPaise(x) && IsPaise(y)
    ensures IsPaise(x + y) && IsPaise(x - y)
  {
    WholePaise(Paise(x) + Paise(y));
    WholePaise(Paise(x) - Paise(y));
  }

  /** `r` is `x` to the nearest paisa: whole paise, and of two equally near the higher. */
  ghost predicate RoundsTo(x: real, r: real) {
    (r * 100.0).Floor as real == r * 100.0 && -0.005 < r - x <= 0.005
  }

  lemma RoundsExactly(x: real, r: real)
    ensures RoundsTo(x, r) <==> r == Round2(x)
  {
    if RoundsTo(x, r) {
      var n := (r * 100.0).Floor;
      assert (x * 100.0 + 0.5).Floor == n;
    }
  }

  // ----- one line

  datatype SupplyType = IntraState | InterState

  datatype Percents = Percents(cgst: real, sgst: real, igst: real)

  datatype LineInput = LineInput(
    quantity: real, unitPrice: real, discountAmount: real, percents: Percents, supplyType: SupplyType)

  datatype LineComputed = LineComputed(
    taxable: real, cgstAmount: real, sgstAmount: real, igstAmount: real,
    taxAmount: real, lineTotal: real, taxRate: real)

  function Max(x: real, y: real): real { if x >= y then x else y }
  function Min(x: real, y: real): real { if x <= y then x else y }

  function TaxableOf(quantity: real, unitPrice: real, discount: real): real {
    Round2(Max(Round2(quantity * unitPrice) - discount, 0.0))
  }

  function Share(taxable: real, percent: real): real {
    taxable * percent / 100.0
  }

  /** Round the combined tax once; SGST takes what CGST leaves. */
  function IntraLine(taxable: real, cgstShare: real, combinedShare: real, taxRate: real): LineComputed {
    var combined := Round2(combinedShare);
    var cgst := Min(Round2(cgstShare), combined);
    var sgst := Round2(combined - cgst);
    var tax := Round2(cgst + sgst + 0.0);
    LineComputed(taxable, cgst, sgst, 0.0, tax, Round2(taxable + tax), taxRate)
  }

  function InterLine(taxable: real, igstShare: real, taxRate: real): LineComputed {
    var igst := Round2(igstShare);
    var tax := Round2(0.0 + 0.0 + igst);
    LineComputed(taxable, 0.0, 0.0, igst, tax, Round2(taxable + tax), taxRate)
  }

  /** The percentage a line is taxed at, whichever way it is split. */
  function RateOf(p: Percents, supplyType: SupplyType): real {
    if supplyType.IntraState? then p.cgst + p.sgst else p.igst
  }

  function LineOn(taxable: real, p: Percents, supplyType: SupplyType): LineComputed {
    if supplyType.InterState?
    then InterLine(taxable, Share(taxable, p.igst), p.igst / 100.0)
    else IntraLine(taxable, Share(taxable, p.cgst), Share(taxable, p.cgst + p.sgst), (p.cgst + p.sgst) / 100.0)
  }

  function ComputeSalesLineGst(input: LineInput): LineComputed {
    LineOn(TaxableOf(input.quantity, input.unitPrice, input.discountAmount), input.percents, input.supplyType)
  }

  /** Amounts in whole paise that add up with nothing rounded away. */
  ghost predicate Exact(line: LineComputed) {
    && IsPaise(line.taxable) && IsPaise(line.cgstAmount) && IsPaise(line.sgstAmount) && IsPaise(line.igstAmount)
    && line.taxAmount == line.cgstAmount + line.sgstAmount + line.igstAmount
    && line.lineTotal == line.taxable + line.taxAmount
    && line.taxable >= 0.0
  }

  lemma TaxableIsPaise(quantity: real, unitPrice: real, discount: real)
    ensures IsPaise(TaxableOf(quantity, unitPrice, discount)) && TaxableOf(quantity, unitPrice, discount) >= 0.0
  {
    var x := Max(Round2(quantity * unitPrice) - discount, 0.0);
    RoundIsPaise(x);
    RoundMonotone(0.0, x);
    WholePaise(0);
  }

  /** The taxable amount is the discounted value, or zero, to within a paisa. */
  lemma TaxableIsDiscountedValue(quantity: real, unitPrice: real, discount: real)
    ensures -0.01 <= TaxableOf(quantity, unitPrice, discount) - Max(quantity * unitPrice - discount, 0.0) <= 0.01
  {
    var value := quantity * unitPrice;
    RoundNear(value);
    RoundNear(Max(Round2(value) - discount, 0.0));
    DiscountedNear(Round2(value), value, discount);
  }

  lemma DiscountedNear(x: real, y: real, discount: real)
    requires -0.005 <= x - y <= 0.005
    ensures -0.005 <= Max(x - discount, 0.0) - Max(y - discount, 0.0) <= 0.005
  {
  }

  lemma IntraLineIsExact(taxable: real, cgstShare: real, combinedShare: real, taxRate: real)
    requires IsPaise(taxable) && taxable >= 0.0
    ensures Exact(IntraLine(taxable, cgstShare, combinedShare, taxRate))
    ensures IntraLine(taxable, cgstShare, combinedShare, taxRate).taxAmount == Round2(combinedShare)
  {
    var combined := Round2(combinedShare);
    var cgst := Min(Round2(cgstShare), combined);
    RoundIsPaise(cgstShare);
    RoundIsPaise(combinedShare);
    PaiseSum(combined, cgst);
    PaiseSum(taxable, combined);
    WholePaise(0);
  }

  lemma InterLineIsExact(taxable: real, igstShare: real, taxRate: real)
    requires IsPaise(taxable) && taxable >= 0.0
    ensures Exact(InterLine(taxable, igstShare, taxRate))
    ensures InterLine(taxable, igstShare, taxRate).taxAmount == Round2(igstShare)
  {
    RoundIsPaise(igstShare);
    PaiseSum(taxable, Round2(igstShare));
    WholePaise(0);
  }

  /** Every computed line is exact, and taxed once: on the rate as a whole. */
  lemma LineIsExact(taxable: real, p: Percents, t: SupplyType)
    requires IsPaise(taxable) && taxable >= 0.0
    ensures Exact(LineOn(taxable, p, t))
    ensures LineOn(taxable, p, t).taxAmount == Round2(Share(taxable, RateOf(p, t)))
  {
    if t.IntraState? {
      IntraLineIsExact(taxable, Share(taxable, p.cgst), Share(taxable, p.cgst + p.sgst), (p.cgst + p.sgst) / 100.0);
    } else {
      InterLineIsExact(taxable, Share(taxable, p.igst), p.igst / 100.0);
    }
  }

  lemma TaxableIsRounded(quantity: real, unitPrice: real, discount: real) returns (gross: real)
    ensures RoundsTo(quantity * unitPrice, gross)
    ensures RoundsTo(if gross > discount then gross - discount else 0.0, TaxableOf(quantity, unitPrice, discount))
  {
    gross := Round2(quantity * unitPrice);
    RoundsExactly(quantity * unitPrice, gross);
    var rest := if gross > discount then gross - discount else 0.0;
    RoundsExactly(rest, Round2(rest));
  }

  /** The whole tax is rounded once; CGST gets its own rounded share, but no more than all of it, and SGST gets what is left. */
  ghost predicate IntraTaxed(line: LineComputed, cgstShare: real, combinedShare: real, taxRate: real, cgst: real) {
    && RoundsTo(combinedShare, line.taxAmount) && RoundsTo(cgstShare, cgst)
    && line.cgstAmount == (if cgst <= line.taxAmount then cgst else line.taxAmount)
    && line.sgstAmount == line.taxAmount - line.cgstAmount && line.igstAmount == 0.0
    && line.taxRate == taxRate
  }

  /** All of the tax is IGST. */
  ghost predicate InterTaxed(line: LineComputed, igstShare: real, taxRate: real) {
    && RoundsTo(igstShare, line.taxAmount)
    && line.cgstAmount == 0.0 && line.sgstAmount == 0.0 && line.igstAmount == line.taxAmount
    && line.taxRate == taxRate
  }

  lemma IntraIsSplit(taxable: real, cgstShare: real, combinedShare: real, taxRate: real) returns (cgst: real)
    requires IsPaise(taxable) && taxable >= 0.0
    ensures var line := IntraLine(taxable, cgstShare, combinedShare, taxRate);
            && IntraTaxed(line, cgstShare, combinedShare, taxRate, cgst)
            && line.taxable == taxable && line.lineTotal == taxable + line.taxAmount
  {
    cgst := Round2(cgstShare);
    IntraLineIsExact(taxable, cgstShare, combinedShare, taxRate);
    RoundsExactly(cgstShare, cgst);
    RoundsExactly(combinedShare, Round2(combinedShare));
  }

  lemma InterIsWhole(taxable: real, igstShare: real, taxRate: real)
    requires IsPaise(taxable) && taxable >= 0.0
    ensures var line := InterLine(taxable, igstShare, taxRate);
            && InterTaxed(line, igstShare, taxRate)
            && line.taxable == taxable && line.lineTotal == taxable + line.taxAmount
  {
    InterLineIsExact(taxable, igstShare, taxRate);
    RoundsExactly(igstShare, Round2(igstShare));
  }

  /** A line is taxed on its taxable amount at its own percents, and keeps the rate as a fraction. */
  ghost predicate TaxedAs(line: LineComputed, p: Percents, t: SupplyType, cgst: real) {
    if t.IntraState?
    then IntraTaxed(line, line.taxable * p.cgst / 100.0, line.taxable * (p.cgst + p.sgst) / 100.0, (p.cgst + p.sgst) / 100.0, cgst)
    else InterTaxed(line, line.taxable * p.igst / 100.0, p.igst / 100.0)
  }

  lemma ShareIs(taxable: real, percent: real)
    ensures Share(taxable, percent) == taxable * percent / 100.0
  {
  }

  /** Shares of the taxable amount at the line's percents make it taxed as stated. */
  lemma SharesMakeTaxed(line: LineComputed, p: Percents, cgst: real)
    requires IntraTaxed(line, Share(line.taxable, p.cgst), Share(line.taxable, p.cgst + p.sgst), (p.cgst + p.sgst) / 100.0, cgst)
    ensures TaxedAs(line, p, IntraState, cgst)
  {
    ShareIs(line.taxable, p.cgst);
    ShareIs(line.taxable, p.cgst + p.sgst);
  }

  lemma IntraIsTaxed(taxable: real, p: Percents) returns (cgst: real)
    requires IsPaise(taxable) && taxable >= 0.0
    ensures var line := LineOn(taxable, p, IntraState);
            TaxedAs(line, p, IntraState, cgst) && line.taxable == taxable && line.lineTotal == taxable + line.taxAmount
  {
    cgst := IntraIsSplit(taxable, Share(taxable, p.cgst), Share(taxable, p.cgst + p.sgst), (p.cgst + p.sgst) / 100.0);
    SharesMakeTaxed(LineOn(taxable, p, IntraState), p, cgst);
  }

  lemma InterIsTaxed(taxable: real, p: Percents, cgst: real)
    requires IsPaise(taxable) && taxable >= 0.0
    ensures var line := LineOn(taxable, p, InterState);
            TaxedAs(line, p, InterState, cgst) && line.taxable == taxable && line.lineTotal == taxable + line.taxAmount
  {
    InterIsWhole(taxable, Share(taxable, p.igst), p.igst / 100.0);
    ShareIs(taxable, p.igst);
  }

  /**
   * What a line comes to: the gross value is rounded before the discount and the rest after it, never below zero, the
   * tax is taken of that, and the total is exact.
   */
  lemma LineIsComputed(input: LineInput) returns (gross: real, cgst: real)
    ensures var line := ComputeSalesLineGst(input);
            && RoundsTo(input.quantity * input.unitPrice, gross)
            && RoundsTo(if gross > input.discountAmount then gross - input.discountAmount else 0.0, line.taxable)
            && TaxedAs(line, input.percents, input.supplyType, cgst)
            && line.lineTotal == line.taxable + line.taxAmount
  {
    gross := TaxableIsRounded(input.quantity, input.unitPrice, input.discountAmount);
    TaxableIsPaise(input.quantity, input.unitPrice, input.discountAmount);
    var taxable := TaxableOf(input.quantity, input.unitPrice, input.discountAmount);
    if input.supplyType.IntraState? {
      cgst := IntraIsTaxed(taxable, input.percents);
    } else {
      cgst := 0.0;
      InterIsTaxed(taxable, input.percents, cgst);
    }
  }

  lemma SharesAdd(t: real, c: real, s: real)
    ensures Share(t, c + s) == Share(t, c) + Share(t, s)
  {
    assert t * (c + s) == t * c + t * s;
  }

  lemma ShareNonNegative(t: real, c: real)
    requires t >= 0.0 && c >= 0.0
    ensures Share(t, c) >= 0.0
  {
  }

  /** The intra-state split: exact, never negative, and fair to within a paisa. */
  lemma SplitIsFair(input: LineInput)
    requires input.supplyType.IntraState? && input.percents.cgst >= 0.0 && input.percents.sgst >= 0.0
    ensures var line, p := ComputeSalesLineGst(input), input.percents;
            && line.cgstAmount + line.sgstAmount == Round2(Share(line.taxable, p.cgst + p.sgst)) == line.taxAmount
            && line.cgstAmount >= 0.0 && line.sgstAmount >= 0.0
            && -0.01 <= line.cgstAmount - Share(line.taxable, p.cgst) <= 0.01
            && -0.01 <= line.sgstAmount - Share(line.taxable, p.sgst) <= 0.01
            && (p.cgst == p.sgst ==> -0.01 <= line.cgstAmount - line.sgstAmount <= 0.01)
            && line.lineTotal == line.taxable + line.taxAmount
  {
    var taxable, p := TaxableOf(input.quantity, input.unitPrice, input.discountAmount), input.percents;
    TaxableIsPaise(input.quantity, input.unitPrice, input.discountAmount);
    LineIsExact(taxable, p, IntraState);
    SharesAdd(taxable, p.cgst, p.sgst);
    ShareNonNegative(taxable, p.cgst);
    ShareNonNegative(taxable, p.sgst);
    SplitOf(Share(taxable, p.cgst), Share(taxable, p.sgst));
  }

  lemma SplitOf(c: real, s: real)
    requires c >= 0.0 && s >= 0.0
    ensures 0.0 <= Round2(c) <= Round2(c + s)
    ensures -0.01 <= Round2(c) - c <= 0.01
    ensures -0.01 <= Round2(c + s) - Round2(c) - s <= 0.01
    ensures c == s ==> -0.01 <= Round2(c) - (Round2(c + s) - Round2(c)) <= 0.01
  {
    RoundMonotone(0.0, c);
    RoundMonotone(c, c + s);
    RoundNear(c);
    RoundNear(c + s);
    if c == s {
      TwiceRounded(c);
    }
  }

  /** Doubling before or after rounding differs by at most one paisa, because both are whole paise. */
  lemma TwiceRounded(c: real)
    ensures -0.01 <= 2.0 * Round2(c) - Round2(c + c) <= 0.01
  {
    RoundNear(c);
    RoundNear(c + c);
    var n := 2 * Paise(c) - Paise(c + c);
    assert 2.0 * Round2(c) - Round2(c + c) == n as real / 100.0;
    assert -0.015 <= n as real / 100.0 <= 0.015;
    assert -1 <= n <= 1;
  }

  // ----- orders

  function SumOf(lines: seq<LineComputed>, f: LineComputed -> real): real {
    if lines == [] then 0.0 else SumOf(lines[..|lines| - 1], f) + f(lines[|lines| - 1])
  }

  datatype OrderTotals = OrderTotals(
    subtotalBeforeTax: real, totalCgst: real, totalSgst: real, totalIgst: real, totalTax: real, grandTotal: real)

  function ComputeOrderGstTotals(lines: seq<LineComputed>): OrderTotals {
    var c := Round2(SumOf(lines, (l: LineComputed) => l.cgstAmount));
    var s := Round2(SumOf(lines, (l: LineComputed) => l.sgstAmount));
    var i := Round2(SumOf(lines, (l: LineComputed) => l.igstAmount));
    OrderTotals(Round2(SumOf(lines, (l: LineComputed) => l.taxable)), c, s, i, Round2(c + s + i),
                Round2(SumOf(lines, (l: LineComputed) => l.lineTotal)))
  }

  lemma {:induction false} SumIsPaise(lines: seq<LineComputed>, f: LineComputed -> real)
    requires forall l :: l in lines ==> IsPaise(f(l))
    ensures IsPaise(SumOf(lines, f))
  {
    if lines == [] {
      WholePaise(0);
    } else {
      var n := |lines| - 1;
      SumIsPaise(lines[..n], f);
      PaiseSum(SumOf(lines[..n], f), f(lines[n]));
    }
  }

  lemma {:induction false} SumsAdd(lines: seq<LineComputed>, c: LineComputed -> real, s: LineComputed -> real,
                                  i: LineComputed -> real, taxable: LineComputed -> real, total: LineComputed -> real)
    requires forall l :: l in lines ==> total(l) == taxable(l) + (c(l) + s(l) + i(l))
    ensures SumOf(lines, total) == SumOf(lines, taxable) + (SumOf(lines, c) + SumOf(lines, s) + SumOf(lines, i))
  {
    if lines != [] {
      SumsAdd(lines[..|lines| - 1], c, s, i, taxable, total);
    }
  }

  function Computed(inputs: seq<LineInput>): (r: seq<LineComputed>)
    ensures |r| == |inputs|
  {
    seq(|inputs|, k requires 0 <= k < |inputs| => ComputeSalesLineGst(inputs[k]))
  }

  /** For any list of computed lines the grand total is the subtotal plus the tax, and rounding takes nothing away. */
  lemma OrderHasNoDrift(inputs: seq<LineInput>)
    ensures var lines := Computed(inputs);
            var t := ComputeOrderGstTotals(lines);
            && t.grandTotal == t.subtotalBeforeTax + t.totalTax
            && t.totalTax == t.totalCgst + t.totalSgst + t.totalIgst
            && t.subtotalBeforeTax == SumOf(lines, (l: LineComputed) => l.taxable)
            && t.totalCgst == SumOf(lines, (l: LineComputed) => l.cgstAmount)
            && t.totalSgst == SumOf(lines, (l: LineComputed) => l.sgstAmount)
            && t.totalIgst == SumOf(lines, (l: LineComputed) => l.igstAmount)
            && t.grandTotal == SumOf(lines, (l: LineComputed) => l.lineTotal)
  {
    var lines := Computed(inputs);
    forall l | l in lines ensures Exact(l) {
      var k :| 0 <= k < |lines| && lines[k] == l;
      var i := inputs[k];
      TaxableIsPaise(i.quantity, i.unitPrice, i.discountAmount);
      LineIsExact(TaxableOf(i.quantity, i.unitPrice, i.discountAmount), i.percents, i.supplyType);
    }
    ExactLinesAdd(lines);
  }

  lemma {:induction false} ExactLinesAdd(lines: seq<LineComputed>)
    requires forall l :: l in lines ==> Exact(l)
    ensures var t := ComputeOrderGstTotals(lines);
            && t.grandTotal == t.subtotalBeforeTax + t.totalTax
            && t.totalTax == t.totalCgst + t.totalSgst + t.totalIgst
            && t.subtotalBeforeTax == SumOf(lines, (l: LineComputed) => l.taxable)
            && t.totalCgst == SumOf(lines, (l: LineComputed) => l.cgstAmount)
            && t.totalSgst == SumOf(lines, (l: LineComputed) => l.sgstAmount)
            && t.totalIgst == SumOf(lines, (l: LineComputed) => l.igstAmount)
            && t.grandTotal == SumOf(lines, (l: LineComputed) => l.lineTotal)
  {
    var c := (l: LineComputed) => l.cgstAmount;
    var s := (l: LineComputed) => l.sgstAmount;
    var i := (l: LineComputed) => l.igstAmount;
    var taxable := (l: LineComputed) => l.taxable;
    var total := (l: LineComputed) => l.lineTotal;
    SumIsPaise(lines, c);
    SumIsPaise(lines, s);
    SumIsPaise(lines, i);
    SumIsPaise(lines, taxable);
    SumsAdd(lines, c, s, i, taxable, total);
    PaiseSum(SumOf(lines, c), SumOf(lines, s));
    PaiseSum(SumOf(lines, c) + SumOf(lines, s), SumOf(lines, i));
    PaiseSum(SumOf(lines, taxable), SumOf(lines, c) + SumOf(lines, s) + SumOf(lines, i));
  }

  /** An order of no lines comes to nothing, and one more line adds each of its own amounts to the totals. */
  lemma OrderGrowsByLine(inputs: seq<LineInput>, input: LineInput)
    ensures ComputeOrderGstTotals([]) == OrderTotals(0.0, 0.0, 0.0, 0.0, 0.0, 0.0)
    ensures var t, line := ComputeOrderGstTotals(Computed(inputs)), ComputeSalesLineGst(input);
            ComputeOrderGstTotals(Computed(inputs + [input]))
            == OrderTotals(t.subtotalBeforeTax + line.taxable, t.totalCgst + line.cgstAmount, t.totalSgst + line.sgstAmount,
                           t.totalIgst + line.igstAmount, t.totalTax + line.taxAmount, t.grandTotal + line.lineTotal)
  {
    var lines, line := Computed(inputs), ComputeSalesLineGst(input);
    assert Computed(inputs + [input]) == lines + [line] && (lines + [line])[..|lines|] == lines;
    OrderHasNoDrift([]);
    OrderHasNoDrift(inputs);
    OrderHasNoDrift(inputs + [input]);
    TaxableIsPaise(input.quantity, input.unitPrice, input.discountAmount);
    LineIsExact(line.taxable, input.percents, input.supplyType);
  }

  // ----- slabs

  const VALID_GST_SLABS: seq<real> := [0.0, 5.0, 12.0, 18.0, 28.0]

  predicate IsSlab(x: real) {
    exists i :: 0 <= i < |VALID_GST_SLABS| && VALID_GST_SLABS[i] == x
  }

  /** Within 0.001 of a slab, as the validators compare. */
  predicate NearSlab(x: real) {
    exists i :: 0 <= i < |VALID_GST_SLABS| && -0.001 < VALID_GST_SLABS[i] - x < 0.001
  }

  datatype SlabError = Negative | TooLarge | NotASlab(combined: real)

  function ValidateGstSlab(cgst: real, sgst: real): Option<SlabError> {
    if cgst < 0.0 || sgst < 0.0 then Some(Negative)
    else if cgst > 14.0 || sgst > 14.0 then Some(TooLarge)
    else if !NearSlab(Round2(cgst + sgst)) then Some(NotASlab(Round2(cgst + sgst)))
    else None
  }

  function ValidateIgstSlab(igst: real): Option<SlabError> {
    if igst < 0.0 then Some(Negative)
    else if igst > 28.0 then Some(TooLarge)
    else if !NearSlab(igst) then Some(NotASlab(igst))
    else None
  }

  function ValidateLineGst(supplyType: SupplyType, p: Percents): Option<SlabError> {
    if supplyType.InterState? then ValidateIgstSlab(p.igst) else ValidateGstSlab(p.cgst, p.sgst)
  }

  lemma SlabIsWhole(x: real)
    requires IsSlab(x)
    ensures IsPaise(x) && Round2(x / 2.0) == x / 2.0
  {
    WholePaise(0); WholePaise(500); WholePaise(1200); WholePaise(1800); WholePaise(2800);
    WholePaise(250); WholePaise(600); WholePaise(900); WholePaise(1400);
  }

  /** A validated line rounds to a slab. */
  lemma ValidRateRoundsToSlab(supplyType: SupplyType, p: Percents)
    requires ValidateLineGst(supplyType, p).None?
    ensures IsSlab(Round2(RateOf(p, supplyType)))
  {
    var rate := RateOf(p, supplyType);
    var x := if supplyType.InterState? then rate else Round2(rate);
    var i :| 0 <= i < |VALID_GST_SLABS| && -0.001 < VALID_GST_SLABS[i] - x < 0.001;
    assert IsSlab(VALID_GST_SLABS[i]);
    SlabIsWhole(VALID_GST_SLABS[i]);
    NearPaise(VALID_GST_SLABS[i], x);
    RoundIsPaise(rate);
  }

  /**
   * Which rates are accepted, and why others are not. Within a state both halves lie between 0 and 14 and together round
   * to one of 0, 5, 12, 18 and 28; between states the rate lies between 0 and 28 and within 0.001 of one of them.
   */
  lemma AcceptedExactly(supplyType: SupplyType, p: Percents)
    ensures forall x :: IsSlab(x) <==> x == 0.0 || x == 5.0 || x == 12.0 || x == 18.0 || x == 28.0
    ensures var error := ValidateLineGst(supplyType, p);
            if supplyType.IntraState? then
              && (error.None? <==> 0.0 <= p.cgst <= 14.0 && 0.0 <= p.sgst <= 14.0
                                   && exists slab :: IsSlab(slab) && RoundsTo(p.cgst + p.sgst, slab))
              && (error == Some(Negative) <==> p.cgst < 0.0 || p.sgst < 0.0)
              && (error == Some(TooLarge) <==> p.cgst >= 0.0 && p.sgst >= 0.0 && (p.cgst > 14.0 || p.sgst > 14.0))
              && (error.Some? && error.value.NotASlab? ==> RoundsTo(p.cgst + p.sgst, error.value.combined))
            else
              && (error.None? <==> 0.0 <= p.igst <= 28.0 && exists slab :: IsSlab(slab) && -0.001 < slab - p.igst < 0.001)
              && (error == Some(Negative) <==> p.igst < 0.0) && (error == Some(TooLarge) <==> p.igst > 28.0)
              && (error.Some? && error.value.NotASlab? ==> error.value.combined == p.igst)
  {
    SlabsAreListed();
    NearSlabMeans(p.igst);
    RoundsExactly(p.cgst + p.sgst, Round2(p.cgst + p.sgst));
    RoundedNearSlab(p.cgst + p.sgst);
  }

  /** Rounded to paise, a rate is near a slab only if it is one. */
  lemma RoundedNearSlab(x: real)
    ensures NearSlab(Round2(x)) <==> exists slab :: IsSlab(slab) && RoundsTo(x, slab)
  {
    NearSlabMeans(Round2(x));
    RoundsExactly(x, Round2(x));
    if slab :| IsSlab(slab) && -0.001 < slab - Round2(x) < 0.001 {
      SlabIsWhole(slab);
      NearPaise(slab, Round2(x));
      RoundIsPaise(x);
    }
    if slab :| IsSlab(slab) && RoundsTo(x, slab) {
      RoundsExactly(x, slab);
    }
  }

  lemma SlabsAreListed()
    ensures forall x :: IsSlab(x) <==> x == 0.0 || x == 5.0 || x == 12.0 || x == 18.0 || x == 28.0
  {
    assert VALID_GST_SLABS[0] == 0.0 && VALID_GST_SLABS[1] == 5.0 && VALID_GST_SLABS[2] == 12.0;
    assert VALID_GST_SLABS[3] == 18.0 && VALID_GST_SLABS[4] == 28.0;
  }

  lemma NearSlabMeans(x: real)
    ensures NearSlab(x) <==> exists slab :: IsSlab(slab) && -0.001 < slab - x < 0.001
  {
    if i :| 0 <= i < |VALID_GST_SLABS| && -0.001 < VALID_GST_SLABS[i] - x < 0.001 {
      assert IsSlab(VALID_GST_SLABS[i]);
    }
  }

  lemma NearPaise(a: real, x: real)
    requires IsPaise(a) && -0.001 < a - x < 0.001
    ensures Round2(x) == a
  {
    var n := Paise(a);
    assert (x * 100.0 + 0.5).Floor == n;
  }

  // ----- changing the supply type

  function ProductGstRateToLinePercents(rate: real, supplyType: SupplyType): Percents {
    var combined := Round2(rate);
    if combined <= 0.0 then Percents(0.0, 0.0, 0.0)
    else if supplyType.InterState? then Percents(0.0, 0.0, combined)
    else Percents(Round2(combined / 2.0), Round2(combined / 2.0), 0.0)
  }

  function ConvertLinePercents(p: Percents, supplyType: SupplyType): Percents {
    ProductGstRateToLinePercents(Round2(if p.igst != 0.0 then p.igst else p.cgst + p.sgst), supplyType)
  }

  /** Any line is converted at its IGST or, if it has none, at its two halves together, rounded and never below zero. */
  lemma ConversionIsSplit(p: Percents, t: SupplyType) returns (combined: real)
    ensures RoundsTo(if p.igst != 0.0 then p.igst else p.cgst + p.sgst, combined)
    ensures var c, rate := ConvertLinePercents(p, t), if combined > 0.0 then combined else 0.0;
            if t.InterState? then c == Percents(0.0, 0.0, rate)
            else RoundsTo(rate / 2.0, c.cgst) && c.sgst == c.cgst && c.igst == 0.0
  {
    var rate := if p.igst != 0.0 then p.igst else p.cgst + p.sgst;
    combined := Round2(rate);
    RoundsExactly(rate, combined);
    RoundIsPaise(rate);
    RoundsExactly(combined / 2.0, Round2(combined / 2.0));
    RoundsExactly(0.0, 0.0);
    WholePaise(0);
  }

  function Other(t: SupplyType): SupplyType {
    if t.IntraState? then InterState else IntraState
  }

  /** The fields that the supply type does not use are zero, and the ones it uses form a valid slab. */
  ghost predicate ValidLine(p: Percents, supplyType: SupplyType) {
    && ValidateLineGst(supplyType, p).None?
    && (if supplyType.IntraState? then p.igst == 0.0 else p.cgst == 0.0 && p.sgst == 0.0)
  }

  predicate SameMoney(a: LineComputed, b: LineComputed) {
    a.taxable == b.taxable && a.taxAmount == b.taxAmount && a.lineTotal == b.lineTotal
  }

  function Line(q: real, price: real, discount: real, p: Percents, t: SupplyType): LineComputed {
    ComputeSalesLineGst(LineInput(q, price, discount, p, t))
  }

  /** Converting a valid line gives the rounded rate, split into equal halves within a state. */
  lemma ConvertedPercents(p: Percents, t: SupplyType)
    requires ValidLine(p, t)
    ensures var slab, c := Round2(RateOf(p, t)), ConvertLinePercents(p, Other(t));
            && IsSlab(slab) && ValidLine(c, Other(t)) && RateOf(c, Other(t)) == slab
            && c == if t.IntraState? then Percents(0.0, 0.0, slab) else Percents(slab / 2.0, slab / 2.0, 0.0)
  {
    var slab := Round2(RateOf(p, t));
    ValidRateRoundsToSlab(t, p);
    SlabIsWhole(slab);
    assert VALID_GST_SLABS[0] == 0.0 && VALID_GST_SLABS[4] == 28.0;
    var i :| 0 <= i < |VALID_GST_SLABS| && VALID_GST_SLABS[i] == slab;
    assert 0.0 <= slab <= 28.0 && NearSlab(slab);
    assert slab / 2.0 + slab / 2.0 == slab;
  }

  lemma RateDecidesMoney(taxable: real, p: Percents, t: SupplyType, p': Percents, t': SupplyType)
    requires IsPaise(taxable) && taxable >= 0.0
    ensures SameMoney(LineOn(taxable, p, t), LineOn(taxable, p', t')) <==>
            Round2(Share(taxable, RateOf(p, t))) == Round2(Share(taxable, RateOf(p', t')))
  {
    LineIsExact(taxable, p, t);
    LineIsExact(taxable, p', t');
  }

  /** Two different rates are told apart by some quantity. */
  lemma RatesTellApart(x: real, y: real) returns (q: real)
    requires x < y
    ensures TaxableOf(q, 1.0, 0.0) == q
    ensures Round2(Share(q, x)) < Round2(Share(q, y))
  {
    var d := y - x;
    var n := (100.0 / d).Floor + 1;
    q := n as real;
    var e := 100.0 / d;
    assert e * d == 100.0 && e >= 0.0;
    assert q >= e;
    assert (q - e) * d >= 0.0;
    assert q * d == e * d + (q - e) * d;
    assert q * d >= 100.0;
    assert q * y == q * x + q * d;
    assert Share(q, y) - Share(q, x) >= 1.0;
    RoundNear(Share(q, x));
    RoundNear(Share(q, y));
    WholePaise(100 * n);
    assert (100 * n) as real / 100.0 == q;
    assert q * 1.0 == q;
  }

  /**
   * Changing the supply type of a valid line keeps the taxable amount, tax and total for every quantity,
   * price and discount if and only if its rate has no more than two decimals.
   */
  lemma ConversionKeepsMoney(p: Percents, t: SupplyType)
    requires ValidLine(p, t)
    ensures (forall q, price, discount ::
              SameMoney(Line(q, price, discount, p, t), Line(q, price, discount, ConvertLinePercents(p, Other(t)), Other(t))))
       <==> IsPaise(RateOf(p, t))
  {
    var c := ConvertLinePercents(p, Other(t));
    var rate := RateOf(p, t);
    ConvertedPercents(p, t);
    if IsPaise(rate) {
      forall q, price, discount
        ensures SameMoney(Line(q, price, discount, p, t), Line(q, price, discount, c, Other(t)))
      {
        TaxableIsPaise(q, price, discount);
        RateDecidesMoney(TaxableOf(q, price, discount), p, t, c, Other(t));
      }
    } else {
      var slab := Round2(rate);
      var q: real;
      if rate < slab {
        q := RatesTellApart(rate, slab);
      } else {
        q := RatesTellApart(slab, rate);
      }
      TaxableIsPaise(q, 1.0, 0.0);
      RateDecidesMoney(q, p, t, c, Other(t));
      assert !SameMoney(Line(q, 1.0, 0.0, p, t), Line(q, 1.0, 0.0, c, Other(t)));
    }
  }

  /** There and back again restores the percents exactly when the rate has two decimals and, within a state, equal halves. */
  lemma ConversionRoundTrip(p: Percents, t: SupplyType)
    requires ValidLine(p, t)
    ensures ConvertLinePercents(ConvertLinePercents(p, Other(t)), t) == p
       <==> IsPaise(RateOf(p, t)) && (t.IntraState? ==> p.cgst == p.sgst)
  {
    ConvertedPercents(p, t);
    ConvertedPercents(ConvertLinePercents(p, Other(t)), Other(t));
    SlabIsWhole(Round2(RateOf(p, t)));
  }
}
