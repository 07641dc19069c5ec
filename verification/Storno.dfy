/**
 * Line derivation, stored-line and totals checks, and the Storno sign flip
 * (src/domain/invoice.ts). A JavaScript `-0` equals `0`, as the source's `===` has it.
 */
module Storno {
  import opened Wrappers
  import opened Money
  import opened Invoice

  const UNIT_PRICE_MAX_DECIMALS: nat := 4
  const INVOICE_TAX_RATES: seq<real> := [0.0, 7.0, 19.0]

  /** Standard mode excludes 0: a line at 0 % breaks BR-S-05. */
  function TaxRatesFor(mode: TaxMode): seq<real> {
    if mode.Standard? then [7.0, 19.0] else INVOICE_TAX_RATES
  }

  datatype InvoiceLineInput = InvoiceLineInput(
    description: string, quantity: real, unit: string, unitPrice: real, taxRate: real)

  /** `round2(new Big(line.quantity).times(line.unitPrice))` */
  function LineAmount(quantity: real, unitPrice: real): real {
    Round2Decimal(quantity * unitPrice)
  }

  function DeriveInvoiceLine(line: InvoiceLineInput): InvoiceLine {
    InvoiceLine(line.description, line.quantity, line.unit, line.unitPrice,
                LineAmount(line.quantity, line.unitPrice), line.taxRate)
  }

  // ---- Lines of unknown shape ----------------------------------------------

  /** One property of a JSON value of unknown shape, as far as the checks look at it. */
  datatype Json = Text(text: string) | Number(value: real) | NonFinite | Other

  datatype RawLine =
    | NotAnObject
    | Fields(description: Json, quantity: Json, unit: Json, unitPrice: Json, lineTotal: Json, taxRate: Json)

  datatype Field = Description | Quantity | Unit | UnitPrice | LineTotal | TaxRate

  function PushIf(condition: bool, field: Field): seq<Field> {
    if condition then [field] else []
  }

  function InvalidInputLineFields(line: RawLine, rates: seq<real>): seq<Field> {
    match line
    case NotAnObject => [Description, Quantity, Unit, UnitPrice, TaxRate]
    case Fields(description, quantity, unit, unitPrice, _, taxRate) =>
      PushIf(!description.Text?, Description)
      + PushIf(!quantity.Number? || quantity.value <= 0.0, Quantity)
      + PushIf(!unit.Text?, Unit)
      + PushIf(!unitPrice.Number? || !HasAtMostDecimals(unitPrice.value, UNIT_PRICE_MAX_DECIMALS), UnitPrice)
      + PushIf(!taxRate.Number? || taxRate.value !in rates, TaxRate)
  }

  function InvalidStoredLineFields(line: RawLine, rates: seq<real>): seq<Field> {
    var invalid := InvalidInputLineFields(line, rates);
    if Quantity in invalid || UnitPrice in invalid then invalid
    else
      QuantityAndPriceGiven(line, rates);
      invalid + PushIf(line.lineTotal != Number(LineAmount(line.quantity.value, line.unitPrice.value)), LineTotal)
  }

  lemma QuantityAndPriceGiven(line: RawLine, rates: seq<real>)
    ensures Quantity in InvalidInputLineFields(line, rates) <==>
              line.NotAnObject? || !line.quantity.Number? || line.quantity.value <= 0.0
    ensures UnitPrice in InvalidInputLineFields(line, rates) <==>
              line.NotAnObject? || !line.unitPrice.Number?
              || !HasAtMostDecimals(line.unitPrice.value, UNIT_PRICE_MAX_DECIMALS)
  {
    hide HasAtMostDecimals;
    if line.NotAnObject? {
      var all := InvalidInputLineFields(line, rates);
      assert all[1] == Quantity && all[3] == UnitPrice;
    }
  }

  /** `invalidInputLineFields`, pushing onto its list. */
  method CollectInvalidInput(line: RawLine, rates: seq<real>) returns (invalid: seq<Field>)
    ensures invalid == InvalidInputLineFields(line, rates)
  {
    hide HasAtMostDecimals;
    if line.NotAnObject? {
      return [Description, Quantity, Unit, UnitPrice, TaxRate];
    }
    invalid := [];
    if !line.description.Text? {
      invalid := invalid + [Description];
    }
    ghost var first := PushIf(!line.description.Text?, Description);
    assert invalid == first;
    if !line.quantity.Number? || line.quantity.value <= 0.0 {
      invalid := invalid + [Quantity];
    }
    ghost var second := first + PushIf(!line.quantity.Number? || line.quantity.value <= 0.0, Quantity);
    assert invalid == second;
    if !line.unit.Text? {
      invalid := invalid + [Unit];
    }
    ghost var third := second + PushIf(!line.unit.Text?, Unit);
    assert invalid == third;
    if !line.unitPrice.Number? || !HasAtMostDecimals(line.unitPrice.value, UNIT_PRICE_MAX_DECIMALS) {
      invalid := invalid + [UnitPrice];
    }
    if !line.taxRate.Number? || line.taxRate.value !in rates {
      invalid := invalid + [TaxRate];
    }
  }

  /** `invalidStoredLineFields`, pushing onto the list of the input check. */
  method CollectInvalidStored(line: RawLine, rates: seq<real>) returns (invalid: seq<Field>)
    ensures invalid == InvalidStoredLineFields(line, rates)
    ensures invalid == [] <==> exists typed :: line == Raw(typed) && ValidLine(typed, rates)
  {
    StoredLineAccepted(line, rates);
    QuantityAndPriceGiven(line, rates);
    hide InvalidInputLineFields, ValidLine, LineAmount, HasAtMostDecimals;
    invalid := CollectInvalidInput(line, rates);
    if Quantity in invalid || UnitPrice in invalid {
      return;
    }
    if line.lineTotal != Number(LineAmount(line.quantity.value, line.unitPrice.value)) {
      invalid := invalid + [LineTotal];
    }
  }

  /** A typed line as the JSON a store would hold for it. */
  function Raw(line: InvoiceLine): RawLine {
    Fields(Text(line.description), Number(line.quantity), Text(line.unit), Number(line.unitPrice),
           Number(line.lineTotal), Number(line.taxRate))
  }

  ghost predicate IsLineAmount(quantity: real, unitPrice: real, amount: real) {
    IsCommerciallyRounded(quantity * unitPrice, amount)
  }

  lemma LineAmountMeaning(quantity: real, unitPrice: real, amount: real)
    ensures amount == LineAmount(quantity, unitPrice) <==> IsLineAmount(quantity, unitPrice, amount)
  {
    Round2IsCommercial(quantity * unitPrice, amount);
  }

  ghost predicate ValidLine(line: InvoiceLine, rates: seq<real>) {
    && line.quantity > 0.0
    && Whole(Shift(line.unitPrice, UNIT_PRICE_MAX_DECIMALS))
    && line.taxRate in rates
    && IsLineAmount(line.quantity, line.unitPrice, line.lineTotal)
  }

  /** The stored-line check accepts exactly the valid lines, and nothing of another shape. */
  lemma StoredLineAccepted(raw: RawLine, rates: seq<real>)
    ensures InvalidStoredLineFields(raw, rates) == [] <==>
              exists line :: raw == Raw(line) && ValidLine(line, rates)
  {
    hide HasAtMostDecimals, Whole, Shift, LineAmount, IsLineAmount;
    if raw.NotAnObject? {
      assert InvalidInputLineFields(raw, rates) != [];
    } else {
      if raw.unitPrice.Number? {
        AtMostDecimalsMeaning(raw.unitPrice.value, UNIT_PRICE_MAX_DECIMALS);
      }
      if raw.unitPrice.Number? && raw.quantity.Number? && raw.lineTotal.Number? {
        LineAmountMeaning(raw.quantity.value, raw.unitPrice.value, raw.lineTotal.value);
      }
      AllFieldsGiven(raw, rates);
      hide InvalidStoredLineFields;
      if InvalidStoredLineFields(raw, rates) == [] {
        var line := InvoiceLine(raw.description.text, raw.quantity.value, raw.unit.text, raw.unitPrice.value,
                                raw.lineTotal.value, raw.taxRate.value);
        assert raw == Raw(line) && ValidLine(line, rates);
      }
    }
  }

  lemma AllFieldsGiven(raw: RawLine, rates: seq<real>)
    requires raw.Fields?
    ensures InvalidStoredLineFields(raw, rates) == [] <==>
              && raw.description.Text? && raw.unit.Text?
              && raw.quantity.Number? && raw.quantity.value > 0.0
              && raw.unitPrice.Number? && HasAtMostDecimals(raw.unitPrice.value, UNIT_PRICE_MAX_DECIMALS)
              && raw.taxRate.Number? && raw.taxRate.value in rates
              && raw.lineTotal == Number(LineAmount(raw.quantity.value, raw.unitPrice.value))
  {
    hide HasAtMostDecimals, LineAmount;
    QuantityAndPriceGiven(raw, rates);
  }

  /** A derived line is as valid as what the client wrote: derivation never adds a fault. */
  lemma DerivedLineIsStored(line: InvoiceLineInput, rates: seq<real>)
    ensures InvalidStoredLineFields(Raw(DeriveInvoiceLine(line)), rates)
              == InvalidInputLineFields(Raw(DeriveInvoiceLine(line)), rates)
  {
    hide HasAtMostDecimals, Round2Decimal;
    QuantityAndPriceGiven(Raw(DeriveInvoiceLine(line)), rates);
  }

  /** A derived line is the client's own, completed by the commercially rounded product. */
  lemma DerivedLineKeeps(line: InvoiceLineInput)
    ensures var r := DeriveInvoiceLine(line);
            && InvoiceLineInput(r.description, r.quantity, r.unit, r.unitPrice, r.taxRate) == line
            && IsLineAmount(line.quantity, line.unitPrice, r.lineTotal)
  {
    LineAmountMeaning(line.quantity, line.unitPrice, DeriveInvoiceLine(line).lineTotal);
    hide LineAmount, IsLineAmount;
  }

  /** The rule a client-written field breaks. */
  ghost predicate Breaks(line: RawLine, rates: seq<real>, field: Field) {
    match field
    case Description => line.NotAnObject? || !line.description.Text?
    case Quantity => line.NotAnObject? || !line.quantity.Number? || line.quantity.value <= 0.0
    case Unit => line.NotAnObject? || !line.unit.Text?
    case UnitPrice => line.NotAnObject? || !line.unitPrice.Number? || !Whole(Shift(line.unitPrice.value, 4))
    case TaxRate => line.NotAnObject? || !line.taxRate.Number? || line.taxRate.value !in rates
    case LineTotal => false
  }

  /** The input check names exactly the fields that break their rule, each once. */
  lemma FaultsMeaning(line: RawLine, rates: seq<real>)
    ensures forall field :: field in InvalidInputLineFields(line, rates) <==> Breaks(line, rates, field)
    ensures forall i, j :: 0 <= i < j < |InvalidInputLineFields(line, rates)| ==>
              InvalidInputLineFields(line, rates)[i] != InvalidInputLineFields(line, rates)[j]
  {
    if line.NotAnObject? {
      var all := InvalidInputLineFields(line, rates);
      assert all[0] == Description && all[1] == Quantity && all[2] == Unit && all[3] == UnitPrice && all[4] == TaxRate;
    } else {
      if line.unitPrice.Number? {
        AtMostDecimalsMeaning(line.unitPrice.value, UNIT_PRICE_MAX_DECIMALS);
      }
      hide HasAtMostDecimals, Whole, Shift;
    }
  }

  /** Lines that pass the stored-line check satisfy what `StandardTotals` needs for exact sums. */
  lemma ValidLinesAreCents(lines: seq<InvoiceLine>, rates: seq<real>)
    requires forall line :: line in lines ==> InvalidStoredLineFields(Raw(line), rates) == []
    ensures AllCents(lines)
  {
    forall line | line in lines
      ensures IsCents(line.lineTotal)
    {
      StoredLineAccepted(Raw(line), rates);
      var other :| Raw(line) == Raw(other) && ValidLine(other, rates);
      assert line == other;
    }
  }

  /** The lines the server derives from what a client wrote. */
  function DeriveAll(inputs: seq<InvoiceLineInput>): (r: seq<InvoiceLine>)
    ensures |r| == |inputs|
    ensures forall i :: 0 <= i < |inputs| ==> r[i] == DeriveInvoiceLine(inputs[i])
  {
    seq(|inputs|, i requires 0 <= i < |inputs| => DeriveInvoiceLine(inputs[i]))
  }

  /** Net total, band nets and line totals are the same sum, and gross is that plus tax. */
  ghost predicate SumsExactly(lines: seq<InvoiceLine>, t: InvoiceTotals) {
    && Sum(Nets(t.perRate)) == t.netGrandTotal == Sum(LineTotals(lines))
    && t.grossGrandTotal == t.netGrandTotal + Sum(Taxes(t.perRate))
  }

  /** Whatever lines a client wrote, valid or not, the derived invoice adds up exactly. */
  lemma DerivedTotalsAreExact(inputs: seq<InvoiceLineInput>)
    ensures SumsExactly(DeriveAll(inputs), TotalsOf(DeriveAll(inputs), Standard))
  {
    var lines := DeriveAll(inputs);
    hide TotalsOf, Sum, Taxes, Nets, LineTotals, Round2Decimal, IsCents;
    forall line | line in lines
      ensures IsCents(line.lineTotal)
    {
      var i :| 0 <= i < |lines| && lines[i] == line;
      Round2IsCents(inputs[i].quantity * inputs[i].unitPrice);
    }
    StandardTotals(lines);
  }

  /** So does every list that passes the stored-line check. */
  lemma StoredTotalsAreExact(lines: seq<InvoiceLine>, rates: seq<real>)
    requires forall line :: line in lines ==> InvalidStoredLineFields(Raw(line), rates) == []
    ensures SumsExactly(lines, TotalsOf(lines, Standard))
  {
    ValidLinesAreCents(lines, rates);
    hide TotalsOf, Sum, Taxes, Nets, LineTotals;
    StandardTotals(lines);
  }

  lemma ValidLineRate(line: InvoiceLine, rates: seq<real>)
    requires InvalidStoredLineFields(Raw(line), rates) == []
    ensures line.taxRate in rates
  {
    StoredLineAccepted(Raw(line), rates);
    var other :| Raw(line) == Raw(other) && ValidLine(other, rates);
  }

  /** With the rates of standard mode there are at most two bands, none at 0 %, so the total
      tax is within a cent of the exact tax. */
  lemma StandardModeBands(lines: seq<InvoiceLine>)
    requires forall line :: line in lines ==> InvalidStoredLineFields(Raw(line), TaxRatesFor(Standard)) == []
    ensures var t := TotalsOf(lines, Standard);
            && |t.perRate| <= 2
            && (forall i :: 0 <= i < |t.perRate| ==> t.perRate[i].taxRate == 7.0 || t.perRate[i].taxRate == 19.0)
            && -0.01 <= t.taxGrandTotal - ExactTax(t.perRate) <= 0.01
  {
    var t := TotalsOf(lines, Standard);
    hide TotalsOf, Sum, Taxes, Nets, LineTotals, ExactTax, InvalidStoredLineFields;
    StandardTotals(lines);
    assert |t.perRate| > 2 ==> t.perRate[0].taxRate < t.perRate[1].taxRate < t.perRate[2].taxRate;
    forall i | 0 <= i < |t.perRate|
      ensures t.perRate[i].taxRate in TaxRatesFor(Standard)
    {
      assert t.perRate[i].taxRate in Rates(lines);
      var line :| line in lines && line.taxRate == t.perRate[i].taxRate;
      ValidLineRate(line, TaxRatesFor(Standard));
    }
  }

  // ---- The sign flip ---------------------------------------------------------

  function NegateLine(line: InvoiceLine): InvoiceLine {
    line.(unitPrice := -line.unitPrice, lineTotal := -line.lineTotal)
  }

  function NegateInvoiceLines(lines: seq<InvoiceLine>): (r: seq<InvoiceLine>)
    ensures |r| == |lines|
    ensures forall i :: 0 <= i < |lines| ==> r[i] == NegateLine(lines[i])
  {
    seq(|lines|, i requires 0 <= i < |lines| => NegateLine(lines[i]))
  }

  function NegateBand(band: RateTotal): RateTotal {
    RateTotal(band.taxRate, -band.netSubtotal, -band.taxAmount)
  }

  function NegateInvoiceTotals(totals: InvoiceTotals): InvoiceTotals {
    InvoiceTotals(seq(|totals.perRate|, i requires 0 <= i < |totals.perRate| => NegateBand(totals.perRate[i])),
                  -totals.netGrandTotal, -totals.taxGrandTotal, -totals.grossGrandTotal)
  }

  /** A Storno line keeps what was sold and how it is taxed; price and total change sign. */
  lemma NegatedLineKeeps(line: InvoiceLine)
    ensures var r := NegateLine(line);
            && r.description == line.description && r.quantity == line.quantity
            && r.unit == line.unit && r.taxRate == line.taxRate
            && r.unitPrice + line.unitPrice == 0.0 && r.lineTotal + line.lineTotal == 0.0
  {}

  lemma NegationIsInvolution(lines: seq<InvoiceLine>, totals: InvoiceTotals)
    ensures NegateInvoiceLines(NegateInvoiceLines(lines)) == lines
    ensures NegateInvoiceTotals(NegateInvoiceTotals(totals)) == totals
  {
    forall i | 0 <= i < |lines|
      ensures NegateLine(NegateLine(lines[i])) == lines[i]
    {
      assert --lines[i].unitPrice == lines[i].unitPrice && --lines[i].lineTotal == lines[i].lineTotal;
    }
    var twice := NegateInvoiceTotals(NegateInvoiceTotals(totals));
    forall i | 0 <= i < |totals.perRate|
      ensures twice.perRate[i] == totals.perRate[i]
    {
      var band := totals.perRate[i];
      assert --band.netSubtotal == band.netSubtotal && --band.taxAmount == band.taxAmount;
    }
    assert twice.perRate == totals.perRate;
  }

  /** A Storno line has exactly the faults of the line it cancels. */
  lemma NegatedLineHasSameFaults(line: InvoiceLine, rates: seq<real>)
    ensures InvalidStoredLineFields(Raw(NegateLine(line)), rates) == InvalidStoredLineFields(Raw(line), rates)
  {
    AtMostDecimalsMeaning(line.unitPrice, UNIT_PRICE_MAX_DECIMALS);
    NegatedProduct(line.quantity, line.unitPrice);
    hide HasAtMostDecimals, LineAmount;
    QuantityAndPriceGiven(Raw(line), rates);
    QuantityAndPriceGiven(Raw(NegateLine(line)), rates);
    assert InvalidInputLineFields(Raw(NegateLine(line)), rates) == InvalidInputLineFields(Raw(line), rates);
  }

  lemma NegatedProduct(x: real, y: real)
    ensures LineAmount(x, -y) == -LineAmount(x, y)
    ensures Round2Decimal(TaxOn(-x, y)) == -Round2Decimal(TaxOn(x, y))
  {
    assert x * -y == -(x * y);
    assert TaxOn(-x, y) == -TaxOn(x, y) by {
      assert -x * y == -(x * y);
    }
    Round2IsOdd(x * y);
    Round2IsOdd(TaxOn(x, y));
  }

  lemma {:induction false} NegatedSums(lines: seq<InvoiceLine>, rate: real)
    ensures Sum(LineTotals(NegateInvoiceLines(lines))) == -Sum(LineTotals(lines))
    ensures Sum(TotalsAt(NegateInvoiceLines(lines), rate)) == -Sum(TotalsAt(lines, rate))
  {
    if lines == [] {
      assert NegateInvoiceLines(lines) == [];
    } else {
      var negated := NegateInvoiceLines(lines);
      assert negated[1..] == NegateInvoiceLines(lines[1..]);
      NegatedSums(lines[1..], rate);
      SumHead(lines, rate);
      SumHead(negated, rate);
    }
  }

  lemma NegatedRates(lines: seq<InvoiceLine>)
    ensures Rates(NegateInvoiceLines(lines)) == Rates(lines)
  {
    var negated := NegateInvoiceLines(lines);
    RateIn(lines);
    RateIn(negated);
    forall rate | rate in Rates(lines)
      ensures rate in Rates(negated)
    {
      var i :| 0 <= i < |lines| && lines[i].taxRate == rate;
      assert negated[i] in negated && negated[i].taxRate == rate;
    }
    forall rate | rate in Rates(negated)
      ensures rate in Rates(lines)
    {
      var i :| 0 <= i < |negated| && negated[i].taxRate == rate;
      assert lines[i] in lines && lines[i].taxRate == rate;
    }
  }

  lemma {:induction false} NegatedTaxes(bands: seq<RateTotal>, negated: seq<RateTotal>)
    requires |negated| == |bands| && forall i :: 0 <= i < |bands| ==> negated[i] == NegateBand(bands[i])
    ensures Sum(Taxes(negated)) == -Sum(Taxes(bands))
  {
    if bands != [] {
      NegatedTaxes(bands[1..], negated[1..]);
      assert Taxes(bands)[1..] == Taxes(bands[1..]) && Taxes(negated)[1..] == Taxes(negated[1..]);
    }
  }

  lemma NegatedBand(rate: real, net: real)
    ensures Band(rate, -net) == NegateBand(Band(rate, net))
  {
    Round2IsOdd(net);
    NegatedProduct(Round2Decimal(net), rate);
  }

  lemma NegatedBands(lines: seq<InvoiceLine>, rates: seq<real>)
    ensures var bands, negated := Bands(lines, rates), Bands(NegateInvoiceLines(lines), rates);
            && (forall i :: 0 <= i < |rates| ==> negated[i] == NegateBand(bands[i]))
            && Sum(Taxes(negated)) == -Sum(Taxes(bands))
  {
    hide Round2Decimal, TotalsAt, Sum, Band;
    var bands, negated := Bands(lines, rates), Bands(NegateInvoiceLines(lines), rates);
    forall i | 0 <= i < |rates|
      ensures negated[i] == NegateBand(bands[i])
    {
      NegatedSums(lines, rates[i]);
      NegatedBand(rates[i], Sum(TotalsAt(lines, rates[i])));
    }
    NegatedTaxes(bands, negated);
  }

  /** Storno commutes with derivation: totals recomputed from the negated lines are the
      negated stored totals, in every mode and for all lines. */
  lemma StornoCommutes(lines: seq<InvoiceLine>, mode: TaxMode)
    ensures TotalsOf(NegateInvoiceLines(lines), mode) == NegateInvoiceTotals(TotalsOf(lines, mode))
  {
    hide Round2Decimal, Rates, LineTotals, TotalsAt, Sum, Band, Ascending;
    var rates := Ascending(Rates(lines));
    NegatedRates(lines);
    NegatedSums(lines, 0.0);
    NegatedBands(lines, rates);
    var t := TotalsOf(lines, Standard);
    Round2IsOdd(Sum(LineTotals(lines)));
    Round2IsOdd(Sum(Taxes(Bands(lines, rates))));
    Round2IsOdd(t.netGrandTotal + t.taxGrandTotal);
    assert -t.netGrandTotal + -t.taxGrandTotal == -(t.netGrandTotal + t.taxGrandTotal);
    assert NegateInvoiceTotals(t).perRate == Bands(NegateInvoiceLines(lines), rates);
  }

  /** One document holding an invoice and its Storno nets to zero in every field. */
  lemma StornoCancels(lines: seq<InvoiceLine>, mode: TaxMode)
    ensures var t := TotalsOf(lines + NegateInvoiceLines(lines), mode);
            && t.netGrandTotal == 0.0 && t.taxGrandTotal == 0.0 && t.grossGrandTotal == 0.0
            && forall band :: band in t.perRate ==> band.netSubtotal == 0.0 && band.taxAmount == 0.0
  {
    var negated := NegateInvoiceLines(lines);
    var all := lines + negated;
    assert Round2Decimal(0.0) == 0.0 && forall rate :: TaxOn(0.0, rate) == 0.0;
    hide Round2Decimal, Rates, LineTotals, TotalsAt, Sum, TaxOn, Ascending;
    NegatedSums(lines, 0.0);
    JoinedSums(lines, negated, 0.0);
    var rates := Ascending(Rates(all));
    var bands := Bands(all, rates);
    forall i | 0 <= i < |rates|
      ensures bands[i].netSubtotal == 0.0 && bands[i].taxAmount == 0.0
    {
      NegatedSums(lines, rates[i]);
      JoinedSums(lines, negated, rates[i]);
    }
    ZeroTaxes(bands);
  }

  lemma {:induction false} JoinedSums(a: seq<InvoiceLine>, b: seq<InvoiceLine>, rate: real)
    ensures Sum(LineTotals(a + b)) == Sum(LineTotals(a)) + Sum(LineTotals(b))
    ensures Sum(TotalsAt(a + b, rate)) == Sum(TotalsAt(a, rate)) + Sum(TotalsAt(b, rate))
  {
    if a == [] {
      assert a + b == b;
    } else {
      assert (a + b)[1..] == a[1..] + b;
      JoinedSums(a[1..], b, rate);
      SumHead(a, rate);
      SumHead(a + b, rate);
    }
  }

  lemma {:induction false} ZeroTaxes(bands: seq<RateTotal>)
    requires forall i :: 0 <= i < |bands| ==> bands[i].taxAmount == 0.0
    ensures Sum(Taxes(bands)) == 0.0
  {
    if bands != [] {
      ZeroTaxes(bands[1..]);
      assert Taxes(bands)[1..] == Taxes(bands[1..]);
    }
  }

  // ---- Stored totals ------------------------------------------------------------

  /** Negated totals keep their rates: only the amounts change sign. */
  lemma NegatedTotalsKeepRates(totals: InvoiceTotals)
    ensures var r := NegateInvoiceTotals(totals);
            && |r.perRate| == |totals.perRate|
            && (forall i :: 0 <= i < |r.perRate| ==>
                  && r.perRate[i].taxRate == totals.perRate[i].taxRate
                  && r.perRate[i].netSubtotal + totals.perRate[i].netSubtotal == 0.0
                  && r.perRate[i].taxAmount + totals.perRate[i].taxAmount == 0.0)
            && r.netGrandTotal + totals.netGrandTotal == 0.0
            && r.taxGrandTotal + totals.taxGrandTotal == 0.0
            && r.grossGrandTotal + totals.grossGrandTotal == 0.0
  {}

  datatype RawBand = NoBand | RawBand(taxRate: Json, netSubtotal: Json, taxAmount: Json)

  datatype RawTotals =
    | NoTotals
    | RawTotals(perRate: Option<seq<RawBand>>, netGrandTotal: Json, taxGrandTotal: Json, grossGrandTotal: Json)

  predicate BandMatches(p: RawBand, d: RateTotal) {
    && p.RawBand?
    && p.taxRate == Number(d.taxRate)
    && p.netSubtotal == Number(d.netSubtotal)
    && p.taxAmount == Number(d.taxAmount)
  }

  predicate InvoiceTotalsMatch(totals: RawTotals, derived: InvoiceTotals) {
    && totals.RawTotals?
    && totals.perRate.Some?
    && |totals.perRate.value| == |derived.perRate|
    && totals.netGrandTotal == Number(derived.netGrandTotal)
    && totals.taxGrandTotal == Number(derived.taxGrandTotal)
    && totals.grossGrandTotal == Number(derived.grossGrandTotal)
    && forall k :: 0 <= k < |derived.perRate| ==> BandMatches(totals.perRate.value[k], derived.perRate[k])
  }

  function RawOf(totals: InvoiceTotals): RawTotals {
    RawTotals(Some(seq(|totals.perRate|, i requires 0 <= i < |totals.perRate| =>
                RawBand(Number(totals.perRate[i].taxRate), Number(totals.perRate[i].netSubtotal),
                        Number(totals.perRate[i].taxAmount)))),
              Number(totals.netGrandTotal), Number(totals.taxGrandTotal), Number(totals.grossGrandTotal))
  }

  lemma TotalsMatchMeaning(totals: RawTotals, derived: InvoiceTotals)
    ensures InvoiceTotalsMatch(totals, derived) <==> totals == RawOf(derived)
  {
    if InvoiceTotalsMatch(totals, derived) {
      assert forall k :: 0 <= k < |derived.perRate| ==> BandMatches(totals.perRate.value[k], derived.perRate[k]);
      assert totals.perRate.value == RawOf(derived).perRate.value;
    }
  }

  lemma RawOfInjective(a: InvoiceTotals, b: InvoiceTotals)
    requires RawOf(a) == RawOf(b)
    ensures a == b
  {
    forall i | 0 <= i < |a.perRate|
      ensures a.perRate[i] == b.perRate[i]
    {
      assert RawOf(a).perRate.value[i] == RawOf(b).perRate.value[i];
    }
    assert |RawOf(a).perRate.value| == |a.perRate| && |RawOf(b).perRate.value| == |b.perRate|;
    assert a.perRate == b.perRate;
  }

  /** The import check accepts a Storno's negated totals exactly when it accepts the original's. */
  lemma StornoMatchesAsOriginal(stored: InvoiceTotals, lines: seq<InvoiceLine>, mode: TaxMode)
    ensures InvoiceTotalsMatch(RawOf(NegateInvoiceTotals(stored)), TotalsOf(NegateInvoiceLines(lines), mode))
            <==> InvoiceTotalsMatch(RawOf(stored), TotalsOf(lines, mode))
  {
    hide TotalsOf, InvoiceTotalsMatch;
    var derived := TotalsOf(lines, mode);
    StornoCommutes(lines, mode);
    TotalsMatchMeaning(RawOf(stored), derived);
    TotalsMatchMeaning(RawOf(NegateInvoiceTotals(stored)), NegateInvoiceTotals(derived));
    NegationIsInvolution(lines, stored);
    NegationIsInvolution(lines, derived);
    hide RawOf, NegateInvoiceTotals;
    if RawOf(stored) == RawOf(derived) {
      RawOfInjective(stored, derived);
    }
    if RawOf(NegateInvoiceTotals(stored)) == RawOf(NegateInvoiceTotals(derived)) {
      RawOfInjective(NegateInvoiceTotals(stored), NegateInvoiceTotals(derived));
    }
  }
}
