/**
 * Invoice lines, VAT totals, Storno negation and numbers (src/domain/invoice.ts).
 */
module Invoice {
  import opened Money

  datatype TaxMode = Standard | ReverseCharge

  datatype InvoiceLine = InvoiceLine(
    description: string, quantity: real, unit: string, unitPrice: real, lineTotal: real, taxRate: real)

  datatype RateTotal = RateTotal(taxRate: real, netSubtotal: real, taxAmount: real)

  datatype InvoiceTotals = InvoiceTotals(
    perRate: seq<RateTotal>, netGrandTotal: real, taxGrandTotal: real, grossGrandTotal: real)

  // ---- Totals -------------------------------------------------------------

  function Sum(values: seq<real>): real {
    if values == [] then 0.0 else values[0] + Sum(values[1..])
  }

  function LineTotals(lines: seq<InvoiceLine>): (r: seq<real>)
    ensures |r| == |lines|
  {
    if lines == [] then [] else [lines[0].lineTotal] + LineTotals(lines[1..])
  }

  function Rates(lines: seq<InvoiceLine>): set<real> {
    set line | line in lines :: line.taxRate
  }

  /** The `lineTotal`s carried at one rate, in line order. */
  function TotalsAt(lines: seq<InvoiceLine>, rate: real): seq<real> {
    if lines == [] then []
    else (if lines[0].taxRate == rate then [lines[0].lineTotal] else []) + TotalsAt(lines[1..], rate)
  }

  ghost predicate StrictlyAscending(s: seq<real>) {
    forall i, j :: 0 <= i < j < |s| ==> s[i] < s[j]
  }

  lemma Pick<T>(s: set<T>) returns (x: T)
    requires s != {}
    ensures x in s
  {
    x :| x in s;
  }

  lemma MinimumExists(s: set<real>)
    requires s != {}
    ensures exists m :: m in s && forall x :: x in s ==> m <= x
  {
    var x := Pick(s);
    if s != {x} {
      MinimumExists(s - {x});
      var m :| m in s - {x} && forall y :: y in s - {x} ==> m <= y;
      var least := if x < m then x else m;
      assert forall y :: y in s ==> y in s - {x} || y == x;
      assert least in s && forall y :: y in s ==> least <= y;
    }
  }

  function Least(s: set<real>): (m: real)
    requires s != {}
    ensures m in s && forall x :: x in s ==> m <= x
  {
    MinimumExists(s);
    var m :| m in s && forall x :: x in s ==> m <= x;
    m
  }

  /** The entries of a map sorted by `(a, b) => a - b`: its distinct keys in ascending order. */
  function Ascending(s: set<real>): seq<real> {
    if s == {} then [] else [Least(s)] + Ascending(s - {Least(s)})
  }

  lemma {:induction false} AscendingSorts(s: set<real>)
    ensures StrictlyAscending(Ascending(s)) && |Ascending(s)| == |s|
    ensures forall x :: x in Ascending(s) <==> x in s
  {
    if s != {} {
      var m, rest := Least(s), Ascending(s - {Least(s)});
      AscendingSorts(s - {m});
      forall i, j | 0 <= i < j < |[m] + rest|
        ensures ([m] + rest)[i] < ([m] + rest)[j]
      {
        assert rest[j - 1] in rest;
      }
    }
  }

  /** `net.times(taxRate).div(100)`: the tax before rounding. */
  function TaxOn(net: real, rate: real): real {
    net * rate / 100.0
  }

  function Band(rate: real, net: real): RateTotal {
    RateTotal(rate, Round2Decimal(net), Round2Decimal(TaxOn(Round2Decimal(net), rate)))
  }

  function Bands(lines: seq<InvoiceLine>, rates: seq<real>): (r: seq<RateTotal>)
    ensures |r| == |rates|
    ensures forall i :: 0 <= i < |rates| ==> r[i] == Band(rates[i], Sum(TotalsAt(lines, rates[i])))
  {
    seq(|rates|, i requires 0 <= i < |rates| => Band(rates[i], Sum(TotalsAt(lines, rates[i]))))
  }

  function Taxes(bands: seq<RateTotal>): (r: seq<real>)
    ensures |r| == |bands| && forall i :: 0 <= i < |r| ==> r[i] == bands[i].taxAmount
  {
    seq(|bands|, i requires 0 <= i < |bands| => bands[i].taxAmount)
  }

  function Nets(bands: seq<RateTotal>): (r: seq<real>)
    ensures |r| == |bands| && forall i :: 0 <= i < |r| ==> r[i] == bands[i].netSubtotal
  {
    seq(|bands|, i requires 0 <= i < |bands| => bands[i].netSubtotal)
  }

  /** What `computeInvoiceTotals` returns. */
  function TotalsOf(lines: seq<InvoiceLine>, mode: TaxMode): InvoiceTotals {
    var net := Round2Decimal(Sum(LineTotals(lines)));
    if mode.ReverseCharge? then
      InvoiceTotals([], net, 0.0, net)
    else
      var perRate := Bands(lines, Ascending(Rates(lines)));
      var tax := Round2Decimal(Sum(Taxes(perRate)));
      InvoiceTotals(perRate, net, tax, Round2Decimal(net + tax))
  }

  /** The `byRate` map that `computeInvoiceTotals` fills. */
  method GroupByRate(lines: seq<InvoiceLine>) returns (byRate: map<real, seq<real>>)
    ensures byRate.Keys == Rates(lines)
    ensures forall rate :: rate in byRate ==> byRate[rate] == TotalsAt(lines, rate)
  {
    byRate := map[];
    for i := 0 to |lines|
      invariant byRate.Keys == Rates(lines[..i])
      invariant forall rate :: rate in byRate ==> byRate[rate] == TotalsAt(lines[..i], rate)
    {
      var line := lines[i];
      assert lines[..i + 1] == lines[..i] + [line];
      TotalsAtAppend(lines[..i], line);
      RatesAppend(lines[..i], line);
      if line.taxRate !in byRate {
        NoTotalsAt(lines[..i], line.taxRate);
      }
      var lineTotals := if line.taxRate in byRate then byRate[line.taxRate] else [];
      byRate := byRate[line.taxRate := lineTotals + [line.lineTotal]];
    }
    assert lines[..|lines|] == lines;
  }

  method ComputeInvoiceTotals(lines: seq<InvoiceLine>, mode: TaxMode) returns (totals: InvoiceTotals)
    ensures totals == TotalsOf(lines, mode)
  {
    ZeroTotals(mode);
    hide Round2Decimal, Sum, TotalsAt, LineTotals, Ascending, Rates, TaxOn;
    if |lines| == 0 {
      totals := InvoiceTotals([], 0.0, 0.0, 0.0);
      return;
    }
    var net := Round2Decimal(Sum(LineTotals(lines)));
    if mode == ReverseCharge {
      totals := InvoiceTotals([], net, 0.0, net);
      return;
    }
    var byRate := GroupByRate(lines);
    var rates := Ascending(byRate.Keys);
    AscendingSorts(byRate.Keys);
    var perRate := [];
    for i := 0 to |rates|
      invariant perRate == Bands(lines, rates)[..i]
    {
      perRate := perRate + [Band(rates[i], Sum(byRate[rates[i]]))];
    }
    assert perRate == Bands(lines, rates);
    var tax := Round2Decimal(Sum(Taxes(perRate)));
    totals := InvoiceTotals(perRate, net, tax, Round2Decimal(net + tax));
  }

  lemma ZeroTotals(mode: TaxMode)
    ensures TotalsOf([], mode) == InvoiceTotals([], 0.0, 0.0, 0.0)
  {
    assert Rates([]) == {};
    assert Ascending({}) == [] && Bands([], []) == [] && Taxes([]) == [];
    assert Round2Decimal(0.0) == 0.0;
  }

  lemma {:induction false} TotalsAtAppend(lines: seq<InvoiceLine>, line: InvoiceLine)
    ensures forall rate :: TotalsAt(lines + [line], rate)
              == TotalsAt(lines, rate) + if line.taxRate == rate then [line.lineTotal] else []
  {
    if lines != [] {
      TotalsAtAppend(lines[1..], line);
      assert (lines + [line])[1..] == lines[1..] + [line];
    } else {
      assert [line][1..] == [];
    }
  }

  lemma {:induction false} NoTotalsAt(lines: seq<InvoiceLine>, rate: real)
    requires rate !in Rates(lines)
    ensures TotalsAt(lines, rate) == []
  {
    if lines != [] {
      assert lines[0] in lines;
      assert forall line :: line in lines[1..] ==> line in lines;
      NoTotalsAt(lines[1..], rate);
    }
  }

  // ---- Order does not matter ------------------------------------------------

  /** Net of one rate, or of all lines, with one line taken out at any position. */
  lemma {:induction false} TakeOut(lines: seq<InvoiceLine>, k: nat, rate: real)
    requires k < |lines|
    ensures var rest := lines[..k] + lines[k + 1..];
            && Sum(LineTotals(lines)) == lines[k].lineTotal + Sum(LineTotals(rest))
            && Sum(TotalsAt(lines, rate))
               == (if lines[k].taxRate == rate then lines[k].lineTotal else 0.0) + Sum(TotalsAt(rest, rate))
  {
    var rest := lines[..k] + lines[k + 1..];
    if k == 0 {
      assert rest == lines[1..];
      SumHead(lines, rate);
    } else {
      TakeOut(lines[1..], k - 1, rate);
      assert rest[1..] == lines[1..][..k - 1] + lines[1..][k..];
      SumHead(lines, rate);
      SumHead(rest, rate);
    }
  }

  lemma SumHead(lines: seq<InvoiceLine>, rate: real)
    requires lines != []
    ensures Sum(LineTotals(lines)) == lines[0].lineTotal + Sum(LineTotals(lines[1..]))
    ensures Sum(TotalsAt(lines, rate))
              == (if lines[0].taxRate == rate then lines[0].lineTotal else 0.0) + Sum(TotalsAt(lines[1..], rate))
  {
    assert ([lines[0].lineTotal] + LineTotals(lines[1..]))[1..] == LineTotals(lines[1..]);
    if lines[0].taxRate == rate {
      assert ([lines[0].lineTotal] + TotalsAt(lines[1..], rate))[1..] == TotalsAt(lines[1..], rate);
    } else {
      assert [] + TotalsAt(lines[1..], rate) == TotalsAt(lines[1..], rate);
    }
  }

  lemma RemoveAt<T>(s: seq<T>, k: nat)
    requires k < |s|
    ensures multiset(s[..k] + s[k + 1..]) == multiset(s) - multiset{s[k]}
  {
    assert s == s[..k] + [s[k]] + s[k + 1..];
  }

  lemma MatchHead<T>(a: seq<T>, b: seq<T>) returns (k: nat)
    requires a != [] && multiset(a) == multiset(b)
    ensures k < |b| && b[k] == a[0]
    ensures multiset(a[1..]) == multiset(b[..k] + b[k + 1..])
  {
    k := PositionIn(a[0], b, multiset(a));
    RemoveAt(b, k);
    RemoveHead(a);
  }

  lemma RemoveHead<T>(s: seq<T>)
    requires s != []
    ensures multiset(s[1..]) == multiset(s) - multiset{s[0]}
  {
    assert s == [s[0]] + s[1..];
  }

  lemma PositionIn<T>(x: T, b: seq<T>, m: multiset<T>) returns (k: nat)
    requires m == multiset(b) && x in m
    ensures k < |b| && b[k] == x
  {
    k :| 0 <= k < |b| && b[k] == x;
  }

  lemma {:induction false} ReorderedSums(a: seq<InvoiceLine>, b: seq<InvoiceLine>, rate: real)
    requires multiset(a) == multiset(b)
    ensures Sum(LineTotals(a)) == Sum(LineTotals(b))
    ensures Sum(TotalsAt(a, rate)) == Sum(TotalsAt(b, rate))
    decreases |a|
  {
    hide Sum, TotalsAt, LineTotals;
    if a == [] {
      assert |multiset(b)| == 0;
    } else {
      var k := MatchHead(a, b);
      ReorderedSums(a[1..], b[..k] + b[k + 1..], rate);
      SumHead(a, rate);
      TakeOut(b, k, rate);
    }
  }

  lemma SameMembersSameRates(a: seq<InvoiceLine>, b: seq<InvoiceLine>)
    requires multiset(a) == multiset(b)
    ensures Rates(a) == Rates(b)
  {
    assert forall line :: line in a <==> line in multiset(a);
    assert forall line :: line in b <==> line in multiset(b);
  }

  /** Totals depend on the multiset of lines only. */
  lemma TotalsIgnoreOrder(a: seq<InvoiceLine>, b: seq<InvoiceLine>, mode: TaxMode)
    requires multiset(a) == multiset(b)
    ensures TotalsOf(a, mode) == TotalsOf(b, mode)
  {
    hide Round2Decimal, Sum, TotalsAt, LineTotals, Ascending, Rates, TaxOn;
    ReorderedSums(a, b, 0.0);
    SameMembersSameRates(a, b);
    var rates := Ascending(Rates(a));
    forall i | 0 <= i < |rates|
      ensures Bands(a, rates)[i] == Bands(b, rates)[i]
    {
      ReorderedSums(a, b, rates[i]);
    }
    assert Bands(a, rates) == Bands(b, rates);
  }

  // ---- EN 16931 section 6.4 ---------------------------------------------------

  ghost predicate AllCents(lines: seq<InvoiceLine>) {
    forall line :: line in lines ==> IsCents(line.lineTotal)
  }

  lemma CentsAdd(x: real, y: real)
    requires IsCents(x) && IsCents(y)
    ensures IsCents(x + y) && IsCents(-x)
  {
    var m, n := (x * 100.0).Floor, (y * 100.0).Floor;
    FloorIs((x + y) * 100.0, m + n);
    FloorIs(-x * 100.0, -m);
  }

  lemma ZeroIsCents()
    ensures IsCents(0.0)
  {}

  lemma {:induction false} CentsSum(values: seq<real>)
    requires forall v :: v in values ==> IsCents(v)
    ensures IsCents(Sum(values))
  {
    if values != [] {
      CentsSum(values[1..]);
      CentsAdd(values[0], Sum(values[1..]));
    }
  }

  lemma {:induction false} CentsAt(lines: seq<InvoiceLine>, rate: real)
    requires AllCents(lines)
    ensures forall v :: v in LineTotals(lines) ==> IsCents(v)
    ensures forall v :: v in TotalsAt(lines, rate) ==> IsCents(v)
  {
    if lines != [] {
      assert lines[0] in lines;
      assert forall line :: line in lines[1..] ==> line in lines;
      CentsAt(lines[1..], rate);
    }
  }

  lemma Round2IsCents(x: real)
    ensures IsCents(Round2Decimal(x)) && -0.005 <= Round2Decimal(x) - x <= 0.005
  {
    Round2IsCommercial(x, Round2Decimal(x));
  }

  /** Sum of the unrounded nets of the given rates. */
  function NetsAt(lines: seq<InvoiceLine>, rates: seq<real>): real {
    if rates == [] then 0.0 else Sum(TotalsAt(lines, rates[0])) + NetsAt(lines, rates[1..])
  }

  lemma {:induction false} NetsHead(lines: seq<InvoiceLine>, rates: seq<real>)
    requires lines != [] && StrictlyAscending(rates)
    ensures NetsAt(lines, rates)
              == NetsAt(lines[1..], rates) + if lines[0].taxRate in rates then lines[0].lineTotal else 0.0
  {
    if rates != [] {
      SumHead(lines, rates[0]);
      NetsHead(lines, rates[1..]);
      assert lines[0].taxRate == rates[0] ==> lines[0].taxRate !in rates[1..];
      assert lines[0].taxRate in rates <==> lines[0].taxRate == rates[0] || lines[0].taxRate in rates[1..];
    }
  }

  /** The rates partition the lines: their nets add up to the net of all lines. */
  lemma {:induction false} NetsCover(lines: seq<InvoiceLine>, rates: seq<real>)
    requires StrictlyAscending(rates)
    requires forall line :: line in lines ==> line.taxRate in rates
    ensures NetsAt(lines, rates) == Sum(LineTotals(lines))
  {
    if lines == [] {
      EmptyNets(rates);
    } else {
      NetsCover(lines[1..], rates);
      NetsHead(lines, rates);
      SumHead(lines, 0.0);
      assert lines[0] in lines;
    }
  }

  lemma {:induction false} EmptyNets(rates: seq<real>)
    ensures NetsAt([], rates) == 0.0
  {
    if rates != [] {
      EmptyNets(rates[1..]);
    }
  }

  /** Per rate: net and tax are nearest cents; so sums over the rates stay within half a
      cent for each rate, and are exact where every line total is whole cents. */
  lemma {:induction false} BandSums(lines: seq<InvoiceLine>, rates: seq<real>)
    ensures var bands := Bands(lines, rates);
            && -0.005 * |rates| as real <= Sum(Nets(bands)) - NetsAt(lines, rates) <= 0.005 * |rates| as real
            && (AllCents(lines) ==> Sum(Nets(bands)) == NetsAt(lines, rates))
            && IsCents(Sum(Taxes(bands)))
  {
    hide Round2Decimal, TotalsAt, IsCents, TaxOn;
    var bands := Bands(lines, rates);
    if rates == [] {
      assert Nets(bands) == [] && Taxes(bands) == [];
      ZeroIsCents();
    } else {
      var rate := rates[0];
      BandSums(lines, rates[1..]);
      assert bands[1..] == Bands(lines, rates[1..]);
      assert Nets(bands)[1..] == Nets(bands[1..]) && Taxes(bands)[1..] == Taxes(bands[1..]);
      Round2IsCents(Sum(TotalsAt(lines, rate)));
      Round2IsCents(TaxOn(bands[0].netSubtotal, rate));
      assert bands[0] == Band(rate, Sum(TotalsAt(lines, rate)));
      CentsAdd(bands[0].taxAmount, Sum(Taxes(bands[1..])));
      if AllCents(lines) {
        CentsAt(lines, rate);
        CentsSum(TotalsAt(lines, rate));
        Round2FixesCents(Sum(TotalsAt(lines, rate)));
      }
    }
  }

  /** Exact tax over the bands: each rounded net times its rate, unrounded. */
  function ExactTax(bands: seq<RateTotal>): real {
    if bands == [] then 0.0 else TaxOn(bands[0].netSubtotal, bands[0].taxRate) + ExactTax(bands[1..])
  }

  lemma {:induction false} TaxSum(bands: seq<RateTotal>)
    requires forall band :: band in bands ==> band.taxAmount == Round2Decimal(TaxOn(band.netSubtotal, band.taxRate))
    ensures -0.005 * |bands| as real <= Sum(Taxes(bands)) - ExactTax(bands) <= 0.005 * |bands| as real
  {
    if bands != [] {
      TaxSum(bands[1..]);
      assert bands[0] in bands;
      Round2IsCents(TaxOn(bands[0].netSubtotal, bands[0].taxRate));
      assert Taxes(bands)[1..] == Taxes(bands[1..]);
    }
  }

  /** BR-CO-10 and BR-CO-13 to BR-CO-17 on a standard invoice: one band per rate that
      occurs, ascending; every band tax is its net times its rate, commercially rounded;
      total tax is the exact sum of band taxes and within half a cent per rate of the
      unrounded tax; gross is exactly net plus tax; band nets add up to the net total up to
      rounding, exactly where the line totals are whole cents. */
  lemma StandardTotals(lines: seq<InvoiceLine>)
    ensures var t := TotalsOf(lines, Standard);
            && (forall rate :: rate in Rates(lines) <==>
                  exists i :: 0 <= i < |t.perRate| && t.perRate[i].taxRate == rate)
            && (forall i, j :: 0 <= i < j < |t.perRate| ==> t.perRate[i].taxRate < t.perRate[j].taxRate)
            && (forall i :: 0 <= i < |t.perRate| ==>
                  var band := t.perRate[i];
                  && IsCommerciallyRounded(Sum(TotalsAt(lines, band.taxRate)), band.netSubtotal)
                  && IsCommerciallyRounded(TaxOn(band.netSubtotal, band.taxRate), band.taxAmount))
            && t.taxGrandTotal == Sum(Taxes(t.perRate))
            && -0.005 * |t.perRate| as real <= t.taxGrandTotal - ExactTax(t.perRate) <= 0.005 * |t.perRate| as real
            && t.grossGrandTotal == t.netGrandTotal + t.taxGrandTotal
            && IsCommerciallyRounded(Sum(LineTotals(lines)), t.netGrandTotal)
            && Abs(Sum(Nets(t.perRate)) - t.netGrandTotal) <= 0.005 * (|t.perRate| + 1) as real
            && (AllCents(lines) ==>
                  Sum(Nets(t.perRate)) == t.netGrandTotal == Sum(LineTotals(lines)))
  {
    hide Round2Decimal, Sum, TotalsAt, LineTotals, Ascending, Rates, TaxOn;
    hide ExactTax, IsCents, IsCommerciallyRounded, NetsAt;
    var rates := Ascending(Rates(lines));
    var bands := Bands(lines, rates);
    var t := TotalsOf(lines, Standard);
    AscendingSorts(Rates(lines));
    RatesListed(lines);
    BandSums(lines, rates);
    NetsCover(lines, rates);
    TaxSum(bands);
    Round2FixesCents(Sum(Taxes(bands)));
    Round2IsCents(Sum(LineTotals(lines)));
    CentsAdd(t.netGrandTotal, t.taxGrandTotal);
    Round2FixesCents(t.netGrandTotal + t.taxGrandTotal);
    Round2IsCommercial(Sum(LineTotals(lines)), t.netGrandTotal);
    forall i | 0 <= i < |bands|
      ensures IsCommerciallyRounded(Sum(TotalsAt(lines, rates[i])), bands[i].netSubtotal)
      ensures IsCommerciallyRounded(TaxOn(bands[i].netSubtotal, rates[i]), bands[i].taxAmount)
    {
      Round2IsCommercial(Sum(TotalsAt(lines, rates[i])), bands[i].netSubtotal);
      Round2IsCommercial(TaxOn(bands[i].netSubtotal, rates[i]), bands[i].taxAmount);
    }
    assert forall i :: 0 <= i < |bands| ==> bands[i] == Band(rates[i], Sum(TotalsAt(lines, rates[i])));
    if AllCents(lines) {
      CentsAt(lines, 0.0);
      CentsSum(LineTotals(lines));
      Round2FixesCents(Sum(LineTotals(lines)));
    }
  }

  /** A rate is a percentage: the tax before rounding is that many hundredths of the net. */
  lemma TaxIsPercentage(net: real, rate: real)
    ensures TaxOn(net, rate) * 100.0 == net * rate
  {}

  /** One line of 100.00 at 19 %: tax 19.00, gross 119.00; under reverse charge gross 100.00. */
  lemma HundredAtNineteen()
    ensures var lines := [InvoiceLine("", 2.0, "", 50.0, 100.0, 19.0)];
            && TotalsOf(lines, Standard) == InvoiceTotals([RateTotal(19.0, 100.0, 19.0)], 100.0, 19.0, 119.0)
            && TotalsOf(lines, ReverseCharge) == InvoiceTotals([], 100.0, 0.0, 100.0)
  {
    var line := InvoiceLine("", 2.0, "", 50.0, 100.0, 19.0);
    var lines := [line];
    assert lines[1..] == [];
    assert LineTotals(lines) == [100.0] && TotalsAt(lines, 19.0) == [100.0];
    SumOfOne(100.0);
    SumOfOne(19.0);
    assert Rates(lines) == {19.0} by {
      RateIn(lines);
      assert line in lines;
    }
    AscendingOfOne(19.0);
    assert Round2Decimal(100.0) == 100.0 && Round2Decimal(19.0) == 19.0 && Round2Decimal(119.0) == 119.0;
    assert TaxOn(100.0, 19.0) == 19.0;
    var bands := Bands(lines, [19.0]);
    assert bands == [RateTotal(19.0, 100.0, 19.0)] by {
      assert bands[0] == Band(19.0, 100.0);
    }
    assert Taxes(bands) == [19.0];
    hide Round2Decimal, Bands, Taxes, Sum, LineTotals, TotalsAt, Ascending, Rates;
  }

  lemma SumOfOne(x: real)
    ensures Sum([x]) == x
  {
    assert [x][1..] == [];
  }

  lemma AscendingOfOne(x: real)
    ensures Ascending({x}) == [x]
  {
    AscendingSorts({x});
    assert Ascending({x})[0] in Ascending({x});
  }

  /** Reverse charge carries no tax for any list: no bands, and gross equals net, the
      commercially rounded sum of the line totals, exact where these are whole cents. */
  lemma ReverseChargeTotals(lines: seq<InvoiceLine>)
    ensures var t := TotalsOf(lines, ReverseCharge);
            && t.perRate == [] && t.taxGrandTotal == 0.0
            && t.grossGrandTotal == t.netGrandTotal
            && IsCommerciallyRounded(Sum(LineTotals(lines)), t.netGrandTotal)
            && (AllCents(lines) ==> t.netGrandTotal == Sum(LineTotals(lines)))
  {
    Round2IsCommercial(Sum(LineTotals(lines)), Round2Decimal(Sum(LineTotals(lines))));
    if AllCents(lines) {
      CentsAt(lines, 0.0);
      CentsSum(LineTotals(lines));
      Round2FixesCents(Sum(LineTotals(lines)));
    }
    hide Round2Decimal, IsCommerciallyRounded, IsCents;
  }

  lemma RatesListed(lines: seq<InvoiceLine>)
    ensures var rates := Ascending(Rates(lines));
            var bands := Bands(lines, rates);
            && (forall rate :: rate in Rates(lines) <==> exists i :: 0 <= i < |bands| && bands[i].taxRate == rate)
            && (forall line :: line in lines ==> line.taxRate in rates)
  {
    hide Round2Decimal, Sum, TotalsAt, TaxOn, Ascending, Rates;
    var rates := Ascending(Rates(lines));
    var bands := Bands(lines, rates);
    AscendingSorts(Rates(lines));
    assert forall i :: 0 <= i < |bands| ==> bands[i].taxRate == rates[i] && rates[i] in rates;
    RateIn(lines);
  }

  lemma RateIn(lines: seq<InvoiceLine>)
    ensures forall line :: line in lines ==> line.taxRate in Rates(lines)
  {}

  lemma RatesAppend(lines: seq<InvoiceLine>, line: InvoiceLine)
    ensures Rates(lines + [line]) == Rates(lines) + {line.taxRate}
  {
    RateIn(lines);
    assert forall l :: l in lines + [line] <==> l in lines || l == line;
    assert line in lines + [line];
  }

  /** Line totals that no check has passed need not add up: 0.005 at each of two rates gives
      two band nets of 0.01 but a net total of 0.01. */
  lemma BandsNeedCents()
    ensures var lines := [InvoiceLine("", 1.0, "", 0.005, 0.005, 7.0), InvoiceLine("", 1.0, "", 0.005, 0.005, 19.0)];
            var t := TotalsOf(lines, Standard);
            Sum(Nets(t.perRate)) == 0.02 && t.netGrandTotal == 0.01
  {
    var seven := InvoiceLine("", 1.0, "", 0.005, 0.005, 7.0);
    var nineteen := InvoiceLine("", 1.0, "", 0.005, 0.005, 19.0);
    TwoRates(seven, nineteen);
    assert Round2Decimal(0.005) == 0.01 && Round2Decimal(0.01) == 0.01;
  }

  lemma TwoRates(a: InvoiceLine, b: InvoiceLine)
    requires a.taxRate < b.taxRate
    ensures var t := TotalsOf([a, b], Standard);
            && t.netGrandTotal == Round2Decimal(a.lineTotal + b.lineTotal)
            && Sum(Nets(t.perRate)) == Round2Decimal(a.lineTotal) + Round2Decimal(b.lineTotal)
  {
    hide Round2Decimal, TaxOn, Ascending, TotalsAt, LineTotals, Sum, Band;
    var lines := [a, b];
    AscendingOfTwo(lines);
    SumOfTwo(a, b, a.taxRate);
    SumOfTwo(a, b, b.taxRate);
    var bands := Bands(lines, Ascending(Rates(lines)));
    assert |bands| == 2;
    hide Rates;
    TwoNets(Nets(bands));
    BandNet(a.taxRate, a.lineTotal);
    BandNet(b.taxRate, b.lineTotal);
  }

  lemma BandNet(rate: real, net: real)
    ensures Band(rate, net).netSubtotal == Round2Decimal(net)
  {}

  lemma TwoNets(nets: seq<real>)
    requires |nets| == 2
    ensures Sum(nets) == nets[0] + nets[1]
  {
    assert nets[1..][1..] == [];
    assert Sum(nets[1..]) == nets[1] + Sum(nets[1..][1..]);
  }

  lemma SumOfTwo(a: InvoiceLine, b: InvoiceLine, rate: real)
    ensures Sum(LineTotals([a, b])) == a.lineTotal + b.lineTotal
    ensures Sum(TotalsAt([a, b], rate))
              == (if a.taxRate == rate then a.lineTotal else 0.0) + (if b.taxRate == rate then b.lineTotal else 0.0)
  {
    SumHead([a, b], rate);
    assert [a, b][1..] == [b];
    SumHead([b], rate);
    assert [b][1..] == [];
  }

  lemma AscendingOfTwo(lines: seq<InvoiceLine>)
    requires |lines| == 2 && lines[0].taxRate < lines[1].taxRate
    ensures Ascending(Rates(lines)) == [lines[0].taxRate, lines[1].taxRate]
  {
    var rates := Ascending(Rates(lines));
    assert Rates(lines) == {lines[0].taxRate, lines[1].taxRate} by {
      RateIn(lines);
      assert lines[0] in lines && lines[1] in lines;
    }
    AscendingSorts(Rates(lines));
    assert rates[0] in rates && rates[1] in rates;
  }
}
