/** Printed invoice numbers (src/domain/invoice.ts, `formatInvoiceNumber`). */
module InvoiceNumber {
  import opened Wrappers
  import opened Digits
  import opened Money

  datatype SequenceKind = InvoiceKind | StornoKind

  datatype Number = Number(kind: SequenceKind, year: nat, value: nat)

  function FormatInvoiceNumber(n: Number): string {
    var prefix := if n.kind.InvoiceKind? then "RE" else "ST";
    prefix + "-" + ToText(n.year) + "-" + PadStart(ToText(n.value), 4)
  }

  function ParseInvoiceNumber(s: string): Option<Number> {
    if |s| < 3 || s[2] != '-' || (s[..2] != "RE" && s[..2] != "ST") then None
    else
      var rest := s[3..];
      var dash := IndexOf(rest, '-');
      if dash == |rest| || !AllDigits(rest[..dash]) || !AllDigits(rest[dash + 1..]) then None
      else
        Some(Number(if s[..2] == "RE" then InvoiceKind else StornoKind,
                    FromText(rest[..dash]), FromText(rest[dash + 1..])))
  }

  /** A printed number gives back its kind, year and value, whatever their size. */
  lemma NumberReadsBack(n: Number)
    ensures ParseInvoiceNumber(FormatInvoiceNumber(n)) == Some(n)
  {
    hide ToText, FromText, IndexOf, PadStart;
    var text := FormatInvoiceNumber(n);
    var year, value := ToText(n.year), PadStart(ToText(n.value), 4);
    ReadBack(n.year);
    ReadPadStart(n.value, 4);
    var rest := text[3..];
    assert rest == year + "-" + value;
    assert text[..2] == if n.kind.InvoiceKind? then "RE" else "ST";
    assert "RE"[0] != "ST"[0];
    assert rest[..|year|] == year && rest[|year| + 1..] == value;
    IndexOfUnique(rest, '-', |year|);
  }

  /** Distinct (kind, year, value) never print alike, and a value prints at least four digits. */
  lemma NumbersNeverCollide(a: Number, b: Number)
    ensures FormatInvoiceNumber(a) == FormatInvoiceNumber(b) <==> a == b
    ensures |FormatInvoiceNumber(a)| >= 2 + 1 + 1 + 1 + 4
  {
    NumberReadsBack(a);
    NumberReadsBack(b);
  }

  lemma TextLength(v: nat)
    ensures v < 10000 ==> |ToText(v)| <= 4
    ensures v >= 10000 ==> |ToText(v)| > 4
  {
    assert PowerOfTen(4) == 10 * PowerOfTen(3) == 100 * PowerOfTen(2) == 1000 * PowerOfTen(1) == 10000;
    if v >= 10000 {
      TextGrows(v, 4);
    } else {
      TextFits(v, 4);
    }
  }

  lemma {:induction false} TextFits(v: nat, digits: nat)
    requires 1 <= digits && v < PowerOfTen(digits)
    ensures |ToText(v)| <= digits
  {
    if v >= 10 {
      TextFits(v / 10, digits - 1);
    }
  }

  lemma {:induction false} TextGrows(v: nat, digits: nat)
    requires v >= PowerOfTen(digits)
    ensures |ToText(v)| > digits
  {
    if digits > 0 {
      TextGrows(v / 10, digits - 1);
    }
  }

  function PowerOfTen(k: nat): nat {
    if k == 0 then 1 else 10 * PowerOfTen(k - 1)
  }

  /** How a number prints: RE or ST, the year, and the value, filled up to four digits below
      ten thousand and in its own digits from there on. */
  lemma NumberShape(n: Number)
    ensures var text, year := FormatInvoiceNumber(n), ToText(n.year);
            && |text| == 4 + |year| + (if n.value < 10000 then 4 else |ToText(n.value)|)
            && text[..3] == (if n.kind.InvoiceKind? then "RE-" else "ST-")
            && text[3..4 + |year|] == year + "-"
            && (n.value >= 10000 ==> text[4 + |year|..] == ToText(n.value) && text[4 + |year|] != '0')
  {
    TextLength(n.value);
    hide ToText;
  }
}
