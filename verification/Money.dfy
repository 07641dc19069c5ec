/**
 * Decimal money primitives of src/domain/money.ts.
 *
 * `Big` values are exact decimals, so they are modelled as Dafny reals, which
 * hold every decimal exactly. A JavaScript number stands for its shortest
 * decimal, which is exact up to 15 significant digits.
 */
module Money {
  import opened Wrappers
  import opened Digits

  /** x * 10^k */
  function Shift(x: real, k: nat): real
    decreases k
  {
    if k == 0 then x else Shift(x * 10.0, k - 1)
  }

  /** x / 10^k */
  function Unshift(x: real, k: nat): real
    decreases k
  {
    if k == 0 then x else Unshift(x / 10.0, k - 1)
  }

  function Abs(x: real): real {
    if x < 0.0 then -x else x
  }

  predicate Whole(x: real) {
    x == x.Floor as real
  }

  // ---- Rounding ---------------------------------------------------------

  /** The nearest integer, halves away from zero (`Big.roundHalfUp`). */
  function HalfUp(x: real): int {
    if x < 0.0 then -((-x + 0.5).Floor) else (x + 0.5).Floor
  }

  /** The integer part, toward zero (`Big.roundDown`). */
  function Down(x: real): int {
    if x < 0.0 then -((-x).Floor) else x.Floor
  }

  function Round2Decimal(value: real): real {
    HalfUp(value * 100.0) as real / 100.0
  }

  /** `big.round(dp, Big.roundHalfUp)`. */
  function RoundTo(value: real, dp: nat): real {
    Unshift(HalfUp(Shift(value, dp)) as real, dp)
  }

  /** `big.round(dp, Big.roundDown).eq(value)`. */
  predicate HasAtMostDecimals(value: real, dp: nat) {
    Unshift(Down(Shift(value, dp)) as real, dp) == value
  }

  /** An amount in whole cents. */
  predicate IsCents(x: real) {
    Whole(x * 100.0)
  }

  /** Commercial rounding, stated without computing it: the nearest whole number of
      cents, and of two equally near ones the one farther from zero. */
  ghost predicate IsCommerciallyRounded(x: real, r: real) {
    && IsCents(r)
    && Abs(r - x) <= 0.005
    && (Abs(r - x) == 0.005 ==> Abs(r) > Abs(x))
  }

  lemma FloorIs(x: real, n: int)
    requires n as real <= x < n as real + 1.0
    ensures x.Floor == n
  {}

  /** `HalfUp` without its formula: nearest, and away from zero on a tie. */
  lemma HalfUpIsNearest(x: real, n: int)
    ensures n == HalfUp(x) <==>
              -0.5 <= n as real - x <= 0.5
              && (n as real - x == 0.5 ==> x > 0.0)
              && (n as real - x == -0.5 ==> x < 0.0)
  {
    if x < 0.0 {
      if -0.5 <= n as real - x < 0.5 {
        FloorIs(-x + 0.5, -n);
      }
    } else if -0.5 < n as real - x <= 0.5 {
      FloorIs(x + 0.5, n);
    }
  }

  lemma Round2IsCommercial(x: real, r: real)
    ensures r == Round2Decimal(x) <==> IsCommerciallyRounded(x, r)
  {
    var n := if IsCommerciallyRounded(x, r) then (r * 100.0).Floor else HalfUp(x * 100.0);
    HalfUpIsNearest(x * 100.0, n);
    hide HalfUp;
    assert n as real / 100.0 * 100.0 == n as real;
  }

  lemma Round2IsOdd(x: real)
    ensures Round2Decimal(-x) == -Round2Decimal(x)
  {
    assert (-x) * 100.0 == -(x * 100.0);
  }

  lemma Round2FixesCents(x: real)
    requires IsCents(x)
    ensures Round2Decimal(x) == x
  {
    Round2IsCommercial(x, x);
  }

  lemma HalfUpIsNear(x: real)
    ensures -0.5 <= HalfUp(x) as real - x <= 0.5
  {}

  lemma HalfUpFixesWhole(x: real)
    requires Whole(x)
    ensures HalfUp(x) as real == x
  {
    var n := x.Floor;
    HalfUpIsNear(x);
    assert -0.5 <= (HalfUp(x) - n) as real <= 0.5;
  }

  /** `Shift` and `Unshift` undo each other and keep signs and distances in proportion. */
  lemma {:induction false} ShiftUnshift(x: real, k: nat)
    ensures Shift(Unshift(x, k), k) == x && Unshift(Shift(x, k), k) == x
    decreases k
  {
    if k > 0 {
      ShiftUnshift(x / 10.0, k - 1);
      ShiftUnshift(x * 10.0, k - 1);
      ShiftTail(Unshift(x, k), k);
      UnshiftTail(Shift(x, k), k);
    }
  }

  lemma {:induction false} ShiftTail(x: real, k: nat)
    requires k > 0
    ensures Shift(x, k) == Shift(x, k - 1) * 10.0
    decreases k
  {
    if k > 1 {
      ShiftTail(x * 10.0, k - 1);
    }
  }

  lemma {:induction false} UnshiftTail(x: real, k: nat)
    requires k > 0
    ensures Unshift(x, k) == Unshift(x, k - 1) / 10.0
    decreases k
  {
    if k > 1 {
      UnshiftTail(x / 10.0, k - 1);
    }
  }

  lemma {:induction false} ShiftLinear(x: real, y: real, k: nat)
    ensures Shift(x - y, k) == Shift(x, k) - Shift(y, k)
    ensures Shift(-x, k) == -Shift(x, k)
    ensures Shift(x, k) < 0.0 <==> x < 0.0
    ensures Shift(x, k) == 0.0 <==> x == 0.0
    decreases k
  {
    if k > 0 {
      ShiftLinear(x * 10.0, y * 10.0, k - 1);
      assert (x - y) * 10.0 == x * 10.0 - y * 10.0 && (-x) * 10.0 == -(x * 10.0);
    }
  }

  lemma {:induction false} UnshiftNegates(x: real, k: nat)
    ensures Unshift(-x, k) == -Unshift(x, k)
    decreases k
  {
    if k > 0 {
      assert (-x) / 10.0 == -(x / 10.0);
      UnshiftNegates(x / 10.0, k - 1);
    }
  }

  /** `hasAtMostDecimals` accepts exactly the multiples of 10^-dp, of either sign. */
  lemma AtMostDecimalsMeaning(value: real, dp: nat)
    ensures HasAtMostDecimals(value, dp) <==> Whole(Shift(value, dp))
    ensures HasAtMostDecimals(-value, dp) <==> HasAtMostDecimals(value, dp)
  {
    ShiftLinear(value, value, dp);
    ShiftUnshift(value, dp);
    ShiftUnshift(-value, dp);
    ShiftUnshift(Down(Shift(value, dp)) as real, dp);
    ShiftUnshift(Down(Shift(-value, dp)) as real, dp);
  }

  // ---- Plain decimal text ------------------------------------------------

  /** The finite decimals: every value a `Big` can hold. */
  ghost predicate IsDecimal(x: real) {
    exists k: nat :: Whole(Shift(x, k))
  }

  /** The fewest decimals that write `x` exactly, searched upward from `k`. */
  function PlacesFrom(x: real, k: nat, ghost bound: nat): (dp: nat)
    requires k <= bound && Whole(Shift(x, bound))
    ensures k <= dp <= bound && Whole(Shift(x, dp))
    ensures forall j :: k <= j < dp ==> !Whole(Shift(x, j))
    decreases bound - k
  {
    if Whole(Shift(x, k)) then k else PlacesFrom(x, k + 1, bound)
  }

  function Places(x: real): (dp: nat)
    requires IsDecimal(x)
    ensures Whole(Shift(x, dp))
    ensures forall j: nat :: j < dp ==> !Whole(Shift(x, j))
  {
    ghost var bound: nat :| Whole(Shift(x, bound));
    PlacesFrom(x, 0, bound)
  }

  /** `units` hundredths, thousandths, …: |units| / 10^dp in plain notation. */
  function FixedUnsigned(units: nat, dp: nat): string {
    var digits := PadStart(ToText(units), dp + 1);
    if dp == 0 then digits else digits[..|digits| - dp] + "." + digits[|digits| - dp..]
  }

  function FixedText(units: int, dp: nat): string {
    if units < 0 then "-" + FixedUnsigned(-units, dp) else FixedUnsigned(units, dp)
  }

  /** `big.toFixed(dp)`. */
  function ToFixed(x: real, dp: nat): string {
    FixedText(HalfUp(Shift(x, dp)), dp)
  }

  function IndexOf(s: string, c: char): (i: nat)
    ensures i <= |s| && c !in s[..i]
    ensures i < |s| ==> s[i] == c
  {
    if s == "" || s[0] == c then 0 else 1 + IndexOf(s[1..], c)
  }

  /** `plain.split('.')[1]?.length ?? 0` of a text with at most one point. */
  function FractionDigits(s: string): nat {
    var point := IndexOf(s, '.');
    if point == |s| then 0 else |s| - point - 1
  }

  function FormatDecimal(value: real, minDp: nat, maxDp: Option<nat>): string
    requires IsDecimal(value)
  {
    var rounded := match maxDp { case None => value case Some(dp) => RoundTo(value, dp) };
    RoundedIsDecimal(value, maxDp);
    if rounded == 0.0 then
      ToFixed(0.0, minDp)
    else
      var plain := ToFixed(rounded, Places(rounded));
      if FractionDigits(plain) < minDp then ToFixed(rounded, minDp) else plain
  }

  /** What `formatDecimal` shows before padding. */
  function Shown(value: real, maxDp: Option<nat>): real {
    match maxDp { case None => value case Some(dp) => RoundTo(value, dp) }
  }

  lemma RoundedIsDecimal(value: real, maxDp: Option<nat>)
    requires IsDecimal(value)
    ensures IsDecimal(Shown(value, maxDp))
  {
    if maxDp.Some? {
      ShiftUnshift(HalfUp(Shift(value, maxDp.value)) as real, maxDp.value);
      assert Whole(Shift(RoundTo(value, maxDp.value), maxDp.value));
    }
  }

  /** A reader of plain decimal text: optional minus, digits, optional point and digits. */
  function ReadUnsigned(s: string): Option<real> {
    var point := IndexOf(s, '.');
    if point == 0 || !AllDigits(s[..point]) then None
    else if point == |s| then Some(FromText(s) as real)
    else
      var fraction := s[point + 1..];
      if fraction == "" || !AllDigits(fraction) then None
      else Some(Unshift(FromText(s[..point] + fraction) as real, |fraction|))
  }

  function ReadDecimal(s: string): Option<real> {
    if s != "" && s[0] == '-' then
      match ReadUnsigned(s[1..]) { case None => None case Some(x) => Some(-x) }
    else
      ReadUnsigned(s)
  }

  lemma {:induction false} IndexOfUnique(s: string, c: char, i: nat)
    requires i <= |s| && c !in s[..i]
    requires i < |s| ==> s[i] == c
    ensures IndexOf(s, c) == i
  {
    if i > 0 {
      assert s[..i][0] == s[0];
      assert s[..i] == [s[0]] + s[1..][..i - 1];
      IndexOfUnique(s[1..], c, i - 1);
    }
  }

  lemma WithoutPoint(whole: string)
    requires AllDigits(whole) && whole != ""
    ensures ReadUnsigned(whole) == Some(FromText(whole) as real)
    ensures FractionDigits(whole) == 0
  {
    hide Unshift, FromText, IndexOf;
    assert whole[..|whole|] == whole;
    IndexOfUnique(whole, '.', |whole|);
  }

  lemma WithPoint(whole: string, fraction: string)
    requires AllDigits(whole) && AllDigits(fraction) && whole != "" && fraction != ""
    ensures AllDigits(whole + fraction)
    ensures ReadUnsigned(whole + "." + fraction)
              == Some(Unshift(FromText(whole + fraction) as real, |fraction|))
    ensures FractionDigits(whole + "." + fraction) == |fraction|
  {
    hide Unshift, FromText, IndexOf;
    var text := whole + "." + fraction;
    assert text[..|whole|] == whole && text[|whole| + 1..] == fraction;
    IndexOfUnique(text, '.', |whole|);
  }

  lemma ReadFixedUnsigned(units: nat, dp: nat)
    ensures ReadUnsigned(FixedUnsigned(units, dp)) == Some(Unshift(units as real, dp))
    ensures FractionDigits(FixedUnsigned(units, dp)) == dp
    ensures FixedUnsigned(units, dp) != "" && IsDigit(FixedUnsigned(units, dp)[0])
  {
    assert Unshift(units as real, 0) == units as real;
    hide Unshift, ToText, FromText, PadStart, ReadUnsigned, FractionDigits;
    var digits := PadStart(ToText(units), dp + 1);
    ReadPadStart(units, dp + 1);
    if dp == 0 {
      WithoutPoint(digits);
    } else {
      var whole, fraction := digits[..|digits| - dp], digits[|digits| - dp..];
      assert whole + fraction == digits;
      WithPoint(whole, fraction);
    }
  }

  lemma ReadFixed(units: int, dp: nat)
    ensures ReadDecimal(FixedText(units, dp)) == Some(Unshift(units as real, dp))
    ensures FractionDigits(FixedText(units, dp)) == dp
    ensures FixedText(units, dp)[..1] == "-" <==> units < 0
  {
    hide Unshift, FixedUnsigned, FromText, IndexOf;
    ReadFixedUnsigned(if units < 0 then -units else units, dp);
    if units < 0 {
      UnshiftNegates((-units) as real, dp);
      var unsigned := FixedUnsigned(-units, dp);
      var text := FixedText(units, dp);
      assert text[1..] == unsigned;
      var point := IndexOf(unsigned, '.');
      assert text[..point + 1] == "-" + unsigned[..point];
      IndexOfUnique(text, '.', point + 1);
    }
  }

  /** Printing `x` with enough decimals for it is exact. */
  lemma ReadToFixed(x: real, dp: nat)
    requires Whole(Shift(x, dp))
    ensures ReadDecimal(ToFixed(x, dp)) == Some(x)
    ensures FractionDigits(ToFixed(x, dp)) == dp
    ensures ToFixed(x, dp)[..1] == "-" <==> x < 0.0
    ensures NoLeadingZero(if ToFixed(x, dp)[..1] == "-" then ToFixed(x, dp)[1..] else ToFixed(x, dp))
  {
    HalfUpFixesWhole(Shift(x, dp));
    ReadFixed(HalfUp(Shift(x, dp)), dp);
    ShiftUnshift(x, dp);
    ShiftLinear(x, x, dp);
    FixedNoLeadingZero(if HalfUp(Shift(x, dp)) < 0 then -HalfUp(Shift(x, dp)) else HalfUp(Shift(x, dp)), dp);
  }

  lemma {:induction false} MoreDecimals(x: real, dp: nat, more: nat)
    requires dp <= more && Whole(Shift(x, dp))
    ensures Whole(Shift(x, more))
    decreases more - dp
  {
    if dp < more {
      ShiftTail(x, dp + 1);
      assert Shift(x, dp + 1) == (Shift(x, dp).Floor * 10) as real;
      MoreDecimals(x, dp + 1, more);
    }
  }

  /** Decimal text reads back: exactly without `maxDp`, within half a unit of the last
      place with it. At least `minDp` decimals, no superfluous ones, no signed zero. */
  lemma FormatDecimalReadsBack(value: real, minDp: nat, maxDp: Option<nat>)
    requires IsDecimal(value)
    ensures var text := FormatDecimal(value, minDp, maxDp);
            var shown := Shown(value, maxDp);
            && ReadDecimal(text) == Some(shown)
            && (maxDp.None? ==> shown == value)
            && (maxDp.Some? ==> Shift(Abs(shown - value), maxDp.value) <= 0.5)
            && (maxDp.Some? ==> IsRoundedTo(value, shown, maxDp.value))
            && NoLeadingZero(if text[..1] == "-" then text[1..] else text)
            && FractionDigits(text) >= minDp
            && (FractionDigits(text) > minDp ==>
                  forall j: nat :: j < FractionDigits(text) ==> !Whole(Shift(shown, j)))
            && (text[..1] == "-" <==> shown < 0.0)
  {
    hide HalfUp, Shift, Unshift, FixedText, ReadDecimal, FractionDigits;
    var shown := Shown(value, maxDp);
    RoundedIsDecimal(value, maxDp);
    if maxDp.Some? {
      RoundToIsNear(value, maxDp.value);
      RoundToIsCommercial(value, shown, maxDp.value);
    }
    if shown == 0.0 {
      ShiftLinear(0.0, 0.0, minDp);
      ReadToFixed(0.0, minDp);
    } else {
      var dp := Places(shown);
      ReadToFixed(shown, dp);
      if dp < minDp {
        MoreDecimals(shown, dp, minDp);
        ReadToFixed(shown, minDp);
      }
    }
  }

  /** `r` is `x` rounded to `dp` decimals: the nearest such value, and of two equally near ones
      the one farther from zero. */
  ghost predicate IsRoundedTo(x: real, r: real, dp: nat) {
    && Whole(Shift(r, dp))
    && -0.5 <= Shift(r, dp) - Shift(x, dp) <= 0.5
    && (Shift(r, dp) - Shift(x, dp) == 0.5 ==> x > 0.0)
    && (Shift(r, dp) - Shift(x, dp) == -0.5 ==> x < 0.0)
  }

  lemma RoundToIsCommercial(x: real, r: real, dp: nat)
    ensures r == RoundTo(x, dp) <==> IsRoundedTo(x, r, dp)
  {
    var units := HalfUp(Shift(x, dp));
    HalfUpIsNearest(Shift(x, dp), units);
    ShiftUnshift(units as real, dp);
    ShiftUnshift(r, dp);
    ShiftLinear(x, 0.0, dp);
    ShiftNegates(x, dp);
    if Whole(Shift(r, dp)) {
      var n := Shift(r, dp).Floor;
      assert n as real == Shift(r, dp);
      HalfUpIsNearest(Shift(x, dp), n);
    }
    hide HalfUp, Shift, Unshift;
  }

  lemma ShiftNegates(x: real, k: nat)
    ensures Shift(x, k) > 0.0 <==> x > 0.0
  {
    ShiftLinear(x, 0.0, k);
  }

  /** No zero stands in front of another integer digit. */
  predicate NoLeadingZero(text: string) {
    |text| > 1 && text[0] == '0' ==> text[1] == '.'
  }

  lemma FixedNoLeadingZero(units: nat, dp: nat)
    ensures NoLeadingZero(FixedUnsigned(units, dp))
  {
  }

  lemma RoundToIsNear(value: real, dp: nat)
    ensures Shift(Abs(RoundTo(value, dp) - value), dp) <= 0.5
  {
    var units := HalfUp(Shift(value, dp));
    HalfUpIsNear(Shift(value, dp));
    ShiftUnshift(units as real, dp);
    ShiftLinear(RoundTo(value, dp), value, dp);
    ShiftLinear(RoundTo(value, dp) - value, 0.0, dp);
  }
}
