/**
 * Base64 as the client uses it: `btoa` and `atob` (section 4 of RFC 4648, read with the
 * forgiving decoder of the Infra Standard), the push client's URL-safe codec (section 5 of
 * RFC 4648, src/pwa/pushClient.ts) and the DEK codec (src/domain/clientEncryption.ts).
 */
module Base64 {
  import opened Wrappers

  type Byte = b: int | 0 <= b < 256
  type Sextet = v: int | 0 <= v < 64

  const DEK_BYTES: nat := 32

  // ---- Sextets ---------------------------------------------------------------

  // The bit shuffling of one group, bytes x y z against sextets p q r s.

  predicate IsByte(x: int) { 0 <= x < 256 }
  predicate IsSextet(p: int) { 0 <= p < 64 }

  function P(x: int): (p: int)
    requires IsByte(x)
    ensures IsSextet(p)
  { x / 4 }

  function Q(x: int, y: int): (q: int)
    requires IsByte(x) && IsByte(y)
    ensures IsSextet(q)
  { x % 4 * 16 + y / 16 }

  function R(y: int, z: int): (r: int)
    requires IsByte(y) && IsByte(z)
    ensures IsSextet(r)
  { y % 16 * 4 + z / 64 }

  function S(z: int): (s: int)
    requires IsByte(z)
    ensures IsSextet(s)
  { z % 64 }

  function X(p: int, q: int): (x: int)
    requires IsSextet(p) && IsSextet(q)
    ensures IsByte(x)
  { p * 4 + q / 16 }

  function Y(q: int, r: int): (y: int)
    requires IsSextet(q) && IsSextet(r)
    ensures IsByte(y)
  { q % 16 * 16 + r / 4 }

  function Z(r: int, s: int): (z: int)
    requires IsSextet(r) && IsSextet(s)
    ensures IsByte(z)
  { r % 4 * 64 + s }

  lemma Split4(a: int, r: int)
    requires 0 <= r < 4
    ensures (a * 4 + r) / 4 == a && (a * 4 + r) % 4 == r
  {}

  lemma Split16(a: int, r: int)
    requires 0 <= r < 16
    ensures (a * 16 + r) / 16 == a && (a * 16 + r) % 16 == r
  {}

  lemma Split64(a: int, r: int)
    requires 0 <= r < 64
    ensures (a * 64 + r) / 64 == a && (a * 64 + r) % 64 == r
  {}

  lemma FirstByte(x: Byte, y: Byte)
    ensures X(P(x), Q(x, y)) == x && Q(x, 0) % 16 == 0
  {
    Split16(x % 4, y / 16);
  }

  lemma SecondByte(x: Byte, y: Byte, z: Byte)
    ensures Y(Q(x, y), R(y, z)) == y && R(y, 0) % 4 == 0
  {
    Split16(x % 4, y / 16);
    Split4(y % 16, z / 64);
  }

  lemma ThirdByte(y: Byte, z: Byte)
    ensures Z(R(y, z), S(z)) == z
  {
    Split4(y % 16, z / 64);
  }

  /** A group of bytes survives, and a partial one leaves zero padding bits. */
  lemma GroupOfBytes(x: Byte, y: Byte, z: Byte)
    ensures X(P(x), Q(x, y)) == x && Y(Q(x, y), R(y, z)) == y && Z(R(y, z), S(z)) == z
    ensures Q(x, 0) % 16 == 0 && R(y, 0) % 4 == 0
  {
    hide *;
    FirstByte(x, y);
    SecondByte(x, y, z);
    ThirdByte(y, z);
  }

  lemma FirstTwoSextets(p: Sextet, q: Sextet, r: Sextet)
    ensures P(X(p, q)) == p && Q(X(p, q), Y(q, r)) == q
    ensures q % 16 == 0 ==> Q(X(p, q), 0) == q
  {
    Split4(p, q / 16);
    Split16(q % 16, r / 4);
  }

  lemma ThirdSextet(q: Sextet, r: Sextet, s: Sextet)
    ensures R(Y(q, r), Z(r, s)) == r
    ensures r % 4 == 0 ==> R(Y(q, r), 0) == r
  {
    Split16(q % 16, r / 4);
    Split64(r % 4, s);
  }

  lemma FourthSextet(r: Sextet, s: Sextet)
    ensures S(Z(r, s)) == s
  {
    Split64(r % 4, s);
  }

  /** A group of sextets survives, a partial one with zero padding bits too. */
  lemma GroupOfSextets(p: Sextet, q: Sextet, r: Sextet, s: Sextet)
    ensures P(X(p, q)) == p && Q(X(p, q), Y(q, r)) == q && R(Y(q, r), Z(r, s)) == r && S(Z(r, s)) == s
    ensures q % 16 == 0 ==> Q(X(p, q), 0) == q
    ensures r % 4 == 0 ==> R(Y(q, r), 0) == r
  {
    hide *;
    FirstTwoSextets(p, q, r);
    ThirdSextet(q, r, s);
    FourthSextet(r, s);
  }

  /** Three bytes to four sextets; one or two bytes left over give two or three. */
  function ToSextets(b: seq<Byte>): seq<Sextet> {
    if |b| == 0 then []
    else if |b| == 1 then [P(b[0]), Q(b[0], 0)]
    else if |b| == 2 then [P(b[0]), Q(b[0], b[1]), R(b[1], 0)]
    else [P(b[0]), Q(b[0], b[1]), R(b[1], b[2]), S(b[2])] + ToSextets(b[3..])
  }

  /** The inverse; bits beyond the last whole byte are discarded. */
  function ToBytes(v: seq<Sextet>): seq<Byte> {
    if |v| < 2 then []
    else if |v| == 2 then [X(v[0], v[1])]
    else if |v| == 3 then [X(v[0], v[1]), Y(v[1], v[2])]
    else [X(v[0], v[1]), Y(v[1], v[2]), Z(v[2], v[3])] + ToBytes(v[4..])
  }

  /** Section 3.5 of RFC 4648: no sextet left alone, and the bits an encoder pads the last
      one with are zero. */
  predicate IsCanonical(v: seq<Sextet>) {
    if |v| == 0 then true
    else if |v| == 1 then false
    else if |v| == 2 then v[1] % 16 == 0
    else if |v| == 3 then v[2] % 4 == 0
    else IsCanonical(v[4..])
  }

  /** By length alone: no single sextet over, and the last of a partial group ends in zeros. */
  predicate EndsClean(v: seq<Sextet>) {
    && |v| % 4 != 1
    && (|v| % 4 == 2 ==> v[|v| - 1] % 16 == 0)
    && (|v| % 4 == 3 ==> v[|v| - 1] % 4 == 0)
  }

  lemma EndsCleanStep(v: seq<Sextet>)
    requires |v| >= 4
    ensures EndsClean(v) <==> EndsClean(v[4..])
  {
    assert |v| % 4 == |v[4..]| % 4;
  }

  lemma {:induction false} CanonicalMeaning(v: seq<Sextet>)
    ensures IsCanonical(v) <==> EndsClean(v)
  {
    if |v| >= 4 {
      EndsCleanStep(v);
      hide EndsClean;
      CanonicalMeaning(v[4..]);
    }
  }

  lemma SextetsStep(b: seq<Byte>)
    requires |b| >= 3
    ensures var v := ToSextets(b);
            && |v| >= 4 && v[4..] == ToSextets(b[3..])
            && v[0] == P(b[0]) && v[1] == Q(b[0], b[1]) && v[2] == R(b[1], b[2]) && v[3] == S(b[2])
  {
    hide P, Q, R, S;
  }

  lemma BytesStep(v: seq<Sextet>)
    requires |v| >= 4
    ensures var b := ToBytes(v);
            && |b| >= 3 && b[3..] == ToBytes(v[4..])
            && b[0] == X(v[0], v[1]) && b[1] == Y(v[1], v[2]) && b[2] == Z(v[2], v[3])
  {
    hide X, Y, Z;
  }

  lemma {:induction false} BytesRoundTrip(b: seq<Byte>)
    ensures ToBytes(ToSextets(b)) == b
  {
    hide P, Q, R, S, X, Y, Z;
    if |b| >= 3 {
      hide ToBytes, ToSextets;
      SextetsStep(b);
      BytesStep(ToSextets(b));
      GroupOfBytes(b[0], b[1], b[2]);
      BytesRoundTrip(b[3..]);
      assert b == b[..3] + b[3..];
      var c := ToBytes(ToSextets(b));
      assert c == c[..3] + c[3..];
    } else {
      ShortBytes(b);
    }
  }

  lemma ShortBytes(b: seq<Byte>)
    requires |b| < 3
    ensures ToBytes(ToSextets(b)) == b && IsCanonical(ToSextets(b))
  {
    hide P, Q, R, S, X, Y, Z;
    if |b| == 2 {
      GroupOfBytes(b[0], b[1], 0);
    } else if |b| == 1 {
      GroupOfBytes(b[0], 0, 0);
    }
  }

  lemma {:induction false} SextetCount(b: seq<Byte>)
    ensures |ToSextets(b)| == |b| / 3 * 4 + (if |b| % 3 == 0 then 0 else |b| % 3 + 1)
  {
    hide P, Q, R, S;
    if |b| >= 3 {
      SextetCount(b[3..]);
    }
  }

  predicate SameBits(x: int, y: int, z: int, p: int, q: int, r: int, s: int) {
    x * 65536 + y * 256 + z == p * 262144 + q * 4096 + r * 64 + s
  }

  /** Section 4 of RFC 4648: three bytes are one number of 24 bits, read as four of 6, the most
      significant first; one or two bytes are filled up with zeros. */
  lemma GroupIsBigEndian(x: Byte, y: Byte, z: Byte)
    ensures SameBits(x, y, z, P(x), Q(x, y), R(y, z), S(z))
    ensures SameBits(x, y, 0, P(x), Q(x, y), R(y, 0), 0)
    ensures SameBits(x, 0, 0, P(x), Q(x, 0), 0, 0)
  {
  }

  lemma {:induction false} SextetsAreBigEndian(b: seq<Byte>, k: nat)
    requires 3 * k < |b|
    ensures var v := ToSextets(b);
            && 4 * k + 1 < |v|
            && SameBits(Or0(At(b, 3 * k)), Or0(At(b, 3 * k + 1)), Or0(At(b, 3 * k + 2)),
                        Or0(At(v, 4 * k)), Or0(At(v, 4 * k + 1)), Or0(At(v, 4 * k + 2)), Or0(At(v, 4 * k + 3)))
  {
    var v := ToSextets(b);
    GroupIsBigEndian(b[0], if |b| > 1 then b[1] else 0, if |b| > 2 then b[2] else 0);
    if |b| >= 3 {
      SextetsStep(b);
    }
    hide P, Q, R, S, SameBits;
    if k > 0 {
      hide ToSextets;
      SextetsAreBigEndian(b[3..], k - 1);
      ShiftAt(b, 3, 3 * k);
      ShiftAt(b, 3, 3 * k + 1);
      ShiftAt(b, 3, 3 * k + 2);
      ShiftAt(v, 4, 4 * k);
      ShiftAt(v, 4, 4 * k + 1);
      ShiftAt(v, 4, 4 * k + 2);
      ShiftAt(v, 4, 4 * k + 3);
    }
  }

  function At(s: seq<int>, i: nat): Option<int> {
    if i < |s| then Some(s[i]) else None
  }

  function Or0(o: Option<int>): int {
    if o.Some? then o.value else 0
  }

  lemma ShiftAt(s: seq<int>, d: nat, i: nat)
    requires d <= i && d <= |s|
    ensures At(s, i) == At(s[d..], i - d)
  {
  }

  lemma {:induction false} EncodingIsCanonical(b: seq<Byte>)
    ensures IsCanonical(ToSextets(b))
  {
    if |b| >= 3 {
      SextetsStep(b);
      hide ToSextets;
      EncodingIsCanonical(b[3..]);
    } else {
      ShortBytes(b);
    }
  }

  lemma {:induction false} SextetsRoundTrip(v: seq<Sextet>)
    requires IsCanonical(v)
    ensures ToSextets(ToBytes(v)) == v
  {
    hide P, Q, R, S, X, Y, Z;
    if |v| >= 4 {
      BytesStep(v);
      hide ToBytes, ToSextets;
      SextetsStep(ToBytes(v));
      GroupOfSextets(v[0], v[1], v[2], v[3]);
      SextetsRoundTrip(v[4..]);
      var w := ToSextets(ToBytes(v));
      assert v == v[..4] + v[4..] && w == w[..4] + w[4..];
    } else if |v| == 3 {
      GroupOfSextets(v[0], v[1], v[2], 0);
    } else if |v| == 2 {
      GroupOfSextets(v[0], v[1], 0, 0);
    }
  }

  // ---- Alphabet ------------------------------------------------------------------

  function Symbol(v: Sextet): char {
    if v < 26 then 'A' + v as char
    else if v < 52 then 'a' + (v - 26) as char
    else if v < 62 then '0' + (v - 52) as char
    else if v == 62 then '+' else '/'
  }

  function SextetOf(c: char): Option<Sextet> {
    if 'A' <= c <= 'Z' then Some(c as int - 'A' as int)
    else if 'a' <= c <= 'z' then Some(c as int - 'a' as int + 26)
    else if '0' <= c <= '9' then Some(c as int - '0' as int + 52)
    else if c == '+' then Some(62)
    else if c == '/' then Some(63)
    else None
  }

  lemma SymbolRoundTrip(v: Sextet)
    ensures SextetOf(Symbol(v)) == Some(v)
  {}

  lemma SextetRoundTrip(c: char)
    ensures SextetOf(c).Some? ==> Symbol(SextetOf(c).value) == c
  {
    if 'A' <= c <= 'Z' {
    } else if 'a' <= c <= 'z' {
    } else if '0' <= c <= '9' {
    }
  }

  function From(first: char, n: nat): (s: string)
    requires first as int + n <= 128
    ensures |s| == n && forall i :: 0 <= i < n ==> s[i] == (first as int + i) as char
  {
    seq(n, i requires 0 <= i < n => (first as int + i) as char)
  }

  /** Table 1 of RFC 4648: the capitals, the small letters, the digits, plus and slash. */
  lemma SymbolIsTable(v: Sextet)
    ensures var table := From('A', 26) + From('a', 26) + From('0', 10) + ['+', '/'];
            |table| == 64 && table[v] == Symbol(v)
  {
    var letters := From('A', 26) + From('a', 26);
    var table := letters + From('0', 10) + ['+', '/'];
    assert 26 <= v < 52 ==> letters[v] == From('a', 26)[v - 26];
    assert 52 <= v < 62 ==> table[v] == From('0', 10)[v - 52];
  }

  predicate InAlphabet(s: string) {
    forall i :: 0 <= i < |s| ==> SextetOf(s[i]).Some?
  }

  function Symbols(v: seq<Sextet>): (s: string)
    ensures |s| == |v| && InAlphabet(s)
    ensures forall i :: 0 <= i < |v| ==> SextetOf(s[i]) == Some(v[i])
  {
    seq(|v|, i requires 0 <= i < |v| => SymbolRoundTrip(v[i]); Symbol(v[i]))
  }

  function Sextets(s: string): (v: seq<Sextet>)
    requires InAlphabet(s)
    ensures |v| == |s| && forall i :: 0 <= i < |s| ==> SextetOf(s[i]) == Some(v[i])
  {
    seq(|s|, i requires 0 <= i < |s| => SextetOf(s[i]).value)
  }

  lemma SymbolsRoundTrip(v: seq<Sextet>, s: string)
    ensures Sextets(Symbols(v)) == v
    ensures InAlphabet(s) ==> Symbols(Sextets(s)) == s
  {
    if InAlphabet(s) {
      forall i | 0 <= i < |s|
        ensures Symbols(Sextets(s))[i] == s[i]
      {
        SextetRoundTrip(s[i]);
        SextetRoundTrip(Symbols(Sextets(s))[i]);
      }
    }
  }

  // ---- btoa and atob -----------------------------------------------------------------

  function Pads(n: nat): (s: string)
    ensures |s| == n && forall i :: 0 <= i < n ==> s[i] == '='
  {
    seq(n, _ => '=')
  }

  /** `btoa`; it throws on a character beyond Latin-1. */
  function Btoa(binary: string): Option<string> {
    if exists i :: 0 <= i < |binary| && binary[i] as int > 255 then None
    else Some(Encoded(Codes(binary)))
  }

  function Codes(binary: string): (b: seq<Byte>)
    requires forall i :: 0 <= i < |binary| ==> binary[i] as int <= 255
    ensures |b| == |binary| && forall i :: 0 <= i < |b| ==> b[i] == binary[i] as int
  {
    seq(|binary|, i requires 0 <= i < |binary| => binary[i] as int)
  }

  function Binary(b: seq<Byte>): (s: string)
    ensures |s| == |b| && forall i :: 0 <= i < |b| ==> s[i] == b[i] as char
  {
    seq(|b|, i requires 0 <= i < |b| => b[i] as char)
  }

  function Encoded(b: seq<Byte>): string {
    Symbols(ToSextets(b)) + Pads((3 - |b| % 3) % 3)
  }

  predicate IsAsciiSpace(c: char) {
    c == '\t' || c == '\n' || c == 12 as char || c == '\r' || c == ' '
  }

  function WithoutSpaces(s: string): (r: string)
    ensures (forall i :: 0 <= i < |s| ==> !IsAsciiSpace(s[i])) ==> r == s
  {
    if s == "" then "" else (if IsAsciiSpace(s[0]) then "" else [s[0]]) + WithoutSpaces(s[1..])
  }

  predicate WholeQuartets(n: nat) {
    n % 4 == 0
  }

  /** Up to two trailing pads, taken off only at a whole number of quartets. */
  function Unpadded(s: string): string {
    if |s| == 0 || !WholeQuartets(|s|) || s[|s| - 1] != '=' then s
    else if s[|s| - 2] == '=' then s[..|s| - 2]
    else s[..|s| - 1]
  }

  /** `atob`; `None` is its `InvalidCharacterError`. */
  function Atob(s: string): Option<string> {
    var t := Unpadded(WithoutSpaces(s));
    if |t| % 4 == 1 || !InAlphabet(t) then None else Some(Binary(ToBytes(Sextets(t))))
  }

  lemma BtoaOfBytes(b: seq<Byte>)
    ensures Btoa(Binary(b)) == Some(Encoded(b))
  {
    assert Codes(Binary(b)) == b;
  }

  lemma PadIsNoSymbol()
    ensures SextetOf('=').None? && !IsAsciiSpace('=')
    ensures forall c :: SextetOf(c).Some? ==> !IsAsciiSpace(c) && c != '='
  {}

  /** Unpadding undoes exactly the padding that fills up the last quartet. */
  lemma PaddingIsTakenOff(s: string, pads: nat)
    requires InAlphabet(s) && pads <= 2 && WholeQuartets(|s| + pads)
    ensures Unpadded(WithoutSpaces(s + Pads(pads))) == s
  {
    NoSpaces(s, pads);
    UnpadsText(s, pads);
  }

  lemma UnpadsText(s: string, pads: nat)
    requires pads <= 2 && WholeQuartets(|s| + pads)
    requires |s| > 0 ==> s[|s| - 1] != '='
    ensures Unpadded(s + Pads(pads)) == s
  {
    hide WholeQuartets;
    var padded := s + Pads(pads);
    assert padded[..|s|] == s;
    assert |s| > 0 ==> padded[|s| - 1] == s[|s| - 1];
    assert pads == 1 ==> s != "" by {
      assert !WholeQuartets(1) by { NotWhole(); }
    }
  }

  lemma NotWhole()
    ensures !WholeQuartets(1)
  {}

  lemma NoSpaces(s: string, pads: nat)
    requires InAlphabet(s)
    ensures WithoutSpaces(s + Pads(pads)) == s + Pads(pads)
    ensures |s| > 0 ==> s[|s| - 1] != '='
  {
    PadIsNoSymbol();
    hide SextetOf, IsAsciiSpace;
  }

  lemma AtobOfSymbols(v: seq<Sextet>, pads: nat)
    requires IsCanonical(v) && pads <= 2 && WholeQuartets(|v| + pads)
    ensures Atob(Symbols(v) + Pads(pads)) == Some(Binary(ToBytes(v)))
  {
    CanonicalMeaning(v);
    hide ToBytes, IsCanonical, WithoutSpaces, Unpadded;
    PaddingIsTakenOff(Symbols(v), pads);
    SymbolsRoundTrip(v, "");
  }

  lemma AtobOfEncoded(b: seq<Byte>)
    ensures Atob(Encoded(b)) == Some(Binary(b))
  {
    EncodingIsCanonical(b);
    SextetCount(b);
    BytesRoundTrip(b);
    hide ToSextets, ToBytes, Atob, Symbols, Pads, Binary;
    AtobOfSymbols(ToSextets(b), (3 - |b| % 3) % 3);
  }

  lemma CodesOfBinary(b: seq<Byte>)
    ensures Codes(Binary(b)) == b
  {}

  lemma AtobIsLatin1(s: string)
    ensures Atob(s).Some? ==> forall i :: 0 <= i < |Atob(s).value| ==> Atob(s).value[i] as int <= 255
  {}

  // ---- The URL-safe codec ------------------------------------------------------------

  function ToUrlChar(c: char): char {
    if c == '+' then '-' else if c == '/' then '_' else c
  }

  function FromUrlChar(c: char): char {
    if c == '-' then '+' else if c == '_' then '/' else c
  }

  function ToUrl(s: string): (r: string)
    ensures |r| == |s| && forall i :: 0 <= i < |s| ==> r[i] == ToUrlChar(s[i])
  {
    seq(|s|, i requires 0 <= i < |s| => ToUrlChar(s[i]))
  }

  function FromUrl(s: string): (r: string)
    ensures |r| == |s| && forall i :: 0 <= i < |s| ==> r[i] == FromUrlChar(s[i])
  {
    seq(|s|, i requires 0 <= i < |s| => FromUrlChar(s[i]))
  }

  /** `.replace(/=+$/, '')` */
  function StripPads(s: string): string {
    if s != "" && s[|s| - 1] == '=' then StripPads(s[..|s| - 1]) else s
  }

  function MissingPads(n: nat): (pads: nat)
    ensures pads <= 3 && WholeQuartets(n + pads)
  {
    (4 - n % 4) % 4
  }

  function UrlEncoded(b: seq<Byte>): string {
    StripPads(ToUrl(Encoded(b)))
  }

  function UrlDecoded(base64: string): Option<seq<Byte>> {
    match Atob(FromUrl(base64 + Pads(MissingPads(|base64|))))
    case None => None
    case Some(raw) =>
      AtobIsLatin1(FromUrl(base64 + Pads(MissingPads(|base64|))));
      Some(Codes(raw))
  }

  /** Unpadded URL-safe text with zero padding bits. */
  predicate IsCanonicalText(s: string) {
    && (forall i :: 0 <= i < |s| ==> s[i] != '+' && s[i] != '/')
    && InAlphabet(FromUrl(s))
    && IsCanonical(Sextets(FromUrl(s)))
  }

  lemma {:induction false} StripsAllPads(s: string, pads: nat)
    requires s != "" ==> s[|s| - 1] != '='
    ensures StripPads(s + Pads(pads)) == s
  {
    var padded := s + Pads(pads);
    if pads > 0 {
      assert padded[..|padded| - 1] == s + Pads(pads - 1);
      StripsAllPads(s, pads - 1);
    } else {
      assert padded == s;
    }
  }

  lemma UrlChars(v: seq<Sextet>)
    ensures FromUrl(ToUrl(Symbols(v))) == Symbols(v)
    ensures forall i :: 0 <= i < |v| ==> ToUrl(Symbols(v))[i] != '+' && ToUrl(Symbols(v))[i] != '/'
    ensures forall i :: 0 <= i < |v| ==> ToUrl(Symbols(v))[i] != '='
  {
    var s := Symbols(v);
    forall i | 0 <= i < |v|
      ensures FromUrl(ToUrl(s))[i] == s[i] && ToUrl(s)[i] != '='
    {
      assert SextetOf(s[i]).Some?;
    }
  }

  /** The encoder's text: the symbols in the URL-safe alphabet, without padding. */
  lemma UrlEncodedIs(b: seq<Byte>)
    ensures UrlEncoded(b) == ToUrl(Symbols(ToSextets(b)))
  {
    var v := ToSextets(b);
    var pads := (3 - |b| % 3) % 3;
    hide ToSextets;
    UrlChars(v);
    assert ToUrl(Encoded(b)) == ToUrl(Symbols(v)) + Pads(pads);
    StripsAllPads(ToUrl(Symbols(v)), pads);
  }

  lemma CanonicalTextDecodes(s: string)
    requires IsCanonicalText(s)
    ensures UrlDecoded(s) == Some(ToBytes(Sextets(FromUrl(s))))
  {
    var v := Sextets(FromUrl(s));
    var pads := MissingPads(|s|);
    CanonicalMeaning(v);
    assert pads <= 2;
    SymbolsRoundTrip(v, FromUrl(s));
    assert FromUrl(s + Pads(pads)) == Symbols(v) + Pads(pads);
    hide IsCanonical, ToBytes, Atob, Codes, Binary, MissingPads;
    AtobOfSymbols(v, pads);
    CodesOfBinary(ToBytes(v));
  }

  /** Decoding what was encoded gives the bytes back: the padding one side strips, the
      other rebuilds. */
  lemma UrlBytesRoundTrip(b: seq<Byte>)
    ensures UrlDecoded(UrlEncoded(b)) == Some(b)
    ensures IsCanonicalText(UrlEncoded(b))
  {
    var v := ToSextets(b);
    var s := ToUrl(Symbols(v));
    UrlEncodedIs(b);
    UrlChars(v);
    EncodingIsCanonical(b);
    SymbolsRoundTrip(v, "");
    BytesRoundTrip(b);
    hide ToSextets, ToBytes, UrlEncoded, UrlDecoded, IsCanonical;
    CanonicalTextDecodes(s);
  }

  /** Encoding what was decoded gives the text back exactly for canonical text. */
  lemma UrlTextRoundTrip(s: string)
    ensures UrlDecoded(s).Some? && UrlEncoded(UrlDecoded(s).value) == s <==> IsCanonicalText(s)
  {
    if UrlDecoded(s).Some? && UrlEncoded(UrlDecoded(s).value) == s {
      UrlBytesRoundTrip(UrlDecoded(s).value);
    }
    if IsCanonicalText(s) {
      var v := Sextets(FromUrl(s));
      CanonicalTextDecodes(s);
      UrlEncodedIs(ToBytes(v));
      SextetsRoundTrip(v);
      SymbolsRoundTrip(v, FromUrl(s));
      assert ToUrl(FromUrl(s)) == s;
    }
  }

  /** The text for the wire: one character for each sextet, minus and underscore standing for
      plus and slash, and no padding. */
  lemma UrlTextUsesSafeSymbols(b: seq<Byte>, i: nat)
    requires i < |UrlEncoded(b)|
    ensures |UrlEncoded(b)| == |ToSextets(b)| == |b| / 3 * 4 + (if |b| % 3 == 0 then 0 else |b| % 3 + 1)
    ensures UrlEncoded(b)[i] ==
              var v := ToSextets(b)[i]; if v == 62 then '-' else if v == 63 then '_' else Symbol(v)
  {
    UrlEncodedIs(b);
    SextetCount(b);
    hide ToSextets, UrlEncoded, Encoded;
    var v := ToSextets(b)[i];
    assert SextetOf(Symbols(ToSextets(b))[i]) == Some(v);
    SextetRoundTrip(Symbols(ToSextets(b))[i]);
  }

  /** A DEK's wire text is whole quartets of the standard alphabet: its symbols, then one pad
      for each byte missing from the last group of three. */
  lemma EncodedIsPadded(b: seq<Byte>)
    ensures var text, v := Encoded(b), ToSextets(b);
            && |text| % 4 == 0 && |v| <= |text| <= |v| + 2
            && (forall i :: 0 <= i < |v| ==> text[i] == Symbol(v[i]))
            && (forall i :: |v| <= i < |text| ==> text[i] == '=')
  {
    var v := ToSextets(b);
    SextetCount(b);
    hide ToSextets, Symbol, SextetOf;
    forall i | 0 <= i < |v|
      ensures Symbols(v)[i] == Symbol(v[i])
    {
      SextetRoundTrip(Symbols(v)[i]);
    }
  }

  method UrlBase64ToArrayBuffer(base64: string) returns (r: Option<array<Byte>>)
    ensures r.Some? <==> UrlDecoded(base64).Some?
    ensures r.Some? ==> fresh(r.value) && r.value[..] == UrlDecoded(base64).value
  {
    var padding := Pads(MissingPads(|base64|));
    var normalized := FromUrl(base64 + padding);
    var raw := Atob(normalized);
    if raw.None? {
      return None;
    }
    AtobIsLatin1(normalized);
    var bytes := CopyCodes(raw.value);
    r := Some(bytes);
  }

  /** `bytes[i] = raw.charCodeAt(i)` for every index. */
  method CopyCodes(raw: string) returns (bytes: array<Byte>)
    requires forall i :: 0 <= i < |raw| ==> raw[i] as int <= 255
    ensures fresh(bytes) && bytes[..] == Codes(raw)
  {
    bytes := new Byte[|raw|];
    for i := 0 to |raw|
      invariant bytes[..i] == Codes(raw)[..i]
    {
      bytes[i] := raw[i] as int;
    }
    assert bytes[..] == bytes[..|raw|];
  }

  /** `binary += String.fromCharCode(bytes[i])` for every index. */
  method BinaryString(bytes: array<Byte>) returns (binary: string)
    ensures binary == Binary(bytes[..])
  {
    binary := "";
    for i := 0 to bytes.Length
      invariant binary == Binary(bytes[..i])
    {
      binary := binary + [bytes[i] as char];
    }
    assert bytes[..bytes.Length] == bytes[..];
  }

  method ArrayBufferToBase64Url(bytes: array<Byte>) returns (text: string)
    ensures text == UrlEncoded(bytes[..])
  {
    var binary := BinaryString(bytes);
    BtoaOfBytes(bytes[..]);
    text := StripPads(ToUrl(Btoa(binary).value));
  }

  // ---- The DEK codec ------------------------------------------------------------------

  datatype DekError = NotBase64 | WrongLength(got: nat)

  function DecodedDek(b64: string): Result<seq<Byte>, DekError> {
    match Atob(b64)
    case None => Err(NotBase64)
    case Some(bin) =>
      AtobIsLatin1(b64);
      if |bin| != DEK_BYTES then Err(WrongLength(|bin|)) else Ok(Codes(bin))
  }

  method EncodeDekMaterial(dek: array<Byte>) returns (b64: string)
    ensures b64 == Encoded(dek[..])
  {
    var bin := BinaryString(dek);
    BtoaOfBytes(dek[..]);
    b64 := Btoa(bin).value;
  }

  method DecodeDekMaterial(b64: string) returns (r: Result<array<Byte>, DekError>)
    ensures r.Err? ==> DecodedDek(b64) == Err(r.error)
    ensures r.Ok? ==> fresh(r.value) && r.value.Length == DEK_BYTES && DecodedDek(b64) == Ok(r.value[..])
  {
    var bin := Atob(b64);
    if bin.None? {
      return Err(NotBase64);
    }
    if |bin.value| != DEK_BYTES {
      return Err(WrongLength(|bin.value|));
    }
    AtobIsLatin1(b64);
    var out := CopyCodes(bin.value);
    r := Ok(out);
  }

  /** The DEK codec gives back exactly the 32-byte keys and refuses every other length by name. */
  lemma DekRoundTrip(dek: seq<Byte>)
    ensures DecodedDek(Encoded(dek)) == if |dek| == 32 then Ok(dek) else Err(WrongLength(|dek|))
  {
    AtobOfEncoded(dek);
    hide Encoded, Atob, Codes;
    CodesOfBinary(dek);
  }

  /** Different keys never share wire text, and what decodes is always a 32-byte key whose
      wire text decodes to it again. */
  lemma DekTextIsFaithful(a: seq<Byte>, b: seq<Byte>, text: string)
    ensures Encoded(a) == Encoded(b) ==> a == b
    ensures DecodedDek(text).Ok? ==>
              var dek := DecodedDek(text).value;
              |dek| == DEK_BYTES && DecodedDek(Encoded(dek)) == Ok(dek)
  {
    AtobOfEncoded(a);
    AtobOfEncoded(b);
    CodesOfBinary(a);
    CodesOfBinary(b);
    if DecodedDek(text).Ok? {
      DekRoundTrip(DecodedDek(text).value);
    }
  }
}
