/**
 * Filename segments (src/domain/filename.ts, `sanitiseFilenameSegment`) over UTF-16 code
 * units, each `replace` of the source as one function.
 */
module Sanitiser {
  type CodeUnit = c: int | 0 <= c < 0x1_0000

  type Text = seq<CodeUnit>

  const DASH: CodeUnit := 0x2D
  const DOT: CodeUnit := 0x2E
  const MAX_LENGTH: nat := 40

  /** The character classes of the source's patterns, and three more to speak about them. */
  datatype Class =
    | Control   // [\x00-\x1f\x7f]
    | Reserved  // [/\\:*?"<>|]
    | Space     // \s, which is also what trim removes
    | Dash
    | Edge      // [.-]
    | Bad       // what must not survive
    | Plain     // what no rule mentions
    | NotPlain

  predicate IsControl(c: CodeUnit) {
    c <= 0x1F || c == 0x7F
  }

  predicate IsReserved(c: CodeUnit) {
    c == 0x2F || c == 0x5C || c == 0x3A || c == 0x2A || c == 0x3F || c == 0x22 || c == 0x3C || c == 0x3E || c == 0x7C
  }

  /** WhiteSpace and LineTerminator of ECMAScript. */
  predicate IsSpace(c: CodeUnit) {
    || 0x09 <= c <= 0x0D || c == 0x20 || c == 0xA0 || c == 0x1680 || 0x2000 <= c <= 0x200A
    || c == 0x2028 || c == 0x2029 || c == 0x202F || c == 0x205F || c == 0x3000 || c == 0xFEFF
  }

  predicate IsBad(c: CodeUnit) {
    IsControl(c) || IsReserved(c) || IsSpace(c)
  }

  predicate IsEdge(c: CodeUnit) {
    c == DASH || c == DOT
  }

  predicate In(k: Class, c: CodeUnit) {
    match k
    case Control => IsControl(c)
    case Reserved => IsReserved(c)
    case Space => IsSpace(c)
    case Dash => c == DASH
    case Edge => IsEdge(c)
    case Bad => IsBad(c)
    case Plain => !IsBad(c) && !IsEdge(c)
    case NotPlain => IsBad(c) || IsEdge(c)
  }

  function Without(s: Text, drop: Class): Text {
    if s == [] then [] else (if In(drop, s[0]) then [] else [s[0]]) + Without(s[1..], drop)
  }

  function TrimStart(s: Text, drop: Class): (r: Text)
    ensures |r| <= |s|
    ensures s != [] && In(drop, s[0]) ==> |r| < |s|
    ensures r != [] ==> !In(drop, r[0])
  {
    if s != [] && In(drop, s[0]) then TrimStart(s[1..], drop) else s
  }

  function TrimEnd(s: Text, drop: Class): (r: Text)
    ensures |r| <= |s| && r == s[..|r|]
    ensures r != [] ==> !In(drop, r[|r| - 1])
  {
    if s != [] && In(drop, s[|s| - 1]) then TrimEnd(s[..|s| - 1], drop) else s
  }

  function Trim(s: Text, drop: Class): Text {
    TrimEnd(TrimStart(s, drop), drop)
  }

  /** Every maximal run of matching units becomes one dash. */
  function Collapse(s: Text, run: Class): Text
    decreases |s|
  {
    if s == [] then []
    else if In(run, s[0]) then [DASH] + Collapse(TrimStart(s, run), run)
    else [s[0]] + Collapse(s[1..], run)
  }

  /** Everything but the final cut to 40 units. */
  function Uncut(value: Text): Text {
    var printable := Without(Without(value, Control), Reserved);
    var joined := Collapse(Trim(printable, Space), Space);
    Trim(Collapse(joined, Dash), Edge)
  }

  function SanitiseFilenameSegment(value: Text): Text {
    var text := Uncut(value);
    if |text| > MAX_LENGTH then text[..MAX_LENGTH] else text
  }

  // ---- What each step leaves behind --------------------------------------------

  ghost predicate Free(s: Text, bad: Class) {
    forall i :: 0 <= i < |s| ==> !In(bad, s[i])
  }

  ghost predicate NoDoubleDash(s: Text) {
    forall i :: 0 <= i < |s| - 1 ==> !(s[i] == DASH && s[i + 1] == DASH)
  }

  lemma {:induction false} WithoutDrops(s: Text, drop: Class)
    ensures Free(Without(s, drop), drop)
  {
    hide In;
    if s != [] {
      WithoutDrops(s[1..], drop);
    }
  }

  lemma {:induction false} WithoutKeepsFree(s: Text, drop: Class, bad: Class)
    requires Free(s, bad)
    ensures Free(Without(s, drop), bad)
  {
    hide In;
    if s != [] {
      WithoutKeepsFree(s[1..], drop, bad);
    }
  }

  lemma {:induction false} WithoutIdentity(s: Text, drop: Class)
    requires Free(s, drop)
    ensures Without(s, drop) == s
  {
    hide In;
    if s != [] {
      WithoutIdentity(s[1..], drop);
    }
  }

  lemma {:induction false} TrimStartIsSuffix(s: Text, drop: Class)
    ensures var r := TrimStart(s, drop); r == s[|s| - |r|..]
    ensures forall i :: 0 <= i < |s| - |TrimStart(s, drop)| ==> In(drop, s[i])
  {
    hide In;
    if s != [] && In(drop, s[0]) {
      TrimStartIsSuffix(s[1..], drop);
    }
  }

  /** What trimming leaves is a slice of the text. */
  lemma TrimIsSlice(s: Text, drop: Class) returns (lo: nat)
    ensures lo + |Trim(s, drop)| <= |s| && Trim(s, drop) == s[lo..lo + |Trim(s, drop)|]
    ensures Trim(s, drop) != [] ==> !In(drop, Trim(s, drop)[0])
  {
    hide In;
    TrimStartIsSuffix(s, drop);
    lo := |s| - |TrimStart(s, drop)|;
  }

  lemma TrimKeepsFree(s: Text, drop: Class, bad: Class)
    requires Free(s, bad)
    ensures Free(Trim(s, drop), bad)
  {
    var lo := TrimIsSlice(s, drop);
    hide In, Trim;
  }

  lemma TrimKeepsSingleDashes(s: Text, drop: Class)
    requires NoDoubleDash(s)
    ensures NoDoubleDash(Trim(s, drop))
  {
    var lo := TrimIsSlice(s, drop);
    hide In, Trim;
  }

  lemma TrimIdentity(s: Text, drop: Class)
    requires Free(s, drop)
    ensures Trim(s, drop) == s
  {
    hide In;
  }

  lemma {:induction false} CollapseFrees(s: Text, run: Class, bad: Class)
    requires Free(s, bad) && !In(bad, DASH)
    ensures Free(Collapse(s, run), bad)
    decreases |s|
  {
    hide In;
    if s != [] {
      if In(run, s[0]) {
        TrimStartIsSuffix(s, run);
        CollapseFrees(TrimStart(s, run), run, bad);
      } else {
        CollapseFrees(s[1..], run, bad);
      }
    }
  }

  /** Collapsing leaves no unit of the run but the dash itself. */
  lemma {:induction false} CollapseRemovesRun(s: Text, run: Class)
    requires !In(run, DASH)
    ensures Free(Collapse(s, run), run)
    decreases |s|
  {
    if s != [] {
      CollapseRemovesRun(if In(run, s[0]) then TrimStart(s, run) else s[1..], run);
    }
  }

  lemma {:induction false} CollapseDashesOnce(s: Text)
    ensures var r := Collapse(s, Dash);
            NoDoubleDash(r) && (r != [] ==> s != [] && (r[0] == DASH <==> s[0] == DASH))
    decreases |s|
  {
    if s != [] {
      CollapseDashesOnce(if In(Dash, s[0]) then TrimStart(s, Dash) else s[1..]);
    }
  }

  lemma {:induction false} CollapseIdentity(s: Text, run: Class)
    requires Free(s, run)
    ensures Collapse(s, run) == s
    decreases |s|
  {
    hide In;
    if s != [] {
      CollapseIdentity(s[1..], run);
    }
  }

  lemma {:induction false} CollapseDashesIdentity(s: Text)
    requires NoDoubleDash(s)
    ensures Collapse(s, Dash) == s
    decreases |s|
  {
    if s != [] {
      CollapseDashesIdentity(s[1..]);
      if In(Dash, s[0]) {
        assert TrimStart(s, Dash) == TrimStart(s[1..], Dash) == s[1..];
      }
    }
  }

  // ---- The result ---------------------------------------------------------------

  /** No control, reserved or whitespace unit, no double dash, no leading dot or dash. */
  ghost predicate Clean(t: Text) {
    && Free(t, Bad)
    && NoDoubleDash(t)
    && (t != [] ==> !In(Edge, t[0]))
  }

  ghost predicate EndsPlain(t: Text) {
    t != [] ==> !In(Edge, t[|t| - 1])
  }

  lemma FreeOfAll(t: Text)
    ensures Free(t, Bad) <==>
              Free(t, Control) && Free(t, Reserved) && Free(t, Space)
  {}

  lemma UncutIsClean(value: Text)
    ensures Clean(Uncut(value)) && EndsPlain(Uncut(value))
  {
    var a := Without(value, Control);
    var b := Without(a, Reserved);
    var d := Trim(b, Space);
    var e := Collapse(d, Space);
    var f := Collapse(e, Dash);
    WithoutDrops(value, Control);
    WithoutKeepsFree(a, Reserved, Control);
    WithoutDrops(a, Reserved);
    TrimKeepsFree(b, Space, Control);
    TrimKeepsFree(b, Space, Reserved);
    CollapseFrees(d, Space, Control);
    CollapseFrees(d, Space, Reserved);
    CollapseRemovesRun(d, Space);
    FreeOfAll(e);
    CollapseFrees(e, Dash, Bad);
    CollapseDashesOnce(e);
    TrimKeepsFree(f, Edge, Bad);
    TrimKeepsSingleDashes(f, Edge);
    var lo := TrimIsSlice(f, Edge);
  }

  /** A clean text only loses trailing dots and dashes when sanitised. */
  lemma SanitiseClean(t: Text)
    requires Clean(t)
    ensures Uncut(t) == TrimEnd(t, Edge)
    ensures EndsPlain(t) <==> TrimEnd(t, Edge) == t
  {
    FreeOfAll(t);
    WithoutIdentity(t, Control);
    WithoutIdentity(t, Reserved);
    TrimIdentity(t, Space);
    CollapseIdentity(t, Space);
    CollapseDashesIdentity(t);
    assert TrimStart(t, Edge) == t;
  }

  /** Every result is clean and at most 40 units long; uncut, it also ends plain. */
  lemma SegmentIsClean(value: Text)
    ensures var t := SanitiseFilenameSegment(value);
            Clean(t) && |t| <= MAX_LENGTH && (|Uncut(value)| <= MAX_LENGTH ==> EndsPlain(t))
  {
    UncutIsClean(value);
  }

  /** In plain characters: at most forty units, the first neither a dot nor a dash, none a control
      character, a blank or one of the nine that file systems reserve. */
  lemma NoForbiddenUnit(value: Text, i: nat)
    requires i < |SanitiseFilenameSegment(value)|
    ensures |SanitiseFilenameSegment(value)| <= 40
    ensures var first := SanitiseFilenameSegment(value)[0]; first != 0x2E && first != 0x2D
    ensures var c := SanitiseFilenameSegment(value)[i];
            && c > 0x20 && c != 0x7F && c != 0xA0 && c != 0xFEFF && c != 0x2028 && c != 0x2029
            && (forall k :: 0 <= k < 9 ==> c != "/\\:*?\"<>|"[k] as int)
  {
    SegmentIsClean(value);
    var t := SanitiseFilenameSegment(value);
    assert !In(Bad, t[i]);
    hide SanitiseFilenameSegment;
  }

  lemma TrimmedStaysClean(t: Text)
    requires Clean(t)
    ensures Clean(TrimEnd(t, Edge)) && EndsPlain(TrimEnd(t, Edge))
  {
    hide IsBad;
  }

  /** One more application only trims trailing dots and dashes; after two nothing changes. */
  lemma SecondApplicationIsFixpoint(value: Text)
    ensures var t := SanitiseFilenameSegment(value);
            var u := SanitiseFilenameSegment(t);
            && u == TrimEnd(t, Edge)
            && (u == t <==> EndsPlain(t))
            && SanitiseFilenameSegment(u) == u
  {
    var t := SanitiseFilenameSegment(value);
    var u := TrimEnd(t, Edge);
    SegmentIsClean(value);
    hide Uncut, In;
    SanitiseClean(t);
    TrimmedStaysClean(t);
    hide TrimEnd, Clean;
    SanitiseClean(u);
  }

  /** One application is enough exactly when the text before the cut fits, or the last unit
      the cut keeps is neither a dot nor a dash. */
  lemma StableExactlyUnlessCutAtEdge(value: Text)
    ensures SanitiseFilenameSegment(SanitiseFilenameSegment(value)) == SanitiseFilenameSegment(value) <==>
              |Uncut(value)| <= MAX_LENGTH || !IsEdge(Uncut(value)[MAX_LENGTH - 1])
  {
    SecondApplicationIsFixpoint(value);
    UncutIsClean(value);
    hide Uncut, TrimEnd;
  }

  /** The cut does expose one: forty units ending in a dot before the cut text. */
  lemma CutCanExposeDot()
    ensures var value := seq(39, _ => 0x41) + [DOT, 0x41];
            SanitiseFilenameSegment(value) == seq(39, _ => 0x41) + [DOT]
  {
    var value: Text := seq(39, _ => 0x41) + [DOT, 0x41];
    assert Clean(value) && EndsPlain(value);
    SanitiseClean(value);
  }

  // ---- What is kept ---------------------------------------------------------------

  /** The units the sanitiser has no rule for. */
  function PlainOf(s: Text): Text {
    Without(s, NotPlain)
  }

  lemma {:induction false} PlainConcat(a: Text, b: Text)
    ensures PlainOf(a + b) == PlainOf(a) + PlainOf(b)
  {
    hide In;
    if a == [] {
      assert a + b == b;
    } else {
      assert (a + b)[1..] == a[1..] + b;
      PlainConcat(a[1..], b);
    }
  }

  lemma {:induction false} NothingPlain(s: Text)
    requires Free(s, Plain)
    ensures PlainOf(s) == []
  {
    if s != [] {
      NothingPlain(s[1..]);
    }
  }

  lemma {:induction false} PlainWithout(s: Text, drop: Class)
    requires forall c: CodeUnit :: In(drop, c) ==> In(NotPlain, c)
    ensures PlainOf(Without(s, drop)) == PlainOf(s)
  {
    hide In;
    if s != [] {
      PlainWithout(s[1..], drop);
      PlainConcat(if In(drop, s[0]) then [] else [s[0]], Without(s[1..], drop));
      PlainConcat([s[0]], s[1..]);
      assert [s[0]][1..] == [] && s == [s[0]] + s[1..];
    }
  }

  lemma PlainTrimStart(s: Text, drop: Class)
    requires forall c: CodeUnit :: In(drop, c) ==> In(NotPlain, c)
    ensures PlainOf(TrimStart(s, drop)) == PlainOf(s)
  {
    TrimStartIsSuffix(s, drop);
    var cut := |s| - |TrimStart(s, drop)|;
    assert Free(s[..cut], Plain);
    NothingPlain(s[..cut]);
    assert s == s[..cut] + TrimStart(s, drop);
    PlainConcat(s[..cut], TrimStart(s, drop));
  }

  lemma {:induction false} PlainTrimEnd(s: Text, drop: Class)
    requires forall c: CodeUnit :: In(drop, c) ==> In(NotPlain, c)
    ensures PlainOf(TrimEnd(s, drop)) == PlainOf(s)
  {
    if s != [] && In(drop, s[|s| - 1]) {
      var last := s[|s| - 1];
      PlainTrimEnd(s[..|s| - 1], drop);
      assert s == s[..|s| - 1] + [last];
      PlainConcat(s[..|s| - 1], [last]);
      NothingPlain([last]);
    }
  }

  lemma {:induction false} PlainCollapse(s: Text, run: Class)
    requires forall c: CodeUnit :: In(run, c) ==> In(NotPlain, c)
    ensures PlainOf(Collapse(s, run)) == PlainOf(s)
    decreases |s|
  {
    if s != [] {
      if In(run, s[0]) {
        var rest := TrimStart(s, run);
        PlainTrimStart(s, run);
        PlainCollapse(rest, run);
        PlainConcat([DASH], Collapse(rest, run));
        NothingPlain([DASH]);
      } else {
        PlainCollapse(s[1..], run);
        PlainConcat([s[0]], Collapse(s[1..], run));
        PlainConcat([s[0]], s[1..]);
        assert s == [s[0]] + s[1..];
      }
    }
  }

  /** The units no rule mentions survive in order: all of them before the cut, a prefix after. */
  lemma PlainUnitsSurvive(value: Text)
    ensures PlainOf(Uncut(value)) == PlainOf(value)
    ensures PlainOf(SanitiseFilenameSegment(value)) <= PlainOf(value)
  {
    var a := Without(value, Control);
    var b := Without(a, Reserved);
    var d := Trim(b, Space);
    var e := Collapse(d, Space);
    var f := Collapse(e, Dash);
    PlainWithout(value, Control);
    PlainWithout(a, Reserved);
    PlainTrimStart(b, Space);
    PlainTrimEnd(TrimStart(b, Space), Space);
    PlainCollapse(d, Space);
    PlainCollapse(e, Dash);
    PlainTrimStart(f, Edge);
    PlainTrimEnd(TrimStart(f, Edge), Edge);
    var text := Uncut(value);
    if |text| > MAX_LENGTH {
      assert text == text[..MAX_LENGTH] + text[MAX_LENGTH..];
      PlainConcat(text[..MAX_LENGTH], text[MAX_LENGTH..]);
    }
  }

  // ---- What is parted ---------------------------------------------------------------

  predicate StartsIn(s: Text, k: Class) {
    s != [] && In(k, s[0])
  }

  predicate EndsIn(s: Text, k: Class) {
    s != [] && In(k, s[|s| - 1])
  }

  lemma {:induction false} WithoutConcat(a: Text, b: Text, drop: Class)
    ensures Without(a + b, drop) == Without(a, drop) + Without(b, drop)
  {
    hide In;
    if a == [] {
      assert a + b == b;
    } else {
      assert (a + b)[1..] == a[1..] + b;
      WithoutConcat(a[1..], b, drop);
      assert Without(a + b, drop) == (if In(drop, a[0]) then [] else [a[0]]) + Without(a[1..] + b, drop);
      assert Without(a, drop) == (if In(drop, a[0]) then [] else [a[0]]) + Without(a[1..], drop);
    }
  }

  /** Ends outside the dropped class stay the ends. */
  lemma WithoutKeepsEnds(s: Text, drop: Class)
    requires s != []
    ensures !StartsIn(s, drop) ==> Without(s, drop) != [] && Without(s, drop)[0] == s[0]
    ensures !EndsIn(s, drop) ==> Without(s, drop) != [] && Without(s, drop)[|Without(s, drop)| - 1] == s[|s| - 1]
  {
    hide In;
    var last := |s| - 1;
    WithoutConcat(s[..last], [s[last]], drop);
    assert s[..last] + [s[last]] == s && [s[last]][1..] == [];
    assert Without([s[last]], drop) == if In(drop, s[last]) then [] else [s[last]];
  }

  lemma {:induction false} TrimStartConcat(a: Text, b: Text, drop: Class)
    requires a != [] && !EndsIn(a, drop)
    ensures TrimStart(a + b, drop) == TrimStart(a, drop) + b
    ensures TrimStart(a, drop) != [] && TrimStart(a, drop)[|TrimStart(a, drop)| - 1] == a[|a| - 1]
  {
    hide In;
    if In(drop, a[0]) {
      assert (a + b)[1..] == a[1..] + b;
      TrimStartConcat(a[1..], b, drop);
    }
  }

  lemma {:induction false} TrimEndConcat(a: Text, b: Text, drop: Class)
    requires b != [] && !StartsIn(b, drop)
    ensures TrimEnd(a + b, drop) == a + TrimEnd(b, drop)
    ensures TrimEnd(b, drop) != [] && TrimEnd(b, drop)[0] == b[0]
  {
    hide In;
    var last := |b| - 1;
    if In(drop, b[last]) {
      assert (a + b)[..|a + b| - 1] == a + b[..last];
      TrimEndConcat(a, b[..last], drop);
    }
  }

  /** Around a middle that stays, each side is trimmed on its own. */
  lemma TrimAround(a: Text, middle: Text, b: Text, drop: Class)
    requires a != [] && !EndsIn(a, drop) && b != [] && !StartsIn(b, drop)
    ensures Trim(a + middle + b, drop) == Trim(a, drop) + middle + Trim(b, drop)
    ensures Trim(a, drop) != [] && Trim(a, drop)[|Trim(a, drop)| - 1] == a[|a| - 1]
    ensures Trim(b, drop) != [] && Trim(b, drop)[0] == b[0]
  {
    hide In;
    assert a + middle + b == a + (middle + b);
    TrimStartConcat(a, middle + b, drop);
    assert TrimStart(a, drop) + (middle + b) == TrimStart(a, drop) + middle + b;
    TrimEndConcat(TrimStart(a, drop) + middle, b, drop);
    assert TrimStart(b, drop) == b;
    assert TrimEnd(TrimStart(a, drop), drop) == TrimStart(a, drop);
  }

  lemma {:induction false} TrimRun(gap: Text, b: Text, run: Class)
    requires (forall i :: 0 <= i < |gap| ==> In(run, gap[i])) && !StartsIn(b, run)
    ensures TrimStart(gap + b, run) == b
  {
    hide In;
    if gap == [] {
      assert gap + b == b;
    } else {
      assert (gap + b)[1..] == gap[1..] + b;
      TrimRun(gap[1..], b, run);
    }
  }

  lemma CollapseHead(s: Text, run: Class)
    requires s != []
    ensures In(run, s[0]) ==> Collapse(s, run) == [DASH] + Collapse(TrimStart(s, run), run)
    ensures !In(run, s[0]) ==> Collapse(s, run) == [s[0]] + Collapse(s[1..], run)
  {
  }

  lemma CollapseGap(gap: Text, b: Text, run: Class)
    requires !StartsIn(b, run)
    requires gap != [] && forall i :: 0 <= i < |gap| ==> In(run, gap[i])
    ensures Collapse(gap + b, run) == [DASH] + Collapse(b, run)
  {
    CollapseHead(gap + b, run);
    TrimRun(gap, b, run);
    hide Collapse, TrimStart;
  }

  lemma Regroup(a: Text, b: Text, c: Text)
    ensures a + (b + c) == a + b + c
  {
  }

  lemma TailKeepsEnd(a: Text, run: Class)
    requires a != [] && !EndsIn(a, run)
    ensures !EndsIn(a[1..], run)
  {
  }

  /** A text that does not end within a run collapses on its own. */
  lemma {:induction false} CollapseBefore(a: Text, rest: Text, run: Class)
    requires !EndsIn(a, run)
    ensures Collapse(a + rest, run) == Collapse(a, run) + Collapse(rest, run)
    decreases |a|
  {
    if a == [] {
      assert a + rest == rest;
    } else {
      hide Collapse, In, TrimStart;
      CollapseHead(a, run);
      CollapseHead(a + rest, run);
      if In(run, a[0]) {
        TrimStartConcat(a, rest, run);
        var t := TrimStart(a, run);
        assert !EndsIn(t, run);
        CollapseBefore(t, rest, run);
        Regroup([DASH], Collapse(t, run), Collapse(rest, run));
      } else {
        assert (a + rest)[1..] == a[1..] + rest;
        TailKeepsEnd(a, run);
        CollapseBefore(a[1..], rest, run);
        Regroup([a[0]], Collapse(a[1..], run), Collapse(rest, run));
      }
    }
  }

  /** A run between two texts collapses to the dash between them. */
  lemma CollapseAround(a: Text, gap: Text, b: Text, run: Class)
    requires !EndsIn(a, run) && !StartsIn(b, run)
    requires gap != [] && forall i :: 0 <= i < |gap| ==> In(run, gap[i])
    ensures Collapse(a + gap + b, run) == Collapse(a, run) + [DASH] + Collapse(b, run)
  {
    CollapseGap(gap, b, run);
    hide *;
    Regroup(a, gap, b);
    CollapseBefore(a, gap + b, run);
    Regroup(Collapse(a, run), [DASH], Collapse(b, run));
  }

  lemma {:induction false} CollapseKeepsEnds(s: Text, run: Class)
    requires s != []
    ensures Collapse(s, run) != []
    ensures !StartsIn(s, run) ==> Collapse(s, run)[0] == s[0]
    ensures !EndsIn(s, run) ==> Collapse(s, run)[|Collapse(s, run)| - 1] == s[|s| - 1]
    decreases |s|
  {
    hide In;
    if In(run, s[0]) {
      if !EndsIn(s, run) {
        TrimStartConcat(s, [], run);
        CollapseKeepsEnds(TrimStart(s, run), run);
      }
    } else if |s| > 1 {
      CollapseKeepsEnds(s[1..], run);
    }
  }

  /** The units that separate, or vanish. */
  ghost predicate AllBad(gap: Text) {
    forall i :: 0 <= i < |gap| ==> In(Bad, gap[i])
  }

  /** A unit of whitespace that is no control character: the tab and line ends are dropped. */
  predicate Parts(c: CodeUnit) {
    IsSpace(c) && !IsControl(c)
  }

  function Printable(s: Text): Text {
    Without(Without(s, Control), Reserved)
  }

  lemma PrintableConcat(a: Text, b: Text)
    ensures Printable(a + b) == Printable(a) + Printable(b)
  {
    WithoutConcat(a, b, Control);
    WithoutConcat(Without(a, Control), Without(b, Control), Reserved);
  }

  lemma {:induction false} PrintableGap(gap: Text)
    requires AllBad(gap)
    ensures forall i :: 0 <= i < |Printable(gap)| ==> In(Space, Printable(gap)[i])
    ensures Printable(gap) == [] <==> forall i :: 0 <= i < |gap| ==> !Parts(gap[i])
  {
    if gap != [] {
      PrintableGap(gap[1..]);
      PrintableConcat([gap[0]], gap[1..]);
      assert [gap[0]] + gap[1..] == gap;
      PrintableOne(gap[0]);
      hide Printable;
    }
  }

  lemma PrintableOne(c: CodeUnit)
    requires In(Bad, c)
    ensures Printable([c]) == if Parts(c) then [c] else []
    ensures Parts(c) ==> In(Space, c)
  {
    assert [c][1..] == [];
    assert Without([c], Control) == if IsControl(c) then [] else [c];
    assert Without([c], Reserved) == if IsReserved(c) then [] else [c];
  }

  lemma PrintablePlainEnds(s: Text)
    requires s != []
    ensures StartsIn(s, Plain) ==> StartsIn(Printable(s), Plain)
    ensures EndsIn(s, Plain) ==> EndsIn(Printable(s), Plain)
  {
    WithoutKeepsEnds(s, Control);
    if Without(s, Control) != [] {
      WithoutKeepsEnds(Without(s, Control), Reserved);
    }
  }

  lemma PlainIsNoOther(s: Text)
    ensures StartsIn(s, Plain) ==> !StartsIn(s, Space) && !StartsIn(s, Dash) && !StartsIn(s, Edge)
    ensures EndsIn(s, Plain) ==> !EndsIn(s, Space) && !EndsIn(s, Dash) && !EndsIn(s, Edge)
  {
  }

  /** Everything after the deletions. */
  function Joined(printable: Text): Text {
    Trim(Collapse(Collapse(Trim(printable, Space), Space), Dash), Edge)
  }

  lemma JoinedAround(a: Text, gap: Text, b: Text)
    requires EndsIn(a, Plain) && StartsIn(b, Plain)
    requires gap != [] && forall i :: 0 <= i < |gap| ==> In(Space, gap[i])
    ensures Joined(a + gap + b) == Joined(a) + [DASH] + Joined(b)
  {
    PlainIsNoOther(a);
    PlainIsNoOther(b);
    TrimAround(a, gap, b, Space);
    var a1, b1 := Trim(a, Space), Trim(b, Space);
    PlainIsNoOther(a1);
    PlainIsNoOther(b1);
    CollapseAround(a1, gap, b1, Space);
    CollapseKeepsEnds(a1, Space);
    CollapseKeepsEnds(b1, Space);
    var a2, b2 := Collapse(a1, Space), Collapse(b1, Space);
    PlainIsNoOther(a2);
    PlainIsNoOther(b2);
    assert In(Dash, DASH);
    CollapseAround(a2, [DASH], b2, Dash);
    CollapseKeepsEnds(a2, Dash);
    CollapseKeepsEnds(b2, Dash);
    var a3, b3 := Collapse(a2, Dash), Collapse(b2, Dash);
    PlainIsNoOther(a3);
    PlainIsNoOther(b3);
    TrimAround(a3, [DASH], b3, Edge);
    hide In, Trim, Collapse;
  }

  lemma PrintableAround(a: Text, gap: Text, b: Text)
    requires EndsIn(a, Plain) && StartsIn(b, Plain) && AllBad(gap)
    ensures Printable(a + gap + b) == Printable(a) + Printable(gap) + Printable(b)
    ensures EndsIn(Printable(a), Plain) && StartsIn(Printable(b), Plain)
  {
    PrintablePlainEnds(a);
    PrintablePlainEnds(b);
    hide *;
    PrintableConcat(a + gap, b);
    PrintableConcat(a, gap);
  }

  /** Two words parted by whitespace stay parted, by one dash, and are sanitised each on its own. */
  lemma WordsStayParted(a: Text, gap: Text, b: Text)
    requires EndsIn(a, Plain) && StartsIn(b, Plain) && AllBad(gap)
    requires exists i :: 0 <= i < |gap| && Parts(gap[i])
    ensures Uncut(a + gap + b) == Uncut(a) + [DASH] + Uncut(b)
  {
    PrintableGap(gap);
    hide Printable, Joined, Uncut, In, Parts, EndsIn, StartsIn;
    PrintableAround(a, gap, b);
    UncutIsJoined(a);
    UncutIsJoined(b);
    UncutIsJoined(a + gap + b);
    JoinedAround(Printable(a), Printable(gap), Printable(b));
  }

  /** Where only control characters, tab and line ends among them, and reserved ones stand between
      two words, these are joined. */
  lemma OtherGapsVanish(a: Text, gap: Text, b: Text)
    requires EndsIn(a, Plain) && StartsIn(b, Plain) && AllBad(gap)
    requires forall i :: 0 <= i < |gap| ==> !Parts(gap[i])
    ensures Uncut(a + gap + b) == Uncut(a + b)
  {
    PrintableGap(gap);
    hide Printable, Joined, Uncut, In, Parts, EndsIn, StartsIn;
    PrintableAround(a, gap, b);
    PrintableConcat(a, b);
    UncutIsJoined(a + b);
    UncutIsJoined(a + gap + b);
    assert Printable(a) + [] + Printable(b) == Printable(a) + Printable(b);
  }

  lemma UncutIsJoined(s: Text)
    ensures Uncut(s) == Joined(Printable(s))
  {
  }
}
