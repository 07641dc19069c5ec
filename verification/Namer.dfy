/**
 * Distinct archive names ignoring letter case (src/domain/filename.ts, `createDistinctNamer`).
 */
module Namer {
  import opened Digits

  /** A lower-casing map, character by character; it may lengthen a character, and leaves the
      characters of a numbered suffix alone. */
  ghost predicate FixesSuffixes(f: char -> string) {
    forall c :: (IsDigit(c) || c == ' ' || c == '(' || c == ')') ==> f(c) == [c]
  }

  type CaseMap = f: char -> string | FixesSuffixes(f) witness (c: char) => [c]

  function Lower(f: CaseMap, s: string): string {
    if s == "" then "" else f(s[0]) + Lower(f, s[1..])
  }

  /** `name.lastIndexOf('.')` */
  function LastDot(name: string): (i: int)
    ensures -1 <= i < |name|
    ensures i >= 0 ==> name[i] == '.' && '.' !in name[i + 1..]
    ensures i < 0 ==> '.' !in name
  {
    if name == "" then -1 else if name[|name| - 1] == '.' then |name| - 1 else LastDot(name[..|name| - 1])
  }

  function Stem(name: string): string {
    if LastDot(name) > 0 then name[..LastDot(name)] else name
  }

  function Extension(name: string): string {
    if LastDot(name) > 0 then name[LastDot(name)..] else ""
  }

  function Suffix(n: nat): string {
    " (" + ToText(n) + ")"
  }

  /** The n-th name tried: the name itself, then `stem (2).ext`, `stem (3).ext`, … */
  function Candidate(name: string, n: nat): string {
    if n < 2 then name else Stem(name) + Suffix(n) + Extension(name)
  }

  // ---- Candidates are distinct -----------------------------------------------

  lemma {:induction false} LowerConcat(f: CaseMap, a: string, b: string)
    ensures Lower(f, a + b) == Lower(f, a) + Lower(f, b)
  {
    if a == "" {
      assert a + b == b;
    } else {
      assert (a + b)[1..] == a[1..] + b;
      LowerConcat(f, a[1..], b);
    }
  }

  lemma {:induction false} LowerFixes(f: CaseMap, s: string)
    requires forall i :: 0 <= i < |s| ==> f(s[i]) == [s[i]]
    ensures Lower(f, s) == s
  {
    if s != "" {
      LowerFixes(f, s[1..]);
    }
  }

  lemma LowerCandidate(f: CaseMap, name: string, n: nat)
    ensures n >= 2 ==> Lower(f, Candidate(name, n)) == Lower(f, Stem(name)) + Suffix(n) + Lower(f, Extension(name))
    ensures Lower(f, name) == Lower(f, Stem(name)) + Lower(f, Extension(name))
  {
    hide Lower;
    var stem, ext := Stem(name), Extension(name);
    LowerFixes(f, Suffix(n));
    LowerConcat(f, stem + Suffix(n), ext);
    LowerConcat(f, stem, Suffix(n));
    LowerConcat(f, stem, ext);
    assert name == stem + ext;
  }

  lemma SuffixesDiffer(before: string, m: nat, n: nat, after: string)
    requires before + Suffix(m) + after == before + Suffix(n) + after
    ensures m == n
  {
    hide ToText;
    var a, b := before + Suffix(m) + after, before + Suffix(n) + after;
    assert |Suffix(m)| == |Suffix(n)|;
    assert Suffix(m) == a[|before|..|before| + |Suffix(m)|] == b[|before|..|before| + |Suffix(n)|] == Suffix(n);
    assert ToText(m) == Suffix(m)[2..|Suffix(m)| - 1] == Suffix(n)[2..|Suffix(n)| - 1] == ToText(n);
    ToTextInjective(m, n);
  }

  /** No two candidates of a name are equal ignoring case. */
  lemma CandidatesDiffer(f: CaseMap, name: string, m: nat, n: nat)
    requires 1 <= m < n
    ensures Lower(f, Candidate(name, m)) != Lower(f, Candidate(name, n))
  {
    hide Lower, ToText, Stem, Extension;
    LowerCandidate(f, name, m);
    LowerCandidate(f, name, n);
    if m >= 2 && Lower(f, Candidate(name, m)) == Lower(f, Candidate(name, n)) {
      SuffixesDiffer(Lower(f, Stem(name)), m, n, Lower(f, Extension(name)));
    }
  }

  /** The extension starts at the last dot, unless that is the first character or there is none. */
  lemma ExtensionMeaning(name: string, i: nat)
    requires i < |name|
    ensures Extension(name) == name[i..] && Stem(name) == name[..i] <==>
              i > 0 && name[i] == '.' && '.' !in name[i + 1..]
    ensures (forall k :: 0 < k < |name| ==> name[k] != '.') ==> Extension(name) == "" && Stem(name) == name
    ensures Stem(name) + Extension(name) == name
  {
    var dot := LastDot(name);
    if i > 0 && name[i] == '.' && '.' !in name[i + 1..] {
      LastDotIs(name, i);
    }
    assert |name[i..]| == |name| - i;
    hide LastDot;
  }

  /** A candidate keeps the name's extension and extends its stem. */
  lemma CandidateKeepsParts(name: string, n: nat)
    ensures Extension(Candidate(name, n)) == Extension(name)
    ensures Stem(name) <= Stem(Candidate(name, n))
  {
    if n >= 2 {
      var candidate := Candidate(name, n);
      var dot := LastDot(name);
      NoDotInSuffix(n);
      hide ToText, Suffix;
      if dot > 0 {
        LastDotIs(candidate, dot + |Suffix(n)|);
      } else if dot == 0 {
        LastDotIs(candidate, 0);
      } else {
        assert '.' !in candidate;
      }
    }
  }

  lemma NoDotInSuffix(n: nat)
    ensures '.' !in Suffix(n)
  {
    hide ToText;
  }

  lemma {:induction false} LastDotIs(name: string, i: nat)
    requires i < |name| && name[i] == '.' && '.' !in name[i + 1..]
    ensures LastDot(name) == i
  {
    var last := |name| - 1;
    if i < last {
      assert name[last] in name[i + 1..];
      assert name[i + 1..] == name[..last][i + 1..] + [name[last]];
      LastDotIs(name[..last], i);
    }
  }

  // ---- Picking ------------------------------------------------------------------

  function Tried(f: CaseMap, name: string, n: nat): set<string> {
    set k: nat | 1 <= k < n :: Lower(f, Candidate(name, k))
  }

  lemma TriedNext(f: CaseMap, name: string, n: nat)
    requires n >= 1
    ensures Tried(f, name, n + 1) == Tried(f, name, n) + {Lower(f, Candidate(name, n))}
    ensures Lower(f, Candidate(name, n)) !in Tried(f, name, n)
  {
    hide Lower, Candidate;
    forall k: nat | 1 <= k < n
      ensures Lower(f, Candidate(name, k)) != Lower(f, Candidate(name, n))
    {
      CandidatesDiffer(f, name, k, n);
    }
  }

  lemma {:induction false} TriedCount(f: CaseMap, name: string, n: nat)
    requires n >= 1
    ensures |Tried(f, name, n)| == n - 1
  {
    if n == 1 {
      assert Tried(f, name, 1) == {};
    } else {
      TriedCount(f, name, n - 1);
      TriedNext(f, name, n - 1);
      hide Tried;
    }
  }

  /** The least free candidate from the n-th on; there is one, for the taken names run out. */
  function PickFrom(f: CaseMap, taken: set<string>, name: string, n: nat): (r: nat)
    requires n >= 1
    ensures r >= n && Lower(f, Candidate(name, r)) !in taken
    ensures forall k :: n <= k < r ==> Lower(f, Candidate(name, k)) in taken
    decreases taken - Tried(f, name, n)
  {
    if Lower(f, Candidate(name, n)) !in taken then n
    else
      TriedNext(f, name, n);
      PickFrom(f, taken, name, n + 1)
  }

  /** The number picked never exceeds one more than the names already taken. */
  lemma PickIsBounded(f: CaseMap, taken: set<string>, name: string)
    ensures 1 <= PickFrom(f, taken, name, 1) <= |taken| + 1
  {
    var n := PickFrom(f, taken, name, 1);
    TriedCount(f, name, n);
    assert Tried(f, name, n) <= taken;
    SubsetSize(Tried(f, name, n), taken);
  }

  lemma SubsetSize<T>(a: set<T>, b: set<T>)
    requires a <= b
    ensures |a| <= |b|
  {
    assert b == a + (b - a);
  }

  class DistinctNamer {
    const lower: CaseMap
    var taken: set<string>

    constructor (lower: CaseMap)
      ensures this.lower == lower && taken == {}
    {
      this.lower := lower;
      taken := {};
    }

    method Name(name: string) returns (candidate: string)
      modifies this
      ensures candidate == Candidate(name, PickFrom(lower, old(taken), name, 1))
      ensures Lower(lower, candidate) !in old(taken)
      ensures taken == old(taken) + {Lower(lower, candidate)}
    {
      hide Lower, Tried, Candidate, ToText;
      var dot := LastDot(name);
      var stem, ext := if dot > 0 then name[..dot] else name, if dot > 0 then name[dot..] else "";
      FirstAndLater(name);
      candidate := name;
      var n := 2;
      while Lower(lower, candidate) in taken
        invariant n >= 2 && candidate == Candidate(name, n - 1) && taken == old(taken)
        invariant PickFrom(lower, taken, name, n - 1) == PickFrom(lower, taken, name, 1)
        decreases taken - Tried(lower, name, n - 1)
      {
        TriedNext(lower, name, n - 1);
        candidate := stem + " (" + ToText(n) + ")" + ext;
        LaterCandidate(name, n);
        n := n + 1;
      }
      taken := taken + {Lower(lower, candidate)};
    }
  }

  lemma FirstAndLater(name: string)
    ensures Candidate(name, 1) == name
  {}

  lemma LaterCandidate(name: string, n: nat)
    requires n >= 2
    ensures Candidate(name, n) == Stem(name) + " (" + ToText(n) + ")" + Extension(name)
  {
    var digits, stem := ToText(n), Stem(name);
    hide ToText, Stem, Extension;
    assert stem + (" (" + digits + ")") == stem + " (" + digits + ")";
  }

  // ---- Whole archives --------------------------------------------------------------

  /** What a fresh namer, given the taken names, answers to a sequence of names. */
  function Names(f: CaseMap, taken: set<string>, names: seq<string>): (r: seq<string>)
    ensures |r| == |names|
    decreases names
  {
    if names == [] then []
    else
      var first := Candidate(names[0], PickFrom(f, taken, names[0], 1));
      [first] + Names(f, taken + {Lower(f, first)}, names[1..])
  }

  method NameAll(lower: CaseMap, names: seq<string>) returns (r: seq<string>)
    ensures r == Names(lower, {}, names)
  {
    var namer := new DistinctNamer(lower);
    r := [];
    assert names[0..] == names;
    for i := 0 to |names|
      invariant fresh(namer) && namer.lower == lower
      invariant r + Names(lower, namer.taken, names[i..]) == Names(lower, {}, names)
    {
      var answer := namer.Name(names[i]);
      assert names[i..][0] == names[i] && names[i..][1..] == names[i + 1..];
      r := r + [answer];
      hide Lower, Candidate, PickFrom;
    }
  }

  ghost predicate Avoids(f: CaseMap, taken: set<string>, r: seq<string>) {
    forall i :: 0 <= i < |r| ==> Lower(f, r[i]) !in taken
  }

  ghost predicate DistinctIgnoringCase(f: CaseMap, r: seq<string>) {
    forall i, j :: 0 <= i < j < |r| ==> Lower(f, r[i]) != Lower(f, r[j])
  }

  lemma PrependDistinct(f: CaseMap, taken: set<string>, first: string, rest: seq<string>)
    requires Lower(f, first) !in taken
    requires Avoids(f, taken + {Lower(f, first)}, rest) && DistinctIgnoringCase(f, rest)
    ensures Avoids(f, taken, [first] + rest) && DistinctIgnoringCase(f, [first] + rest)
  {
    hide Lower;
    assert forall i :: 0 <= i < |rest| ==> Lower(f, rest[i]) !in taken + {Lower(f, first)};
  }

  lemma {:induction false} NamesAvoidTaken(f: CaseMap, taken: set<string>, names: seq<string>)
    ensures Avoids(f, taken, Names(f, taken, names)) && DistinctIgnoringCase(f, Names(f, taken, names))
    decreases names
  {
    if names != [] {
      var n := PickFrom(f, taken, names[0], 1);
      var first := Candidate(names[0], n);
      hide Lower, Candidate, PickFrom;
      NamesAvoidTaken(f, taken + {Lower(f, first)}, names[1..]);
      PrependDistinct(f, taken, first, Names(f, taken + {Lower(f, first)}, names[1..]));
      hide Avoids, DistinctIgnoringCase;
    }
  }

  lemma {:induction false} NamesKeepParts(f: CaseMap, taken: set<string>, names: seq<string>, i: nat)
    requires i < |names|
    ensures Extension(Names(f, taken, names)[i]) == Extension(names[i])
    ensures Stem(names[i]) <= Stem(Names(f, taken, names)[i])
    decreases names
  {
    var n := PickFrom(f, taken, names[0], 1);
    var first := Candidate(names[0], n);
    hide Lower, Candidate, PickFrom, Stem, Extension;
    if i == 0 {
      CandidateKeepsParts(names[0], n);
    } else {
      NamesKeepParts(f, taken + {Lower(f, first)}, names[1..], i - 1);
    }
  }

  /** Whatever names a namer is asked for, its answers are pairwise distinct ignoring case,
      and each keeps its name's extension and, as a prefix, its stem. */
  lemma NamesAreDistinct(f: CaseMap, names: seq<string>)
    ensures var r := Names(f, {}, names);
            && DistinctIgnoringCase(f, r)
            && (forall i :: 0 <= i < |r| ==> Extension(r[i]) == Extension(names[i]) && Stem(names[i]) <= Stem(r[i]))
  {
    hide Lower, Stem, Extension, Names, DistinctIgnoringCase;
    NamesAvoidTaken(f, {}, names);
    var r := Names(f, {}, names);
    forall i | 0 <= i < |r|
      ensures Extension(r[i]) == Extension(names[i]) && Stem(names[i]) <= Stem(r[i])
    {
      NamesKeepParts(f, {}, names, i);
    }
  }

  /** A name is answered as asked exactly when no earlier answer equals it ignoring case. */
  lemma FreeNameUnchanged(f: CaseMap, taken: set<string>, name: string)
    ensures Names(f, taken, [name])[0] == name <==> Lower(f, name) !in taken
  {
    hide Lower, ToText;
    var n := PickFrom(f, taken, name, 1);
    if n >= 2 {
      assert |Candidate(name, n)| > |name|;
    }
  }

  /** Otherwise the answer is `stem (n).ext` for the least n >= 2 that no earlier answer holds. */
  lemma TakenNameNumbered(f: CaseMap, taken: set<string>, name: string)
    requires Lower(f, name) in taken
    ensures exists n: nat ::
              && n >= 2
              && Names(f, taken, [name])[0] == Numbered(name, n)
              && Lower(f, Numbered(name, n)) !in taken
              && forall k :: 2 <= k < n ==> Lower(f, Numbered(name, k)) in taken
  {
    FirstAndLater(name);
    var n := PickFrom(f, taken, name, 1);
    assert n >= 2;
    forall k: nat | 2 <= k <= n
      ensures Candidate(name, k) == Numbered(name, k)
    {
      LaterCandidate(name, k);
    }
    hide Candidate, Lower;
    assert Names(f, taken, [name])[0] == Candidate(name, n);
  }

  function Numbered(name: string, n: nat): string {
    Stem(name) + " (" + ToText(n) + ")" + Extension(name)
  }
}
