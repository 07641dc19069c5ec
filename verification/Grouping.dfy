/**
 * Storno-sibling display order (src/domain/invoiceGrouping.ts).
 */
module Grouping {
  import opened Wrappers

  /** Ids are only compared, so numbers stand for them; 0 is the empty string. */
  type Id = nat
  const EMPTY_ID: Id := 0

  /** An invoice row, by what the ordering reads; `body` stands for all other fields. */
  datatype Invoice = Invoice(id: Id, cancellationOf: Option<Id>, body: int)

  /** `Boolean(inv.cancellationOf)`: `null` and the empty string are falsy. */
  predicate IsStorno(inv: Invoice) {
    inv.cancellationOf.Some? && inv.cancellationOf.value != EMPTY_ID
  }

  /** Rows as the API lists them: one row per id, and no id is empty. */
  ghost predicate WellFormed(rows: seq<Invoice>) {
    && (forall i, j :: 0 <= i < j < |rows| ==> rows[i].id != rows[j].id)
    && (forall i :: 0 <= i < |rows| ==> rows[i].id != EMPTY_ID)
  }

  // ---- What the order is ---------------------------------------------------

  datatype Selection =
    | Originals
    | SiblingsOf(id: Id)
    | OrphansOf(ids: set<Id>)

  predicate Selects(sel: Selection, inv: Invoice) {
    match sel
    case Originals => !IsStorno(inv)
    case SiblingsOf(id) => inv.cancellationOf == Some(id)
    case OrphansOf(ids) => IsStorno(inv) && inv.cancellationOf.value !in ids
  }

  /** The selected rows, in input order. */
  function Keep(rows: seq<Invoice>, sel: Selection): seq<Invoice> {
    if rows == [] then []
    else (if Selects(sel, rows[0]) then [rows[0]] else []) + Keep(rows[1..], sel)
  }

  function Ids(rows: seq<Invoice>): set<Id> {
    set inv | inv in rows :: inv.id
  }

  /** Each original followed by its own Stornos. */
  function Blocks(originals: seq<Invoice>, rows: seq<Invoice>): seq<Invoice> {
    if originals == [] then []
    else [originals[0]] + Keep(rows, SiblingsOf(originals[0].id)) + Blocks(originals[1..], rows)
  }

  function Orphans(rows: seq<Invoice>): seq<Invoice> {
    Keep(rows, OrphansOf(Ids(Keep(rows, Originals))))
  }

  function Grouped(rows: seq<Invoice>): seq<Invoice> {
    Blocks(Keep(rows, Originals), rows) + Orphans(rows)
  }

  // ---- Filters over concatenations --------------------------------------------

  lemma {:induction false} KeepMembers(rows: seq<Invoice>, sel: Selection)
    ensures forall inv :: inv in Keep(rows, sel) <==> inv in rows && Selects(sel, inv)
  {
    if rows != [] {
      KeepMembers(rows[1..], sel);
      assert forall inv :: inv in rows <==> inv == rows[0] || inv in rows[1..];
    }
  }

  lemma Regroup(a: seq<Invoice>, b: seq<Invoice>, c: seq<Invoice>)
    ensures a + (b + c) == a + b + c
  {
  }

  lemma KeepHead(rows: seq<Invoice>, sel: Selection)
    requires rows != []
    ensures Keep(rows, sel) == (if Selects(sel, rows[0]) then [rows[0]] else []) + Keep(rows[1..], sel)
  {
  }

  lemma {:induction false} KeepConcat(a: seq<Invoice>, b: seq<Invoice>, sel: Selection)
    ensures Keep(a + b, sel) == Keep(a, sel) + Keep(b, sel)
  {
    if a == [] {
      assert a + b == b;
    } else {
      hide *;
      KeepConcat(a[1..], b, sel);
      assert (a + b)[1..] == a[1..] + b;
      KeepHead(a + b, sel);
      KeepHead(a, sel);
      Regroup(if Selects(sel, a[0]) then [a[0]] else [], Keep(a[1..], sel), Keep(b, sel));
    }
  }

  lemma KeepAppend(rows: seq<Invoice>, i: nat, sel: Selection)
    requires i < |rows|
    ensures Keep(rows[..i + 1], sel) == Keep(rows[..i], sel) + if Selects(sel, rows[i]) then [rows[i]] else []
  {
    assert rows[..i + 1] == rows[..i] + [rows[i]];
    KeepConcat(rows[..i], [rows[i]], sel);
    assert [rows[i]][1..] == [];
  }

  lemma {:induction false} KeepAll(rows: seq<Invoice>, sel: Selection)
    requires forall inv :: inv in rows ==> Selects(sel, inv)
    ensures Keep(rows, sel) == rows
  {
    if rows != [] {
      assert rows[0] in rows && forall inv :: inv in rows[1..] ==> inv in rows;
      KeepAll(rows[1..], sel);
    }
  }

  lemma {:induction false} KeepNone(rows: seq<Invoice>, sel: Selection)
    requires forall inv :: inv in rows ==> !Selects(sel, inv)
    ensures Keep(rows, sel) == []
  {
    if rows != [] {
      assert rows[0] in rows && forall inv :: inv in rows[1..] ==> inv in rows;
      KeepNone(rows[1..], sel);
    }
  }

  function Count(rows: seq<Invoice>, inv: Invoice): nat {
    if rows == [] then 0 else (if rows[0] == inv then 1 else 0) + Count(rows[1..], inv)
  }

  lemma {:induction false} CountIsMultiplicity(rows: seq<Invoice>, inv: Invoice)
    ensures Count(rows, inv) == multiset(rows)[inv]
  {
    if rows != [] {
      CountIsMultiplicity(rows[1..], inv);
      assert rows == [rows[0]] + rows[1..];
    }
  }

  lemma {:induction false} CountConcat(a: seq<Invoice>, b: seq<Invoice>, inv: Invoice)
    ensures Count(a + b, inv) == Count(a, inv) + Count(b, inv)
  {
    if a == [] {
      assert a + b == b;
    } else {
      assert (a + b)[1..] == a[1..] + b;
      CountConcat(a[1..], b, inv);
    }
  }

  lemma {:induction false} CountKeep(rows: seq<Invoice>, sel: Selection, inv: Invoice)
    ensures Count(Keep(rows, sel), inv) == if Selects(sel, inv) then Count(rows, inv) else 0
  {
    hide Selects;
    if rows != [] {
      CountKeep(rows[1..], sel, inv);
      CountConcat(if Selects(sel, rows[0]) then [rows[0]] else [], Keep(rows[1..], sel), inv);
      assert [rows[0]][1..] == [];
    }
  }

  // ---- Properties of the grouped order -------------------------------------------

  lemma WellFormedOriginals(rows: seq<Invoice>)
    requires WellFormed(rows)
    ensures WellFormed(Keep(rows, Originals))
    decreases |rows|
  {
    if rows != [] {
      WellFormedOriginals(rows[1..]);
      var rest := Keep(rows[1..], Originals);
      KeepMembers(rows[1..], Originals);
      forall i | 0 <= i < |rest|
        ensures rest[i].id != rows[0].id && rest[i].id != EMPTY_ID
      {
        assert rest[i] in rest;
      }
    }
  }

  lemma KeepBlock(o: Invoice, siblings: seq<Invoice>, rest: seq<Invoice>, sel: Selection)
    ensures Keep([o] + siblings + rest, sel)
              == (if Selects(sel, o) then [o] else []) + Keep(siblings, sel) + Keep(rest, sel)
  {
    KeepConcat([o] + siblings, rest, sel);
    KeepConcat([o], siblings, sel);
    assert [o][1..] == [];
  }

  /** Selections of the blocks: the originals themselves, and one original's Stornos. */
  function BlockSelection(originals: seq<Invoice>, rows: seq<Invoice>, sel: Selection): seq<Invoice> {
    match sel
    case Originals => originals
    case SiblingsOf(id) => if id in Ids(originals) then Keep(rows, sel) else []
    case OrphansOf(ids) => []
  }

  lemma {:induction false} KeepBlocks(originals: seq<Invoice>, rows: seq<Invoice>, sel: Selection)
    requires WellFormed(originals) && forall inv :: inv in originals ==> !IsStorno(inv)
    requires sel.SiblingsOf? ==> sel.id != EMPTY_ID
    requires sel.OrphansOf? ==> Ids(originals) <= sel.ids
    ensures Keep(Blocks(originals, rows), sel) == BlockSelection(originals, rows, sel)
  {
    if originals != [] {
      var o, rest := originals[0], originals[1..];
      assert o in originals && forall inv :: inv in rest ==> inv in originals;
      assert o.id != EMPTY_ID;
      IdsHead(originals);
      hide WellFormed, Keep, Ids;
      KeepBlocks(rest, rows, sel);
      KeepBlock(o, Keep(rows, SiblingsOf(o.id)), Blocks(rest, rows), sel);
      KeepSiblings(o, rows, sel);
    }
  }

  lemma KeepSiblings(o: Invoice, rows: seq<Invoice>, sel: Selection)
    requires o.id != EMPTY_ID && (sel.OrphansOf? ==> o.id in sel.ids)
    ensures Keep(Keep(rows, SiblingsOf(o.id)), sel)
              == if sel == SiblingsOf(o.id) then Keep(rows, sel) else []
  {
    KeepMembers(rows, SiblingsOf(o.id));
    hide Keep;
    var siblings := Keep(rows, SiblingsOf(o.id));
    if sel == SiblingsOf(o.id) {
      KeepAll(siblings, sel);
    } else {
      KeepNone(siblings, sel);
    }
  }

  lemma IdsHead(rows: seq<Invoice>)
    requires rows != []
    ensures Ids(rows) == Ids(rows[1..]) + {rows[0].id}
    ensures WellFormed(rows) ==> rows[0].id !in Ids(rows[1..]) && WellFormed(rows[1..])
  {
    assert rows[0] in rows && forall inv :: inv in rows <==> inv == rows[0] || inv in rows[1..];
  }

  /** Grouping keeps every selection in input order: the originals, each original's
      Stornos, and the orphans. */
  lemma GroupingKeepsOrder(rows: seq<Invoice>, id: Id)
    requires WellFormed(rows)
    ensures Keep(Grouped(rows), Originals) == Keep(rows, Originals)
    ensures id in Ids(Keep(rows, Originals)) ==>
              Keep(Grouped(rows), SiblingsOf(id)) == Keep(rows, SiblingsOf(id))
    ensures Orphans(Grouped(rows)) == Orphans(rows)
  {
    var originals := Keep(rows, Originals);
    var blocks, orphans := Blocks(originals, rows), Orphans(rows);
    WellFormedOriginals(rows);
    KeepMembers(rows, Originals);
    KeepMembers(rows, OrphansOf(Ids(originals)));
    KeepConcat(blocks, orphans, Originals);
    KeepBlocks(originals, rows, Originals);
    KeepNone(orphans, Originals);
    if id in Ids(originals) {
      KeepConcat(blocks, orphans, SiblingsOf(id));
      KeepBlocks(originals, rows, SiblingsOf(id));
      KeepNone(orphans, SiblingsOf(id));
    }
    var sel := OrphansOf(Ids(originals));
    KeepConcat(blocks, orphans, sel);
    KeepBlocks(originals, rows, sel);
    KeepAll(orphans, sel);
  }

  lemma {:induction false} SameSiblingsSameBlocks(originals: seq<Invoice>, a: seq<Invoice>, b: seq<Invoice>)
    requires forall inv :: inv in originals ==> Keep(a, SiblingsOf(inv.id)) == Keep(b, SiblingsOf(inv.id))
    ensures Blocks(originals, a) == Blocks(originals, b)
  {
    if originals != [] {
      assert originals[0] in originals && forall inv :: inv in originals[1..] ==> inv in originals;
      SameSiblingsSameBlocks(originals[1..], a, b);
    }
  }

  /** Grouping a grouped list changes nothing. */
  lemma GroupingIsIdempotent(rows: seq<Invoice>)
    requires WellFormed(rows)
    ensures Grouped(Grouped(rows)) == Grouped(rows)
  {
    var originals := Keep(rows, Originals);
    KeepMembers(rows, Originals);
    forall inv | inv in originals
      ensures Keep(Grouped(rows), SiblingsOf(inv.id)) == Keep(rows, SiblingsOf(inv.id))
    {
      GroupingKeepsOrder(rows, inv.id);
    }
    GroupingKeepsOrder(rows, EMPTY_ID);
    SameSiblingsSameBlocks(originals, Grouped(rows), rows);
  }

  /** Each original is followed immediately by all its Stornos, in input order; whatever
      comes after them, orphans come last. */
  lemma StornosFollowOriginal(rows: seq<Invoice>, o: Invoice) returns (before: seq<Invoice>, after: seq<Invoice>)
    requires o in rows && !IsStorno(o)
    ensures Grouped(rows) == before + ([o] + Keep(rows, SiblingsOf(o.id))) + (after + Orphans(rows))
  {
    KeepMembers(rows, Originals);
    assert Selects(Originals, o);
    assert Grouped(rows) == Blocks(Keep(rows, Originals), rows) + Orphans(rows);
    hide *;
    before, after := BlockOf(Keep(rows, Originals), rows, o);
    Regroup(before + ([o] + Keep(rows, SiblingsOf(o.id))), after, Orphans(rows));
  }

  /** The orphans are the Stornos whose original the list does not hold. */
  lemma OrphansAreStrays(rows: seq<Invoice>, inv: Invoice)
    ensures inv in Orphans(rows) <==> inv in rows && IsStorno(inv) && !IsListedOriginal(rows, inv.cancellationOf.value)
  {
    var originals := Keep(rows, Originals);
    KeepMembers(rows, Originals);
    KeepMembers(rows, OrphansOf(Ids(originals)));
    hide Keep;
    if IsStorno(inv) && IsListedOriginal(rows, inv.cancellationOf.value) {
      var o :| o in rows && !IsStorno(o) && o.id == inv.cancellationOf.value;
      assert o in originals;
    }
  }

  /** A row without a reference, or with an empty one, is an original. */
  lemma OriginalsMeaning(rows: seq<Invoice>, inv: Invoice)
    ensures inv in Keep(rows, Originals) <==>
              inv in rows && (inv.cancellationOf == None || inv.cancellationOf == Some(EMPTY_ID))
  {
    KeepMembers(rows, Originals);
  }

  ghost predicate IsListedOriginal(rows: seq<Invoice>, id: Id) {
    exists o :: o in rows && !IsStorno(o) && o.id == id
  }

  lemma {:induction false} BlockOf(originals: seq<Invoice>, rows: seq<Invoice>, o: Invoice)
    returns (before: seq<Invoice>, after: seq<Invoice>)
    requires o in originals
    ensures Blocks(originals, rows) == before + ([o] + Keep(rows, SiblingsOf(o.id))) + after
  {
    hide Keep;
    var block := [originals[0]] + Keep(rows, SiblingsOf(originals[0].id));
    if originals[0] == o {
      before, after := [], Blocks(originals[1..], rows);
    } else {
      var b, a := BlockOf(originals[1..], rows, o);
      before, after := block + b, a;
    }
  }

  /** The blocks hold each original as often as the list does, and all Stornos of an original. */
  lemma {:induction false} CountBlocks(originals: seq<Invoice>, rows: seq<Invoice>, inv: Invoice)
    requires WellFormed(originals)
    ensures Count(Blocks(originals, rows), inv) == Count(originals, inv)
              + if inv.cancellationOf.Some? && inv.cancellationOf.value in Ids(originals) then Count(rows, inv) else 0
  {
    if originals != [] {
      var o, rest := originals[0], originals[1..];
      IdsHead(originals);
      CountBlocks(rest, rows, inv);
      CountKeep(rows, SiblingsOf(o.id), inv);
      CountConcat([o] + Keep(rows, SiblingsOf(o.id)), Blocks(rest, rows), inv);
      CountConcat([o], Keep(rows, SiblingsOf(o.id)), inv);
      assert [o][1..] == [];
      hide Keep, Ids, WellFormed;
    }
  }

  lemma CountGrouped(rows: seq<Invoice>, inv: Invoice)
    requires WellFormed(rows)
    ensures Count(Grouped(rows), inv) == Count(rows, inv)
  {
    var originals := Keep(rows, Originals);
    var ids := Ids(originals);
    WellFormedOriginals(rows);
    EmptyIdUnused(originals);
    CountBlocks(originals, rows, inv);
    CountKeep(rows, Originals, inv);
    CountKeep(rows, OrphansOf(ids), inv);
    CountConcat(Blocks(originals, rows), Orphans(rows), inv);
    hide Keep, Ids, WellFormed, Blocks, Count;
  }

  lemma EmptyIdUnused(rows: seq<Invoice>)
    requires WellFormed(rows)
    ensures EMPTY_ID !in Ids(rows)
  {}

  /** Grouping is a permutation: no row is lost or shown twice. */
  lemma GroupingIsPermutation(rows: seq<Invoice>)
    requires WellFormed(rows)
    ensures multiset(Grouped(rows)) == multiset(rows)
  {
    forall inv
      ensures multiset(Grouped(rows))[inv] == multiset(rows)[inv]
    {
      CountIsMultiplicity(Grouped(rows), inv);
      CountIsMultiplicity(rows, inv);
      CountGrouped(rows, inv);
    }
  }

  // ---- The loop ---------------------------------------------------------------

  /** Row `k` is in the result after `i` turns of the first loop. */
  ghost predicate Placed(rows: seq<Invoice>, i: nat, k: nat)
    requires i <= |rows| && k < |rows|
  {
    if IsStorno(rows[k]) then rows[k].cancellationOf.value in Ids(Keep(rows[..i], Originals)) else k < i
  }

  /** The same while the inner loop of turn `i` stands at `j`. */
  ghost predicate PlacedInner(rows: seq<Invoice>, i: nat, j: nat, k: nat)
    requires i < |rows| && j <= |rows| && k < |rows|
  {
    Placed(rows, i, k) || k == i || (k < j && rows[k].cancellationOf == Some(rows[i].id))
  }

  ghost predicate Emitted(rows: seq<Invoice>, seen: set<Id>, result: seq<Invoice>) {
    seen == Ids(result) && forall inv :: inv in result ==> inv in rows
  }

  ghost predicate Outer(rows: seq<Invoice>, i: nat, seen: set<Id>, result: seq<Invoice>)
    requires i <= |rows|
  {
    && Emitted(rows, seen, result)
    && (WellFormed(rows) ==>
          && result == Blocks(Keep(rows[..i], Originals), rows)
          && forall k :: 0 <= k < |rows| ==> (rows[k].id in seen <==> Placed(rows, i, k)))
  }

  ghost predicate Inner(rows: seq<Invoice>, i: nat, j: nat, seen: set<Id>, result: seq<Invoice>)
    requires i < |rows| && j <= |rows|
  {
    && Emitted(rows, seen, result)
    && (WellFormed(rows) ==> InnerOrder(rows, i, j, seen, result))
  }

  ghost predicate InnerOrder(rows: seq<Invoice>, i: nat, j: nat, seen: set<Id>, result: seq<Invoice>)
    requires i < |rows| && j <= |rows|
  {
    && result == Blocks(Keep(rows[..i], Originals), rows) + [rows[i]] + Keep(rows[..j], SiblingsOf(rows[i].id))
    && forall k :: 0 <= k < |rows| ==> (rows[k].id in seen <==> PlacedInner(rows, i, j, k))
  }

  ghost predicate Final(rows: seq<Invoice>, i: nat, seen: set<Id>, result: seq<Invoice>)
    requires i <= |rows|
  {
    && Emitted(rows, seen + Ids(rows[..i]), result)
    && (WellFormed(rows) ==> FinalOrder(rows, i, seen, result))
  }

  ghost predicate FinalOrder(rows: seq<Invoice>, i: nat, seen: set<Id>, result: seq<Invoice>)
    requires i <= |rows|
  {
    && result == Blocks(Keep(rows, Originals), rows) + Keep(rows[..i], OrphansOf(Ids(Keep(rows, Originals))))
    && forall k :: 0 <= k < |rows| ==> (rows[k].id in seen <==> Placed(rows, |rows|, k))
  }

  lemma IdsAppend(rows: seq<Invoice>, inv: Invoice)
    ensures Ids(rows + [inv]) == Ids(rows) + {inv.id}
  {
    assert inv in rows + [inv] && forall x :: x in rows + [inv] <==> x in rows || x == inv;
  }

  lemma SameIdSameRow(rows: seq<Invoice>, j: nat)
    requires WellFormed(rows) && j < |rows|
    ensures forall k :: 0 <= k < |rows| ==> (rows[k].id == rows[j].id <==> k == j)
    ensures rows[j].id != EMPTY_ID
  {}

  lemma OuterStart(rows: seq<Invoice>)
    ensures Outer(rows, 0, {}, [])
  {
    assert Keep(rows[..0], Originals) == [];
    assert Ids([]) == {};
  }

  /** A Storno, or a row already emitted, is skipped by the first loop. */
  lemma OuterSkip(rows: seq<Invoice>, i: nat, seen: set<Id>, result: seq<Invoice>)
    requires i < |rows| && Outer(rows, i, seen, result)
    requires IsStorno(rows[i]) || rows[i].id in seen
    ensures Outer(rows, i + 1, seen, result)
  {
    KeepAppend(rows, i, Originals);
    if WellFormed(rows) {
      assert rows[i].id in seen <==> Placed(rows, i, i);
      assert Keep(rows[..i + 1], Originals) == Keep(rows[..i], Originals);
    }
  }

  lemma InnerStart(rows: seq<Invoice>, i: nat, seen: set<Id>, result: seq<Invoice>)
    requires i < |rows| && Outer(rows, i, seen, result) && !IsStorno(rows[i])
    ensures Inner(rows, i, 0, seen + {rows[i].id}, result + [rows[i]])
  {
    IdsAppend(result, rows[i]);
    hide Ids, Blocks;
    if WellFormed(rows) {
      SameIdSameRow(rows, i);
      assert Keep(rows[..0], SiblingsOf(rows[i].id)) == [];
      hide Keep;
    }
  }

  lemma SiblingNotPlaced(rows: seq<Invoice>, i: nat, j: nat)
    requires WellFormed(rows) && i < |rows| && j < |rows| && !IsStorno(rows[i])
    requires rows[j].cancellationOf == Some(rows[i].id)
    ensures !PlacedInner(rows, i, j, j)
  {
    KeepMembers(rows[..i], Originals);
    SameIdSameRow(rows, i);
    hide Keep;
    assert forall inv :: inv in rows[..i] ==> inv.id != rows[i].id;
  }

  lemma InnerStep(rows: seq<Invoice>, i: nat, j: nat, seen: set<Id>, result: seq<Invoice>)
    requires i < |rows| && j < |rows| && Inner(rows, i, j, seen, result) && !IsStorno(rows[i])
    ensures if rows[j].cancellationOf == Some(rows[i].id) && rows[j].id !in seen
            then Inner(rows, i, j + 1, seen + {rows[j].id}, result + [rows[j]])
            else Inner(rows, i, j + 1, seen, result)
  {
    IdsAppend(result, rows[j]);
    if WellFormed(rows) {
      InnerOrderStep(rows, i, j, seen, result);
    }
    hide Ids, WellFormed, InnerOrder;
  }

  lemma InnerOrderStep(rows: seq<Invoice>, i: nat, j: nat, seen: set<Id>, result: seq<Invoice>)
    requires i < |rows| && j < |rows| && WellFormed(rows) && InnerOrder(rows, i, j, seen, result) && !IsStorno(rows[i])
    ensures if rows[j].cancellationOf == Some(rows[i].id) && rows[j].id !in seen
            then InnerOrder(rows, i, j + 1, seen + {rows[j].id}, result + [rows[j]])
            else InnerOrder(rows, i, j + 1, seen, result)
  {
    KeepAppend(rows, j, SiblingsOf(rows[i].id));
    SameIdSameRow(rows, j);
    if rows[j].cancellationOf == Some(rows[i].id) {
      SiblingNotPlaced(rows, i, j);
    }
    hide Ids, Blocks, Keep, WellFormed, Placed;
  }

  lemma InnerEnd(rows: seq<Invoice>, i: nat, seen: set<Id>, result: seq<Invoice>)
    requires i < |rows| && Inner(rows, i, |rows|, seen, result) && !IsStorno(rows[i])
    ensures Outer(rows, i + 1, seen, result)
  {
    assert rows[..|rows|] == rows;
    KeepAppend(rows, i, Originals);
    BlocksAppend(Keep(rows[..i], Originals), rows[i], rows);
    IdsAppend(Keep(rows[..i], Originals), rows[i]);
    hide Ids, Blocks, Keep, WellFormed;
  }

  lemma {:induction false} BlocksAppend(originals: seq<Invoice>, inv: Invoice, rows: seq<Invoice>)
    ensures Blocks(originals + [inv], rows)
              == Blocks(originals, rows) + [inv] + Keep(rows, SiblingsOf(inv.id))
  {
    if originals == [] {
      assert originals + [inv] == [inv] && [inv][1..] == [];
    } else {
      assert (originals + [inv])[1..] == originals[1..] + [inv];
      BlocksAppend(originals[1..], inv, rows);
    }
  }

  lemma FinalStart(rows: seq<Invoice>, seen: set<Id>, result: seq<Invoice>)
    requires Outer(rows, |rows|, seen, result)
    ensures Final(rows, 0, seen, result)
  {
    assert rows[..|rows|] == rows && rows[..0] == [] && Ids([]) == {};
    assert Keep([], OrphansOf(Ids(Keep(rows, Originals)))) == [];
    hide Ids, Blocks, Keep, WellFormed;
  }

  lemma EmittedStep(rows: seq<Invoice>, i: nat, seen: set<Id>, result: seq<Invoice>)
    requires i < |rows| && Emitted(rows, seen + Ids(rows[..i]), result)
    ensures Emitted(rows, seen + Ids(rows[..i + 1]), if rows[i].id !in seen then result + [rows[i]] else result)
  {
    assert rows[..i + 1] == rows[..i] + [rows[i]];
    IdsAppend(result, rows[i]);
    IdsAppend(rows[..i], rows[i]);
    hide Ids;
  }

  lemma FinalStep(rows: seq<Invoice>, i: nat, seen: set<Id>, result: seq<Invoice>)
    requires i < |rows| && Final(rows, i, seen, result)
    ensures Final(rows, i + 1, seen, if rows[i].id !in seen then result + [rows[i]] else result)
  {
    EmittedStep(rows, i, seen, result);
    hide Emitted, WellFormed;
    if WellFormed(rows) {
      FinalOrderStep(rows, i, seen, result);
    }
    hide FinalOrder;
  }

  lemma FinalOrderStep(rows: seq<Invoice>, i: nat, seen: set<Id>, result: seq<Invoice>)
    requires i < |rows| && FinalOrder(rows, i, seen, result)
    ensures FinalOrder(rows, i + 1, seen, if rows[i].id !in seen then result + [rows[i]] else result)
  {
    hide Ids, Blocks, Keep;
    var originals := Keep(rows, Originals);
    assert rows[..|rows|] == rows;
    assert rows[i].id in seen <==> Placed(rows, |rows|, i);
    KeepAppend(rows, i, OrphansOf(Ids(originals)));
  }

  lemma FinalEnd(rows: seq<Invoice>, seen: set<Id>, result: seq<Invoice>)
    requires Final(rows, |rows|, seen, result) && seen <= Ids(rows)
    ensures WellFormed(rows) ==> result == Grouped(rows)
    ensures Ids(result) == Ids(rows) && forall inv :: inv in result ==> inv in rows
  {
    assert rows[..|rows|] == rows;
  }

  method OrderInvoicesWithStornoGrouping(invoices: seq<Invoice>) returns (result: seq<Invoice>)
    ensures WellFormed(invoices) ==> result == Grouped(invoices)
    ensures Ids(result) == Ids(invoices) && forall inv :: inv in result ==> inv in invoices
  {
    var seen: set<Id> := {};
    result := [];
    OuterStart(invoices);
    hide Outer, Inner, Final, WellFormed, Grouped;
    for i := 0 to |invoices|
      invariant Outer(invoices, i, seen, result)
    {
      var inv := invoices[i];
      if inv.id in seen {
        OuterSkip(invoices, i, seen, result);
        continue;
      }
      if IsStorno(inv) {
        OuterSkip(invoices, i, seen, result);
        continue;
      }
      InnerStart(invoices, i, seen, result);
      result := result + [inv];
      seen := seen + {inv.id};
      for j := 0 to |invoices|
        invariant Inner(invoices, i, j, seen, result)
      {
        var sibling := invoices[j];
        InnerStep(invoices, i, j, seen, result);
        if sibling.cancellationOf == Some(inv.id) && sibling.id !in seen {
          result := result + [sibling];
          seen := seen + {sibling.id};
        }
      }
      InnerEnd(invoices, i, seen, result);
    }
    SeenIsListed(invoices, seen, result);
    FinalStart(invoices, seen, result);
    for i := 0 to |invoices|
      invariant Final(invoices, i, seen, result)
    {
      var inv := invoices[i];
      FinalStep(invoices, i, seen, result);
      if inv.id !in seen {
        result := result + [inv];
      }
    }
    FinalEnd(invoices, seen, result);
  }

  lemma SeenIsListed(rows: seq<Invoice>, seen: set<Id>, result: seq<Invoice>)
    requires Outer(rows, |rows|, seen, result)
    ensures seen <= Ids(rows)
  {}
}
