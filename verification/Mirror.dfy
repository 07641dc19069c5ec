/**
 * The bucket mirror (scripts/ops/restore-bucket-objects.py): every dumped file that has a
 * row becomes a new version with its row's metadata, everything else under the prefix gets
 * a delete marker, and the rows learn their new version ids.
 */
module Mirror {
  import opened Wrappers

  type Key = string

  // ---- The restored rows -------------------------------------------------------

  datatype Column = VersionId | ThumbVersionId

  datatype Metadata = Metadata(wrapped: string, dekVersion: string, invoiceNumber: Option<string>)

  datatype Target = Target(id: string, column: Column, metadata: Metadata, hadVersion: bool)

  datatype RowError = Malformed | BadDekVersion | NoEnvelope(key: Key) | TwoRows(key: Key)

  type Row = seq<string>

  type Targets = map<Key, Target>

  /** What a row brings, one step at a time: an object it names, or a refusal. */
  datatype Item = Named(key: Key, target: Target) | Refusal(error: RowError)

  predicate IsNumeral(s: string) {
    s != "" && forall i :: 0 <= i < |s| ==> '0' <= s[i] <= '9'
  }

  function Original(row: Row): Item
    requires |row| == 9
  {
    Named(row[1], Target(row[0], VersionId,
      Metadata(row[3], row[5], if row[6] != "" then Some(row[6]) else None), row[7] != ""))
  }

  function Thumb(row: Row): Item
    requires |row| == 9
  {
    Named(row[2], Target(row[0], ThumbVersionId, Metadata(row[4], row[5], None), row[8] != ""))
  }

  function ItemsOf(row: Row): seq<Item> {
    if |row| != 9 then [Refusal(Malformed)]
    else if !IsNumeral(row[5]) then [Refusal(BadDekVersion)]
    else [Original(row)] + if row[2] != "" then [Thumb(row)] else []
  }

  function AllItems(rows: seq<Row>): seq<Item> {
    if rows == [] then []
    else AllItems(rows[..|rows| - 1]) + ItemsOf(rows[|rows| - 1])
  }

  function Join(targets: Targets, item: Item): Result<Targets, RowError> {
    match item
    case Refusal(e) => Err(e)
    case Named(key, target) =>
      if target.metadata.wrapped == "" then Err(NoEnvelope(key))
      else if key in targets then Err(TwoRows(key))
      else Ok(targets[key := target])
  }

  function Gather(items: seq<Item>): Result<Targets, RowError> {
    if items == [] then Ok(map[])
    else
      match Gather(items[..|items| - 1])
      case Err(e) => Err(e)
      case Ok(t) => Join(t, items[|items| - 1])
  }

  function TargetsOf(rows: seq<Row>): Result<Targets, RowError> {
    Gather(AllItems(rows))
  }

  method ReadTargets(rows: seq<Row>) returns (r: Result<Targets, RowError>)
    ensures r == TargetsOf(rows)
  {
    hide Join, ItemsOf;
    var targets: Targets := map[];
    for i := 0 to |rows|
      invariant Gather(AllItems(rows[..i])) == Ok(targets)
    {
      var items := ItemsOf(rows[i]);
      ghost var before := AllItems(rows[..i]);
      assert AllItems(rows[..i + 1]) == before + items by {
        assert rows[..i + 1][..i] == rows[..i];
      }
      assert before + items[..0] == before;
      for j := 0 to |items|
        invariant Gather(before + items[..j]) == Ok(targets)
      {
        GatherStep(before, items, j);
        var joined := Join(targets, items[j]);
        if joined.Err? {
          RowsExtend(rows, i + 1, before + items[..j + 1]);
          return Err(joined.error);
        }
        targets := joined.value;
      }
      assert items[..|items|] == items;
    }
    assert rows[..|rows|] == rows;
    r := Ok(targets);
  }

  lemma GatherStep(before: seq<Item>, items: seq<Item>, j: nat)
    requires j < |items| && Gather(before + items[..j]).Ok?
    ensures Gather(before + items[..j + 1]) == Join(Gather(before + items[..j]).value, items[j])
  {
    hide Join;
    var longer := before + items[..j + 1];
    assert longer[..|longer| - 1] == before + items[..j];
  }

  lemma {:induction false} FailureStands(a: seq<Item>, b: seq<Item>)
    requires Gather(a).Err?
    ensures Gather(a + b) == Gather(a)
    decreases |b|
  {
    hide Join;
    if b == [] {
      assert a + b == a;
    } else {
      var n := |b| - 1;
      FailureStands(a, b[..n]);
      assert (a + b)[..|a + b| - 1] == a + b[..n];
    }
  }

  lemma {:induction false} RowsExtend(rows: seq<Row>, k: nat, a: seq<Item>)
    requires k <= |rows| && Gather(a).Err? && a <= AllItems(rows[..k])
    ensures TargetsOf(rows) == Gather(a)
    decreases |rows| - k
  {
    hide Gather, ItemsOf;
    if k < |rows| {
      assert rows[..k + 1][..k] == rows[..k];
      RowsExtend(rows, k + 1, a);
    } else {
      assert rows[..k] == rows;
      var all := AllItems(rows);
      FailureStands(a, all[|a|..]);
      assert a + all[|a|..] == all;
    }
  }

  // ---- What the rows promise ----------------------------------------------------

  predicate HasEnvelope(item: Item) {
    item.Named? && item.target.metadata.wrapped != ""
  }

  ghost predicate AllHaveEnvelopes(items: seq<Item>) {
    forall i :: 0 <= i < |items| ==> HasEnvelope(items[i])
  }

  ghost predicate KeysDiffer(items: seq<Item>) {
    forall i, j :: 0 <= i < j < |items| && items[i].Named? && items[j].Named? ==> items[i].key != items[j].key
  }

  ghost predicate Recorded(items: seq<Item>, targets: Targets) {
    forall i :: 0 <= i < |items| ==>
      items[i].Named? && items[i].key in targets && targets[items[i].key] == items[i].target
  }

  ghost predicate Names(items: seq<Item>, key: Key) {
    exists i :: 0 <= i < |items| && items[i].Named? && items[i].key == key
  }

  lemma {:induction false} GatherRecords(items: seq<Item>)
    requires Gather(items).Ok?
    ensures Recorded(items, Gather(items).value)
  {
    if items != [] {
      GatherRecords(items[..|items| - 1]);
    }
  }

  lemma {:induction false} GatherOnlyNamed(items: seq<Item>, key: Key)
    requires Gather(items).Ok?
    ensures key in Gather(items).value ==> Names(items, key)
  {
    if items != [] {
      var n := |items| - 1;
      GatherOnlyNamed(items[..n], key);
      if Names(items[..n], key) {
        var i :| 0 <= i < n && items[..n][i].Named? && items[..n][i].key == key;
        assert items[i].key == key;
      }
    }
  }

  lemma {:induction false} GatherSucceeds(items: seq<Item>)
    requires AllHaveEnvelopes(items)
    requires KeysDiffer(items)
    ensures Gather(items).Ok?
  {
    if items != [] {
      var n := |items| - 1;
      var before := items[..n];
      GatherSucceeds(before);
      GatherOnlyNamed(before, items[n].key);
    }
  }

  lemma {:induction false} GatherDemands(items: seq<Item>)
    requires Gather(items).Ok?
    ensures AllHaveEnvelopes(items)
    ensures KeysDiffer(items)
  {
    if items != [] {
      var before := items[..|items| - 1];
      GatherDemands(before);
      GatherRecords(before);
    }
  }

  /** Nine fields, a numeric envelope version, and an envelope for each object it names. */
  predicate IsComplete(row: Row) {
    |row| == 9 && IsNumeral(row[5]) && row[3] != "" && (row[2] != "" ==> row[4] != "")
  }

  lemma RowComplete(row: Row)
    ensures IsComplete(row) <==> AllHaveEnvelopes(ItemsOf(row))
  {
    hide IsNumeral;
    var items := ItemsOf(row);
    if |row| != 9 || !IsNumeral(row[5]) {
      assert !HasEnvelope(items[0]);
    } else {
      assert items[0] == Original(row);
      assert row[2] != "" ==> |items| == 2 && items[1] == Thumb(row);
    }
  }

  lemma EnvelopesConcat(a: seq<Item>, b: seq<Item>)
    ensures AllHaveEnvelopes(a + b) <==> AllHaveEnvelopes(a) && AllHaveEnvelopes(b)
  {
    hide HasEnvelope;
    assert forall i :: 0 <= i < |a| ==> (a + b)[i] == a[i];
    assert forall i :: 0 <= i < |b| ==> (a + b)[|a| + i] == b[i];
  }

  lemma {:induction false} RowsComplete(rows: seq<Row>)
    ensures (forall i :: 0 <= i < |rows| ==> IsComplete(rows[i])) <==> AllHaveEnvelopes(AllItems(rows))
  {
    hide IsComplete, HasEnvelope, ItemsOf;
    if rows != [] {
      var n := |rows| - 1;
      RowsComplete(rows[..n]);
      RowComplete(rows[n]);
      EnvelopesConcat(AllItems(rows[..n]), ItemsOf(rows[n]));
      assert forall i :: 0 <= i < n ==> rows[..n][i] == rows[i];
    }
  }

  /** The rows are accepted exactly when every row is complete and no key belongs to two
      objects; and then each key carries its own row's target, and no other key any. */
  lemma RowsAccepted(rows: seq<Row>)
    ensures TargetsOf(rows).Ok? <==>
              (forall i :: 0 <= i < |rows| ==> IsComplete(rows[i])) && KeysDiffer(AllItems(rows))
    ensures TargetsOf(rows).Ok? ==> Recorded(AllItems(rows), TargetsOf(rows).value)
    ensures TargetsOf(rows).Ok? ==> forall key :: key in TargetsOf(rows).value ==> Names(AllItems(rows), key)
  {
    hide KeysDiffer, Recorded, Names, AllHaveEnvelopes, IsComplete, AllItems, Gather;
    var items := AllItems(rows);
    RowsComplete(rows);
    if Gather(items).Ok? {
      GatherDemands(items);
      GatherRecords(items);
      forall key | key in Gather(items).value
        ensures Names(items, key)
      {
        GatherOnlyNamed(items, key);
      }
    } else if AllHaveEnvelopes(items) && KeysDiffer(items) {
      GatherSucceeds(items);
    }
  }

  // ---- The versioned bucket -------------------------------------------------------

  type Body = int

  datatype Version =
    | Object(versionId: string, body: Body, metadata: Metadata, lockDays: Option<nat>)
    | DeleteMarker

  /** The versions of every key, oldest first. */
  type Histories = map<Key, seq<Version>>

  function History(h: Histories, key: Key): seq<Version> {
    if key in h then h[key] else []
  }

  predicate IsCurrent(h: Histories, key: Key) {
    var versions := History(h, key);
    versions != [] && versions[|versions| - 1].Object?
  }

  function Append(h: Histories, key: Key, v: Version): Histories {
    h[key := History(h, key) + [v]]
  }

  const RESERVED := "__probe/"

  predicate IsReserved(key: Key) {
    RESERVED <= key
  }

  // ---- One run ------------------------------------------------------------------------

  datatype File = File(key: Key, body: Body)

  /** The dump, the configuration, and how the storage service answers: `replies` holds the
      version id each PUT returns, "" for none, and a PUT of any other key raises, as does a
      DELETE of a key in `refused`. */
  datatype Site = Site(
    dump: seq<File>,
    prefix: Key,
    lockDays: nat,
    replies: map<Key, string>,
    refused: set<Key>)

  /** A directory holds each path once. */
  ghost predicate IsDirectory(dump: seq<File>) {
    forall i, j :: 0 <= i < j < |dump| ==> dump[i].key != dump[j].key
  }

  datatype Job = Job(site: Site, targets: Targets) {
    predicate Ships(file: File) {
      !IsReserved(file.key) && file.key in targets
    }

    function ObjectKey(file: File): Key {
      site.prefix + file.key
    }

    function LockParams(target: Target): Option<nat> {
      if target.metadata.invoiceNumber.None? || site.lockDays <= 0 then None else Some(site.lockDays)
    }

    function Version(file: File): Version
      requires Ships(file)
    {
      var target := targets[file.key];
      Object(if file.key in site.replies then site.replies[file.key] else "", file.body,
        target.metadata, LockParams(target))
    }

    ghost predicate IsShipped(n: nat, key: Key)
      requires n <= |site.dump|
    {
      exists i :: 0 <= i < n && Ships(site.dump[i]) && ObjectKey(site.dump[i]) == key
    }

    /** The first `n` files are shipped: one new version each, nothing else changed. */
    ghost predicate Shipped(n: nat, was: Histories, now: Histories)
      requires n <= |site.dump|
    {
      && (forall i :: 0 <= i < n && Ships(site.dump[i]) ==>
            History(now, ObjectKey(site.dump[i])) == History(was, ObjectKey(site.dump[i])) + [Version(site.dump[i])])
      && (forall key :: !IsShipped(n, key) ==> History(now, key) == History(was, key))
    }

    /** A key the mirror owns and the sync no longer has. */
    predicate Owns(key: Key) {
      site.prefix <= key && !IsReserved(key[|site.prefix|..])
    }

    ghost predicate IsStale(was: Histories, key: Key) {
      Owns(key) && IsCurrent(was, key) && !IsShipped(|site.dump|, key)
    }

    /** A finished run: shipped files gain their version, stale keys a delete marker. */
    ghost predicate Mirrored(was: Histories, now: Histories) {
      && (forall i :: 0 <= i < |site.dump| && Ships(site.dump[i]) ==>
            History(now, ObjectKey(site.dump[i])) == History(was, ObjectKey(site.dump[i])) + [Version(site.dump[i])])
      && (forall key :: IsStale(was, key) ==> History(now, key) == History(was, key) + [DeleteMarker])
      && (forall key :: !IsStale(was, key) && !IsShipped(|site.dump|, key) ==> History(now, key) == History(was, key))
    }

    /** No version is ever destroyed, and keys the mirror does not own keep their history. */
    ghost predicate Kept(was: Histories, now: Histories) {
      && (forall key :: History(was, key) <= History(now, key))
      && (forall key :: !Owns(key) ==> History(now, key) == History(was, key))
    }

    /** File `i` owes its row's column the version id its PUT returned. */
    predicate Owes(i: nat, id: string, column: Column)
      requires i < |site.dump|
    {
      var file := site.dump[i];
      Ships(file) && targets[file.key].hadVersion && targets[file.key].id == id && targets[file.key].column == column
    }

    ghost predicate Recorded(n: nat, updates: Updates)
      requires n <= |site.dump|
    {
      && (forall i, id, column :: 0 <= i < n && Owes(i, id, column) ==> HasUpdate(updates, id, column))
      && (forall id, column :: HasUpdate(updates, id, column) ==>
            exists i :: 0 <= i < n && Owes(i, id, column) && IsVersion(this, i, updates[id][column]))
    }

    /** The service stores the first `n` files and names every version a row waits for. */
    ghost predicate Answered(n: nat)
      requires n <= |site.dump|
    {
      forall i :: 0 <= i < n && Ships(site.dump[i]) ==> IsAnswered(site.dump[i])
    }

    /** Every call the run makes succeeds. */
    ghost predicate Completes(was: Histories) {
      && Answered(|site.dump|)
      && forall key :: IsStale(was, key) ==> key !in site.refused
    }

    predicate IsAnswered(file: File)
      requires Ships(file)
    {
      file.key in site.replies && (targets[file.key].hadVersion ==> site.replies[file.key] != "")
    }
  }

  type Updates = map<string, map<Column, string>>

  predicate IsVersion(job: Job, i: nat, versionId: string)
    requires i < |job.site.dump| && job.Ships(job.site.dump[i])
  {
    var version := job.Version(job.site.dump[i]);
    version.Object? && version.versionId == versionId
  }

  predicate HasUpdate(updates: Updates, id: string, column: Column) {
    id in updates && column in updates[id]
  }

  function WithUpdate(updates: Updates, id: string, column: Column, versionId: string): Updates {
    updates[id := (if id in updates then updates[id] else map[])[column := versionId]]
  }

  datatype Outcome = BadRow(error: RowError) | Aborted | Done(updates: Updates)

  // ---- Keys under the prefix ------------------------------------------------------------

  lemma SamePrefix(prefix: Key, a: Key, b: Key)
    ensures prefix + a == prefix + b <==> a == b
    ensures prefix <= prefix + a && (prefix + a)[|prefix|..] == a
  {
    assert (prefix + a)[|prefix|..] == a;
    assert (prefix + b)[|prefix|..] == b;
  }

  lemma ShippedKeysDiffer(job: Job, n: nat)
    requires n < |job.site.dump| && IsDirectory(job.site.dump)
    ensures !job.IsShipped(n, job.ObjectKey(job.site.dump[n]))
  {
    hide IsReserved;
    if job.IsShipped(n, job.ObjectKey(job.site.dump[n])) {
      var i :| && 0 <= i < n && job.Ships(job.site.dump[i])
               && job.ObjectKey(job.site.dump[i]) == job.ObjectKey(job.site.dump[n]);
      SamePrefix(job.site.prefix, job.site.dump[i].key, job.site.dump[n].key);
    }
  }

  lemma AppendTouchesOne(h: Histories, key: Key, v: Version)
    ensures History(Append(h, key, v), key) == History(h, key) + [v]
    ensures forall k :: k != key ==> History(Append(h, key, v), k) == History(h, k)
  {
  }

  lemma ShipOne(job: Job, n: nat, was: Histories, now: Histories)
    requires n < |job.site.dump| && IsDirectory(job.site.dump)
    requires job.Shipped(n, was, now) && job.Ships(job.site.dump[n])
    ensures job.Shipped(n + 1, was, Append(now, job.ObjectKey(job.site.dump[n]), job.Version(job.site.dump[n])))
  {
    hide IsReserved, Job.LockParams, Job.ObjectKey, Job.Version, History, Append;
    var file := job.site.dump[n];
    var key := job.ObjectKey(file);
    AppendTouchesOne(now, key, job.Version(file));
    ShippedKeysDiffer(job, n);
    forall i | 0 <= i < n && job.Ships(job.site.dump[i])
      ensures job.ObjectKey(job.site.dump[i]) != key
    {
      assert job.IsShipped(n, job.ObjectKey(job.site.dump[i]));
    }
  }

  lemma SkipOne(job: Job, n: nat, was: Histories, now: Histories)
    requires n < |job.site.dump| && job.Shipped(n, was, now) && !job.Ships(job.site.dump[n])
    ensures job.Shipped(n + 1, was, now)
  {
    assert forall key :: job.IsShipped(n, key) ==> job.IsShipped(n + 1, key);
  }

  lemma ShippedIsKept(job: Job, n: nat, was: Histories, now: Histories)
    requires n <= |job.site.dump| && job.Shipped(n, was, now)
    ensures job.Kept(was, now)
  {
    forall key
      ensures History(was, key) <= History(now, key)
      ensures !job.Owns(key) ==> History(now, key) == History(was, key)
    {
      if job.IsShipped(n, key) {
        ShippedIsOwned(job, n, key);
      }
    }
  }

  lemma ShippedIsOwned(job: Job, n: nat, key: Key)
    requires n <= |job.site.dump| && job.IsShipped(n, key)
    ensures job.Owns(key)
  {
    hide IsReserved;
    var i :| 0 <= i < n && job.Ships(job.site.dump[i]) && job.ObjectKey(job.site.dump[i]) == key;
    SamePrefix(job.site.prefix, job.site.dump[i].key, "");
  }

  // ---- Keeping the books ------------------------------------------------------------------

  /** `written` names, under the prefix, the keys shipped so far. */
  ghost predicate WrittenAre(job: Job, n: nat, written: set<Key>)
    requires n <= |job.site.dump|
  {
    forall key :: key in written <==> job.IsShipped(n, job.site.prefix + key)
  }

  lemma WriteOne(job: Job, n: nat, written: set<Key>)
    requires n < |job.site.dump| && WrittenAre(job, n, written)
    ensures WrittenAre(job, n + 1, if job.Ships(job.site.dump[n]) then written + {job.site.dump[n].key} else written)
  {
    hide IsReserved;
    var file := job.site.dump[n];
    forall key
      ensures job.IsShipped(n + 1, job.site.prefix + key) <==>
              job.IsShipped(n, job.site.prefix + key) || (job.Ships(file) && key == file.key)
    {
      SamePrefix(job.site.prefix, key, file.key);
      assert job.Ships(file) && key == file.key ==> job.ObjectKey(job.site.dump[n]) == job.site.prefix + key;
    }
  }

  lemma OweOne(job: Job, n: nat, updates: Updates)
    requires n < |job.site.dump| && job.Recorded(n, updates) && job.Ships(job.site.dump[n])
    requires job.targets[job.site.dump[n].key].hadVersion
    ensures
      var target := job.targets[job.site.dump[n].key];
      job.Recorded(n + 1, WithUpdate(updates, target.id, target.column, job.Version(job.site.dump[n]).versionId))
  {
    var target := job.targets[job.site.dump[n].key];
    var versionId := job.Version(job.site.dump[n]).versionId;
    var after := WithUpdate(updates, target.id, target.column, versionId);
    assert IsVersion(job, n, versionId) && job.Owes(n, target.id, target.column);
    hide IsReserved, Job.Version, IsVersion;
    forall id, column | HasUpdate(after, id, column)
      ensures exists i :: 0 <= i < n + 1 && job.Owes(i, id, column) && IsVersion(job, i, after[id][column])
    {
      if id == target.id && column == target.column {
        assert after[id][column] == versionId;
      } else {
        assert HasUpdate(updates, id, column) && updates[id][column] == after[id][column];
      }
    }
  }

  lemma OweNothing(job: Job, n: nat, updates: Updates)
    requires n < |job.site.dump| && job.Recorded(n, updates)
    requires job.Ships(job.site.dump[n]) ==> !job.targets[job.site.dump[n].key].hadVersion
    ensures job.Recorded(n + 1, updates)
  {
    hide IsReserved;
  }

  // ---- The bucket in place ------------------------------------------------------------------

  class Bucket {
    var histories: Histories

    /** The PUT loop. */
    method Ship(job: Job) returns (ok: bool, written: set<Key>, updates: Updates)
      requires IsDirectory(job.site.dump)
      modifies this
      ensures job.Kept(old(histories), histories)
      ensures ok <==> job.Answered(|job.site.dump|)
      ensures ok ==> job.Shipped(|job.site.dump|, old(histories), histories)
      ensures ok ==> WrittenAre(job, |job.site.dump|, written)
      ensures ok ==> job.Recorded(|job.site.dump|, updates)
    {
      hide IsReserved, Job.Shipped, Job.Kept, WrittenAre, Job.Recorded, WithUpdate;
      hide Job.LockParams, Job.ObjectKey, Append, IsDirectory;
      ok, written, updates := true, {}, map[];
      StartShipping(job, histories);
      for n := 0 to |job.site.dump|
        invariant job.Shipped(n, old(histories), histories)
        invariant WrittenAre(job, n, written)
        invariant job.Recorded(n, updates)
        invariant job.Answered(n)
      {
        var file := job.site.dump[n];
        WriteOne(job, n, written);
        if !job.Ships(file) {
          SkipOne(job, n, old(histories), histories);
          OweNothing(job, n, updates);
        } else {
          if file.key !in job.site.replies {
            ok := false;
            ShippedIsKept(job, n, old(histories), histories);
            return;
          }
          ShipOne(job, n, old(histories), histories);
          histories := Append(histories, job.ObjectKey(file), job.Version(file));
          written := written + {file.key};
          var target := job.targets[file.key];
          if target.hadVersion {
            var versionId := job.site.replies[file.key];
            if versionId == "" {
              ok := false;
              ShippedIsKept(job, n + 1, old(histories), histories);
              return;
            }
            OweOne(job, n, updates);
            updates := WithUpdate(updates, target.id, target.column, versionId);
          } else {
            OweNothing(job, n, updates);
          }
        }
      }
      ShippedIsKept(job, |job.site.dump|, old(histories), histories);
    }

    /** The DELETE loop, over the current keys under the prefix as the listing returned them. */
    method Clean(job: Job, written: set<Key>, ghost was: Histories) returns (ok: bool)
      requires job.Shipped(|job.site.dump|, was, histories)
      requires WrittenAre(job, |job.site.dump|, written)
      modifies this
      ensures job.Kept(was, histories)
      ensures ok <==> forall key :: job.IsStale(was, key) ==> key !in job.site.refused
      ensures ok ==> job.Mirrored(was, histories)
    {
      hide IsReserved, Job.IsShipped, Job.Shipped, Job.Kept, WrittenAre, Job.Mirrored, Append;
      ghost var mid := histories;
      var listing := set key | key in histories && job.site.prefix <= key && IsCurrent(histories, key);
      var todo := listing;
      ghost var removed: set<Key> := {};
      ListedAreStale(job, was, mid, written);
      while todo != {}
        invariant todo <= listing
        invariant forall key :: key in removed <==> key in listing && key !in todo && IsToGo(job, written, key)
        invariant Cleaned(mid, histories, removed)
        invariant removed !! job.site.refused
      {
        var key :| key in todo;
        todo := todo - {key};
        if IsToGo(job, written, key) {
          if key in job.site.refused {
            ok := false;
            CleanedIsKept(job, was, mid, histories, removed);
            return;
          }
          CleanOne(mid, histories, removed, key);
          histories := Append(histories, key, DeleteMarker);
          removed := removed + {key};
        }
      }
      ok := true;
      CleanedIsKept(job, was, mid, histories, removed);
      CleanedIsMirrored(job, was, mid, histories, removed);
    }

    /** `main`: nothing is written before every row is read. */
    method Restore(rows: seq<Row>, site: Site) returns (outcome: Outcome)
      requires IsDirectory(site.dump)
      modifies this
      ensures TargetsOf(rows).Err? ==> outcome == BadRow(TargetsOf(rows).error) && histories == old(histories)
      ensures TargetsOf(rows).Ok? ==> JobOf(rows, site).Kept(old(histories), histories)
      ensures TargetsOf(rows).Ok? ==>
                (outcome.Done? <==> JobOf(rows, site).Completes(old(histories))) && !outcome.BadRow?
      ensures TargetsOf(rows).Ok? && outcome.Done? ==>
                && JobOf(rows, site).Mirrored(old(histories), histories)
                && JobOf(rows, site).Recorded(|site.dump|, outcome.updates)
    {
      hide Job.Kept, Job.Mirrored, Job.Recorded, Job.Shipped, Job.Answered, Job.IsStale, TargetsOf, WrittenAre;
      var read := ReadTargets(rows);
      if read.Err? {
        return BadRow(read.error);
      }
      var job := Job(site, read.value);
      ghost var was := histories;
      var ok, written, updates := Ship(job);
      if !ok {
        return Aborted;
      }
      ok := Clean(job, written, was);
      outcome := if ok then Done(updates) else Aborted;
    }
  }

  function JobOf(rows: seq<Row>, site: Site): Job
    requires TargetsOf(rows).Ok?
  {
    Job(site, TargetsOf(rows).value)
  }

  /** A listed key the run neither wrote nor leaves to the deploys. */
  predicate IsToGo(job: Job, written: set<Key>, key: Key)
    requires job.site.prefix <= key
  {
    key[|job.site.prefix|..] !in written && !IsReserved(key[|job.site.prefix|..])
  }

  ghost predicate Cleaned(mid: Histories, now: Histories, removed: set<Key>) {
    && (forall key :: key in removed ==> History(now, key) == History(mid, key) + [DeleteMarker])
    && (forall key :: key !in removed ==> History(now, key) == History(mid, key))
  }

  lemma CleanOne(mid: Histories, now: Histories, removed: set<Key>, key: Key)
    requires Cleaned(mid, now, removed) && key !in removed
    ensures Cleaned(mid, Append(now, key, DeleteMarker), removed + {key})
  {
  }

  lemma ListedAreStale(job: Job, was: Histories, mid: Histories, written: set<Key>)
    requires job.Shipped(|job.site.dump|, was, mid) && WrittenAre(job, |job.site.dump|, written)
    ensures forall key :: job.IsStale(was, key) <==>
              key in mid && job.site.prefix <= key && IsCurrent(mid, key) && IsToGo(job, written, key)
  {
    hide IsReserved, Job.IsShipped;
    forall key | job.site.prefix <= key
      ensures key[|job.site.prefix|..] in written <==> job.IsShipped(|job.site.dump|, key)
    {
      assert job.site.prefix + key[|job.site.prefix|..] == key;
    }
  }

  lemma CleanedIsKept(job: Job, was: Histories, mid: Histories, now: Histories, removed: set<Key>)
    requires job.Shipped(|job.site.dump|, was, mid) && Cleaned(mid, now, removed)
    requires forall key :: key in removed ==> job.IsStale(was, key)
    ensures job.Kept(was, now)
  {
    ShippedIsKept(job, |job.site.dump|, was, mid);
    hide IsReserved, Job.Shipped, Job.IsShipped, History;
    assert job.Kept(was, mid);
    forall key
      ensures History(was, key) <= History(now, key)
      ensures !job.Owns(key) ==> History(now, key) == History(was, key)
    {
      assert History(was, key) <= History(mid, key);
    }
  }

  lemma CleanedIsMirrored(job: Job, was: Histories, mid: Histories, now: Histories, removed: set<Key>)
    requires job.Shipped(|job.site.dump|, was, mid) && Cleaned(mid, now, removed)
    requires forall key :: key in removed <==> job.IsStale(was, key)
    ensures job.Mirrored(was, now)
  {
    hide IsReserved, History, Job.Owns, IsCurrent;
    forall i | 0 <= i < |job.site.dump| && job.Ships(job.site.dump[i])
      ensures job.IsShipped(|job.site.dump|, job.ObjectKey(job.site.dump[i]))
    {
    }
  }

  lemma StartShipping(job: Job, h: Histories)
    ensures job.Shipped(0, h, h) && WrittenAre(job, 0, {}) && job.Recorded(0, map[])
  {
  }

  // ---- What a finished run leaves -------------------------------------------------------------

  /** What a reader of the key gets. */
  function Visible(h: Histories, key: Key): Option<Version> {
    if IsCurrent(h, key) then Some(History(h, key)[|History(h, key)| - 1]) else None
  }

  /** Under the prefix, exactly the shipped keys are current, plus the reserved ones that were. */
  lemma MirrorLeaves(job: Job, was: Histories, now: Histories, key: Key)
    requires job.Mirrored(was, now) && job.site.prefix <= key
    ensures IsCurrent(now, key) <==>
              job.IsShipped(|job.site.dump|, key) || (IsReserved(key[|job.site.prefix|..]) && IsCurrent(was, key))
  {
    hide IsReserved;
    if job.IsShipped(|job.site.dump|, key) {
      var i :| 0 <= i < |job.site.dump| && job.Ships(job.site.dump[i]) && job.ObjectKey(job.site.dump[i]) == key;
      assert History(now, key) == History(was, key) + [job.Version(job.site.dump[i])];
    } else if job.IsStale(was, key) {
      assert History(now, key) == History(was, key) + [DeleteMarker];
    } else {
      assert History(now, key) == History(was, key);
    }
  }

  /** What the mirror owns shows the same after any finished run over the same dump and rows,
      whatever the bucket held: an aborted run heals on the next, and a repeat changes nothing
      a reader sees. */
  lemma MirrorForgetsThePast(job: Job, was: Histories, now: Histories, was': Histories, now': Histories, key: Key)
    requires job.Mirrored(was, now) && job.Mirrored(was', now') && job.Owns(key)
    ensures Visible(now, key) == Visible(now', key)
  {
    MirrorLeaves(job, was, now, key);
    MirrorLeaves(job, was', now', key);
    hide IsReserved;
    if job.IsShipped(|job.site.dump|, key) {
      var i :| 0 <= i < |job.site.dump| && job.Ships(job.site.dump[i]) && job.ObjectKey(job.site.dump[i]) == key;
      ShippedIsVisible(job, was, now, i);
      ShippedIsVisible(job, was', now', i);
    }
  }

  lemma ShippedIsVisible(job: Job, was: Histories, now: Histories, i: nat)
    requires job.Mirrored(was, now) && i < |job.site.dump| && job.Ships(job.site.dump[i])
    ensures Visible(now, job.ObjectKey(job.site.dump[i])) == Some(job.Version(job.site.dump[i]))
  {
    hide IsReserved, Job.ObjectKey;
    assert History(now, job.ObjectKey(job.site.dump[i])) ==
           History(was, job.ObjectKey(job.site.dump[i])) + [job.Version(job.site.dump[i])];
  }

  /** A row's column is updated exactly when its file was shipped and the column was set, and
      each update names the version a reader of that file's key now gets. */
  lemma UpdatesPointAtCurrent(job: Job, was: Histories, now: Histories, updates: Updates, id: string, column: Column)
    requires job.Mirrored(was, now) && job.Recorded(|job.site.dump|, updates)
    ensures HasUpdate(updates, id, column) <==> exists i :: 0 <= i < |job.site.dump| && job.Owes(i, id, column)
    ensures HasUpdate(updates, id, column) ==>
              exists i :: 0 <= i < |job.site.dump| && job.Owes(i, id, column) && IsAt(job, now, i, updates[id][column])
  {
    hide IsReserved, Job.Mirrored, Job.Version, Visible;
    if HasUpdate(updates, id, column) {
      var i :| 0 <= i < |job.site.dump| && job.Owes(i, id, column) && IsVersion(job, i, updates[id][column]);
      ShippedIsVisible(job, was, now, i);
      assert IsAt(job, now, i, updates[id][column]);
    }
  }

  predicate IsAt(job: Job, now: Histories, i: nat, versionId: string)
    requires i < |job.site.dump|
  {
    var seen := Visible(now, job.ObjectKey(job.site.dump[i]));
    seen.Some? && seen.value.Object? && seen.value.versionId == versionId
  }

  predicate SameColumn(a: Target, b: Target) {
    a.id == b.id && a.column == b.column
  }

  /** No two objects share a row's column. */
  ghost predicate ColumnsAreOwn(targets: Targets) {
    forall a, b :: a in targets && b in targets && SameColumn(targets[a], targets[b]) ==> a == b
  }

  /** With one object per column, the update is that object's version and no other's. */
  lemma UpdateIsTheColumnsOwn(job: Job, updates: Updates, i: nat, id: string, column: Column)
    requires IsDirectory(job.site.dump) && ColumnsAreOwn(job.targets) && job.Recorded(|job.site.dump|, updates)
    requires i < |job.site.dump| && job.Owes(i, id, column)
    ensures HasUpdate(updates, id, column) && updates[id][column] == job.Version(job.site.dump[i]).versionId
  {
    hide IsReserved;
    assert HasUpdate(updates, id, column);
    var j :| 0 <= j < |job.site.dump| && job.Owes(j, id, column) && IsVersion(job, j, updates[id][column]);
    assert job.site.dump[i].key == job.site.dump[j].key;
  }

  ghost predicate IsObjectOf(row: Row, item: Item) {
    |row| == 9 && (item == Original(row) || (row[2] != "" && item == Thumb(row)))
  }

  lemma {:induction false} ItemFromRow(rows: seq<Row>, i: nat)
    requires i < |AllItems(rows)| && AllItems(rows)[i].Named?
    ensures exists r :: 0 <= r < |rows| && IsObjectOf(rows[r], AllItems(rows)[i])
  {
    var n := |rows| - 1;
    var before := AllItems(rows[..n]);
    hide IsNumeral;
    if i < |before| {
      ItemFromRow(rows[..n], i);
      var r :| 0 <= r < n && IsObjectOf(rows[..n][r], before[i]);
      assert IsObjectOf(rows[r], AllItems(rows)[i]);
    } else {
      assert IsObjectOf(rows[n], AllItems(rows)[i]);
    }
  }

  /** Each key's target is that of a row naming the key, as its original or its thumbnail. */
  lemma TargetFromRow(rows: seq<Row>, key: Key)
    requires TargetsOf(rows).Ok? && key in TargetsOf(rows).value
    ensures exists r :: 0 <= r < |rows| && IsObjectOf(rows[r], Named(key, TargetsOf(rows).value[key]))
  {
    RowsAccepted(rows);
    hide IsNumeral, AllItems, Gather, IsComplete, KeysDiffer;
    var items := AllItems(rows);
    assert Names(items, key);
    var i :| 0 <= i < |items| && items[i].Named? && items[i].key == key;
    ItemFromRow(rows, i);
    assert items[i] == Named(key, TargetsOf(rows).value[key]);
  }

  lemma {:induction false} RowIsItem(rows: seq<Row>, r: nat, k: nat)
    requires r < |rows| && k < |ItemsOf(rows[r])|
    ensures exists i :: 0 <= i < |AllItems(rows)| && AllItems(rows)[i] == ItemsOf(rows[r])[k]
  {
    var n := |rows| - 1;
    var before, last := AllItems(rows[..n]), ItemsOf(rows[n]);
    assert AllItems(rows) == before + last;
    hide ItemsOf, AllItems;
    if r < n {
      RowIsItem(rows[..n], r, k);
      var i :| 0 <= i < |before| && before[i] == ItemsOf(rows[..n][r])[k];
      assert AllItems(rows)[i] == ItemsOf(rows[r])[k];
    } else {
      assert AllItems(rows)[|before| + k] == last[k];
    }
  }

  lemma ItemIsTarget(rows: seq<Row>, r: nat, k: nat)
    requires TargetsOf(rows).Ok? && r < |rows| && k < |ItemsOf(rows[r])|
    ensures var item, targets := ItemsOf(rows[r])[k], TargetsOf(rows).value;
            item.Named? && item.key in targets && targets[item.key] == item.target
  {
    RowsAccepted(rows);
    RowIsItem(rows, r, k);
    hide AllItems, ItemsOf, TargetsOf, IsComplete, KeysDiffer, Names;
    var i :| 0 <= i < |AllItems(rows)| && AllItems(rows)[i] == ItemsOf(rows[r])[k];
    assert AllItems(rows)[i].Named?;
  }

  /** The row's original is an invoice PDF. */
  predicate IsInvoiceRow(row: Row, key: Key) {
    |row| == 9 && row[1] == key && row[6] != ""
  }

  /** Under a positive setting exactly the invoice PDFs are locked, never a thumbnail; under
      zero days nothing is. */
  lemma ExactlyInvoicesAreLocked(rows: seq<Row>, site: Site, file: File)
    requires TargetsOf(rows).Ok? && JobOf(rows, site).Ships(file)
    ensures JobOf(rows, site).Version(file).lockDays ==
              if site.lockDays > 0 && (exists r :: 0 <= r < |rows| && IsInvoiceRow(rows[r], file.key))
              then Some(site.lockDays) else None
  {
    var target := TargetsOf(rows).value[file.key];
    RowsAccepted(rows);
    TargetFromRow(rows, file.key);
    var q :| 0 <= q < |rows| && IsObjectOf(rows[q], Named(file.key, target));
    if target.metadata.invoiceNumber.Some? {
      assert IsInvoiceRow(rows[q], file.key);
    }
    if r :| 0 <= r < |rows| && IsInvoiceRow(rows[r], file.key) {
      assert IsComplete(rows[r]);
      ItemIsTarget(rows, r, 0);
      hide Gather, KeysDiffer, IsReserved;
      assert target == ItemsOf(rows[r])[0].target;
    }
  }

  lemma ObjectOfRow(row: Row, item: Item)
    requires IsObjectOf(row, item)
    ensures item.Named? && |row| == 9 && row[0] == item.target.id
    ensures item.key == if item.target.column.VersionId? then row[1] else row[2]
  {
  }

  /** Rows with ids of their own give every column to one object. */
  lemma DistinctRowsOwnColumns(rows: seq<Row>)
    requires TargetsOf(rows).Ok?
    requires forall i, j :: 0 <= i < j < |rows| && rows[i] != [] && rows[j] != [] ==> rows[i][0] != rows[j][0]
    ensures ColumnsAreOwn(TargetsOf(rows).value)
  {
    var targets := TargetsOf(rows).value;
    hide TargetsOf;
    forall a, b | a in targets && b in targets && SameColumn(targets[a], targets[b])
      ensures a == b
    {
      TargetFromRow(rows, a);
      TargetFromRow(rows, b);
      hide IsObjectOf;
      var r :| 0 <= r < |rows| && IsObjectOf(rows[r], Named(a, targets[a]));
      var q :| 0 <= q < |rows| && IsObjectOf(rows[q], Named(b, targets[b]));
      ObjectOfRow(rows[r], Named(a, targets[a]));
      ObjectOfRow(rows[q], Named(b, targets[b]));
      assert r == q;
    }
  }

  // ---- Which rows are refused ----------------------------------------------------------------

  lemma NumeralMeaning(s: string)
    ensures IsNumeral(s) <==> s != "" && forall i :: 0 <= i < |s| ==> s[i] in "0123456789"
  {
    var digits := "0123456789";
    forall c: char
      ensures c in digits <==> '0' <= c <= '9'
    {
      if '0' <= c <= '9' {
        var k := c as int - '0' as int;
        assert digits[k] == c;
      }
    }
  }

  /** The first row at fault names its fault: its width, its envelope version, the envelope its
      original lacks, or the key that an earlier object already holds. */
  lemma FirstFaultNamed(rows: seq<Row>, r: nat)
    requires r < |rows| && TargetsOf(rows[..r]).Ok?
    ensures |rows[r]| != 9 ==> TargetsOf(rows) == Err(Malformed)
    ensures |rows[r]| == 9 && !IsNumeral(rows[r][5]) ==> TargetsOf(rows) == Err(BadDekVersion)
    ensures |rows[r]| == 9 && IsNumeral(rows[r][5]) && rows[r][3] == "" ==>
              TargetsOf(rows) == Err(NoEnvelope(rows[r][1]))
    ensures |rows[r]| == 9 && IsNumeral(rows[r][5]) && rows[r][3] != "" && rows[r][1] in TargetsOf(rows[..r]).value ==>
              TargetsOf(rows) == Err(TwoRows(rows[r][1]))
  {
    var before, first := AllItems(rows[..r]), ItemsOf(rows[r])[0];
    var upTo := before + [first];
    assert upTo[..|upTo| - 1] == before;
    assert Gather(upTo) == Join(Gather(before).value, first);
    assert rows[..r + 1][..r] == rows[..r];
    assert AllItems(rows[..r + 1]) == before + ItemsOf(rows[r]);
    assert upTo <= AllItems(rows[..r + 1]) by {
      assert [first] <= ItemsOf(rows[r]);
    }
    hide AllItems, IsNumeral;
    if Gather(upTo).Err? {
      RowsExtend(rows, r + 1, upTo);
    }
  }

  // ---- In the rows' own fields ------------------------------------------------------------

  /** An accepted row in its fields: the original at column 1 carries envelope 3 and the invoice
      number in 6, the thumbnail at column 2, if any, envelope 4 and no number, both the
      envelope version in 5; a version was set where 7, or 8 for the thumbnail, is filled. */
  lemma TargetsOfRow(rows: seq<Row>, r: nat)
    requires TargetsOf(rows).Ok? && r < |rows|
    ensures |rows[r]| == 9
    ensures var row, targets := rows[r], TargetsOf(rows).value;
            row[1] in targets
            && targets[row[1]] == Target(row[0], VersionId,
                                    Metadata(row[3], row[5], if row[6] == "" then None else Some(row[6])), row[7] != "")
    ensures var row, targets := rows[r], TargetsOf(rows).value;
            row[2] != "" ==>
              row[2] in targets
              && targets[row[2]] == Target(row[0], ThumbVersionId, Metadata(row[4], row[5], None), row[8] != "")
  {
    RowsAccepted(rows);
    assert IsComplete(rows[r]);
    var row := rows[r];
    ItemIsTarget(rows, r, 0);
    if row[2] != "" {
      ItemIsTarget(rows, r, 1);
    }
    hide TargetsOf, AllItems, KeysDiffer, Recorded, Names;
  }

  /** The row names the key, as its original or its thumbnail. */
  predicate NamesKey(row: Row, key: Key) {
    |row| == 9 && (row[1] == key || (row[2] != "" && row[2] == key))
  }

  lemma TargetsAreNamed(rows: seq<Row>, key: Key)
    requires TargetsOf(rows).Ok?
    ensures key in TargetsOf(rows).value <==> exists r :: 0 <= r < |rows| && NamesKey(rows[r], key)
  {
    if key in TargetsOf(rows).value {
      TargetFromRow(rows, key);
      var r :| 0 <= r < |rows| && IsObjectOf(rows[r], Named(key, TargetsOf(rows).value[key]));
      assert NamesKey(rows[r], key);
    }
    if r :| 0 <= r < |rows| && NamesKey(rows[r], key) {
      TargetsOfRow(rows, r);
    }
    hide TargetsOf;
  }

  predicate IsDumped(site: Site, key: Key) {
    exists i :: 0 <= i < |site.dump| && site.dump[i].key == key
  }

  /** Which files ship: those with a row, outside the deploys' own namespace. */
  lemma ShipsMeaning(rows: seq<Row>, site: Site, file: File)
    requires TargetsOf(rows).Ok?
    ensures JobOf(rows, site).Ships(file) <==>
              !("__probe/" <= file.key) && exists r :: 0 <= r < |rows| && NamesKey(rows[r], file.key)
  {
    TargetsAreNamed(rows, file.key);
    hide TargetsOf, NamesKey;
  }

  /** After a finished run a key under the prefix is current exactly if it was dumped and a row
      names it; in the deploys' namespace exactly if it was. */
  lemma CurrentByRows(rows: seq<Row>, site: Site, was: Histories, now: Histories, key: Key)
    requires TargetsOf(rows).Ok? && JobOf(rows, site).Mirrored(was, now)
    ensures IsCurrent(now, site.prefix + key) <==>
              if "__probe/" <= key then IsCurrent(was, site.prefix + key)
              else IsDumped(site, key) && exists r :: 0 <= r < |rows| && NamesKey(rows[r], key)
  {
    var job := JobOf(rows, site);
    SamePrefix(site.prefix, key, "");
    MirrorLeaves(job, was, now, site.prefix + key);
    ShippedByRows(rows, site, key);
    hide TargetsOf, NamesKey, IsCurrent, Job.IsShipped, Job.Mirrored;
  }

  lemma ShippedByRows(rows: seq<Row>, site: Site, key: Key)
    requires TargetsOf(rows).Ok?
    ensures JobOf(rows, site).IsShipped(|site.dump|, site.prefix + key) <==>
              !("__probe/" <= key) && IsDumped(site, key) && exists r :: 0 <= r < |rows| && NamesKey(rows[r], key)
  {
    var job := JobOf(rows, site);
    hide TargetsOf, NamesKey, IsReserved;
    forall file | file in site.dump
      ensures job.ObjectKey(file) == site.prefix + key <==> file.key == key
      ensures file.key == key && job.Ships(file) <==>
                file.key == key && !("__probe/" <= key) && exists r :: 0 <= r < |rows| && NamesKey(rows[r], key)
    {
      SamePrefix(site.prefix, file.key, key);
      ShipsMeaning(rows, site, file);
    }
    if IsDumped(site, key) {
      var i :| 0 <= i < |site.dump| && site.dump[i].key == key;
      assert site.dump[i] in site.dump;
    }
  }

  /** What a finished run adds for a row's original, in the row's fields: the dumped body under
      the reply's version id, locked if it is an invoice and the setting is positive. */
  lemma OriginalInBucket(rows: seq<Row>, site: Site, was: Histories, now: Histories, r: nat, i: nat)
    requires TargetsOf(rows).Ok? && JobOf(rows, site).Mirrored(was, now) && JobOf(rows, site).Completes(was)
    requires r < |rows| && |rows[r]| == 9 && i < |site.dump| && site.dump[i].key == rows[r][1]
    requires !("__probe/" <= rows[r][1])
    ensures var row := rows[r];
            var number := if row[6] == "" then None else Some(row[6]);
            var lock := if row[6] == "" || site.lockDays == 0 then None else Some(site.lockDays);
            && row[1] in site.replies
            && History(now, site.prefix + row[1]) == History(was, site.prefix + row[1])
                 + [Object(site.replies[row[1]], site.dump[i].body, Metadata(row[3], row[5], number), lock)]
  {
    TargetsOfRow(rows, r);
    hide TargetsOf, History;
    assert JobOf(rows, site).Ships(site.dump[i]);
    assert JobOf(rows, site).IsAnswered(site.dump[i]);
  }

  /** The same for its thumbnail, which is never locked. */
  lemma ThumbInBucket(rows: seq<Row>, site: Site, was: Histories, now: Histories, r: nat, i: nat)
    requires TargetsOf(rows).Ok? && JobOf(rows, site).Mirrored(was, now) && JobOf(rows, site).Completes(was)
    requires r < |rows| && |rows[r]| == 9 && rows[r][2] != "" && i < |site.dump| && site.dump[i].key == rows[r][2]
    requires !("__probe/" <= rows[r][2])
    ensures var row := rows[r];
            && row[2] in site.replies
            && History(now, site.prefix + row[2]) == History(was, site.prefix + row[2])
                 + [Object(site.replies[row[2]], site.dump[i].body, Metadata(row[4], row[5], None), None)]
  {
    TargetsOfRow(rows, r);
    hide TargetsOf, History;
    assert JobOf(rows, site).Ships(site.dump[i]);
    assert JobOf(rows, site).IsAnswered(site.dump[i]);
  }

  /** The row's original was shipped and its `version_id` set. */
  predicate OwesOriginal(site: Site, row: Row, id: string) {
    |row| == 9 && row[0] == id && row[7] != "" && IsDumped(site, row[1]) && !("__probe/" <= row[1])
  }

  /** The row's thumbnail was shipped and its `thumb_version_id` set. */
  predicate OwesThumb(site: Site, row: Row, id: string) {
    && |row| == 9 && row[0] == id && row[2] != "" && row[8] != ""
    && IsDumped(site, row[2]) && !("__probe/" <= row[2])
  }

  predicate OwesByRow(site: Site, row: Row, id: string, column: Column) {
    match column
    case VersionId => OwesOriginal(site, row, id)
    case ThumbVersionId => OwesThumb(site, row, id)
  }

  function KeyOf(row: Row, column: Column): Key
    requires |row| == 9
  {
    if column.VersionId? then row[1] else row[2]
  }

  lemma OwedByRow(rows: seq<Row>, site: Site, i: nat, id: string, column: Column)
    requires TargetsOf(rows).Ok? && i < |site.dump| && JobOf(rows, site).Owes(i, id, column)
    ensures exists r :: 0 <= r < |rows| && OwesByRow(site, rows[r], id, column)
                        && KeyOf(rows[r], column) == site.dump[i].key
  {
    var key := site.dump[i].key;
    TargetFromRow(rows, key);
    hide TargetsOf;
    var r :| 0 <= r < |rows| && IsObjectOf(rows[r], Named(key, TargetsOf(rows).value[key]));
    assert IsDumped(site, key);
    assert OwesByRow(site, rows[r], id, column) && KeyOf(rows[r], column) == key;
  }

  lemma JobOwes(job: Job, i: nat, id: string, column: Column)
    requires i < |job.site.dump| && job.site.dump[i].key in job.targets && !IsReserved(job.site.dump[i].key)
    requires var target := job.targets[job.site.dump[i].key];
             target.hadVersion && target.id == id && target.column == column
    ensures job.Owes(i, id, column)
  {
  }

  lemma RowOwes(rows: seq<Row>, site: Site, r: nat, id: string, column: Column)
    requires TargetsOf(rows).Ok? && r < |rows| && OwesByRow(site, rows[r], id, column)
    ensures exists i :: 0 <= i < |site.dump| && JobOf(rows, site).Owes(i, id, column)
  {
    var targets, key := TargetsOf(rows).value, KeyOf(rows[r], column);
    TargetsOfRow(rows, r);
    assert JobOf(rows, site) == Job(site, targets);
    hide TargetsOf;
    assert !IsReserved(key) && IsDumped(site, key);
    assert key in targets && targets[key].hadVersion && targets[key].id == id && targets[key].column == column by {
      hide IsDumped, IsReserved;
    }
    var i :| 0 <= i < |site.dump| && site.dump[i].key == key;
    hide *;
    JobOwes(Job(site, targets), i, id, column);
  }

  /** The UPDATEs of a finished run in row fields: one for a row's `version_id` exactly if its
      original was dumped outside the deploys' namespace and column 7 is filled, one for its
      `thumb_version_id` exactly if its thumbnail was and column 8 is; and each names the
      version id that the key's own PUT returned, never an empty one. */
  lemma UpdatesByRow(rows: seq<Row>, site: Site, was: Histories, updates: Updates, id: string, column: Column)
    requires TargetsOf(rows).Ok? && JobOf(rows, site).Completes(was)
    requires JobOf(rows, site).Recorded(|site.dump|, updates)
    ensures HasUpdate(updates, id, column) <==> exists r :: 0 <= r < |rows| && OwesByRow(site, rows[r], id, column)
    ensures HasUpdate(updates, id, column) ==>
              updates[id][column] != "" &&
              exists r :: 0 <= r < |rows| && OwesByRow(site, rows[r], id, column)
                          && KeyOf(rows[r], column) in site.replies
                          && updates[id][column] == site.replies[KeyOf(rows[r], column)]
  {
    var job := JobOf(rows, site);
    hide TargetsOf, OwesByRow, Job.Owes;
    if HasUpdate(updates, id, column) {
      var i :| 0 <= i < |site.dump| && job.Owes(i, id, column) && IsVersion(job, i, updates[id][column]);
      OwedByRow(rows, site, i, id, column);
      OwedIsAnswered(job, i, id, column);
    }
    if r :| 0 <= r < |rows| && OwesByRow(site, rows[r], id, column) {
      RowOwes(rows, site, r, id, column);
    }
  }

  lemma OwedIsAnswered(job: Job, i: nat, id: string, column: Column)
    requires i < |job.site.dump| && job.Owes(i, id, column) && job.Answered(|job.site.dump|)
    ensures job.Ships(job.site.dump[i]) && job.site.dump[i].key in job.site.replies
    ensures job.site.replies[job.site.dump[i].key] != ""
    ensures forall v :: IsVersion(job, i, v) <==> v == job.site.replies[job.site.dump[i].key]
  {
    assert job.IsAnswered(job.site.dump[i]);
  }

  /** Aborted or not, a run destroys no version, and leaves alone every key outside the prefix
      or in the deploys' namespace. */
  lemma KeptMeaning(job: Job, was: Histories, now: Histories, key: Key)
    requires job.Kept(was, now)
    ensures History(was, key) <= History(now, key)
    ensures !(job.site.prefix <= key) || "__probe/" <= key[|job.site.prefix|..] ==>
              History(now, key) == History(was, key)
  {
  }
}
