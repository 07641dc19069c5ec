/**
 * The resumable import upload (src/state/importJobStore.ts) over its wire calls
 * (src/api/client.ts) against a tus-style server (src/server/routes/import-jobs.ts) and a
 * network that loses requests, replies and headers.
 */
module Upload {
  import opened Wrappers

  type Byte = b: int | 0 <= b < 256

  const UPLOAD_CHUNK_BYTES: nat := 8 * 1024 * 1024
  const MAX_UPLOAD_STALLS: nat := 5

  // ---- The server ---------------------------------------------------------------

  /** The staged file, the declared `Upload-Length`, and whether the job is still pending. */
  datatype Server = Server(staged: seq<Byte>, declared: nat, pending: bool)

  /** A PATCH is taken only by a pending job, at the current offset, within the length. */
  predicate Takes(sv: Server, offset: nat, chunk: seq<Byte>) {
    sv.pending && offset == |sv.staged| && offset + |chunk| <= sv.declared
  }

  function Refusal(sv: Server, offset: nat): nat {
    if !sv.pending || offset != |sv.staged| then 409 else 413
  }

  /** The first `n` bytes of the chunk reach the disk; a full length ends the upload. */
  function Append(sv: Server, chunk: seq<Byte>, n: nat): Server
    requires n <= |chunk|
  {
    var staged := sv.staged + chunk[..n];
    sv.(staged := staged, pending := sv.pending && (n < |chunk| || |staged| < sv.declared))
  }

  // ---- The network -----------------------------------------------------------------

  /** What happens to one PATCH: the server's answer arrives, arrives without its offset
      header, or is lost; the body is cut off; the request never arrives; or something on
      the way answers in the server's place. */
  datatype Fate = Delivered | HeaderDropped | ReplyLost | Cut(at: nat) | NotDelivered | Intercepted(status: nat)

  datatype HeadFate = HeadDelivered | HeadHeaderDropped | HeadFailed(status: nat)

  /** A reply as `fetch` gives it: a status and maybe an `Upload-Offset`; or it throws. */
  datatype Reply = Reply(status: nat, uploadOffset: Option<nat>) | Thrown

  function PatchServer(sv: Server, offset: nat, chunk: seq<Byte>, fate: Fate): Server {
    match fate
    case Delivered => if Takes(sv, offset, chunk) then Append(sv, chunk, |chunk|) else sv
    case HeaderDropped => if Takes(sv, offset, chunk) then Append(sv, chunk, |chunk|) else sv
    case ReplyLost => if Takes(sv, offset, chunk) then Append(sv, chunk, |chunk|) else sv
    case Cut(at) => if Takes(sv, offset, chunk) && at < |chunk| then Append(sv, chunk, at) else sv
    case NotDelivered => sv
    case Intercepted(_) => sv
  }

  function PatchReply(sv: Server, offset: nat, chunk: seq<Byte>, fate: Fate): Reply {
    var answer := if Takes(sv, offset, chunk) then Reply(200, Some(offset + |chunk|))
                  else Reply(Refusal(sv, offset), None);
    match fate
    case Delivered => answer
    case HeaderDropped => Reply(answer.status, None)
    case Intercepted(status) => Reply(status, None)
    case _ => Thrown
  }

  function HeadReply(sv: Server, fate: HeadFate): Reply {
    match fate
    case HeadDelivered => Reply(200, Some(|sv.staged|))
    case HeadHeaderDropped => Reply(200, None)
    case HeadFailed(status) => if IsOk(status) then Thrown else Reply(status, None)
  }

  // ---- The wire calls -----------------------------------------------------------------

  predicate IsOk(status: nat) {
    200 <= status < 300
  }

  datatype OffsetResult = OffsetResult(ok: bool, status: nat, offset: nat)

  /** `importJobApi.headOffset`: a missing header counts as offset 0. */
  function HeadOffset(reply: Reply): OffsetResult {
    match reply
    case Thrown => OffsetResult(false, 0, 0)
    case Reply(status, header) => OffsetResult(IsOk(status), status, if header.Some? then header.value else 0)
  }

  /** `importJobApi.patchChunk`: a missing header counts as the offset asked for. */
  function PatchChunk(reply: Reply, offset: nat): OffsetResult {
    match reply
    case Thrown => OffsetResult(false, 0, offset)
    case Reply(status, header) => OffsetResult(IsOk(status), status, if header.Some? then header.value else offset)
  }

  // ---- One turn of the loop -------------------------------------------------------------

  /** `left` is set by a `break`. */
  datatype State = State(server: Server, offset: nat, stalls: nat, left: bool)

  predicate Loops(file: seq<Byte>, s: State) {
    !s.left && s.offset < |file|
  }

  function ChunkAt(file: seq<Byte>, offset: nat): seq<Byte>
    requires offset < |file|
  {
    file[offset..if offset + UPLOAD_CHUNK_BYTES < |file| then offset + UPLOAD_CHUNK_BYTES else |file|]
  }

  /** The stall breaker after the offset moved from `before` to `offset`. */
  function Settle(server: Server, before: nat, offset: nat, stalls: nat): State {
    if offset <= before then State(server, offset, stalls + 1, stalls + 1 >= MAX_UPLOAD_STALLS)
    else State(server, offset, 0, false)
  }

  function Turn(file: seq<Byte>, s: State, fate: Fate, head: HeadFate): State
    requires Loops(file, s)
  {
    var chunk := ChunkAt(file, s.offset);
    var server := PatchServer(s.server, s.offset, chunk, fate);
    var res := PatchChunk(PatchReply(s.server, s.offset, chunk, fate), s.offset);
    if res.ok then Settle(server, s.offset, res.offset, s.stalls)
    else if res.status == 409 then
      var reHead := HeadOffset(HeadReply(server, head));
      Settle(server, s.offset, if reHead.ok then reHead.offset else s.offset, s.stalls)
    else s.(server := server, left := true)
  }

  /** A run of the loop under the given fates; it stands still once the loop has ended. */
  function Exec(file: seq<Byte>, s: State, fates: seq<(Fate, HeadFate)>): State {
    if fates == [] then s
    else
      var t := Exec(file, s, fates[..|fates| - 1]);
      if Loops(file, t) then Turn(file, t, fates[|fates| - 1].0, fates[|fates| - 1].1) else t
  }

  // ---- Safety: what is staged -----------------------------------------------------------

  /** `now` extends `was` by bytes of the file at their own positions, within the length. */
  ghost predicate Extends(file: seq<Byte>, was: Server, now: Server) {
    && now.declared == was.declared
    && |was.staged| <= |now.staged| && now.staged[..|was.staged|] == was.staged
    && (|now.staged| > |was.staged| ==> |now.staged| <= |file| && |now.staged| <= was.declared)
    && (forall i :: |was.staged| <= i < |now.staged| && i < |file| ==> now.staged[i] == file[i])
  }

  lemma AppendExtends(file: seq<Byte>, sv: Server, offset: nat, chunk: seq<Byte>, n: nat)
    requires offset < |file| && chunk == ChunkAt(file, offset) && n <= |chunk| && Takes(sv, offset, chunk)
    ensures Extends(file, sv, Append(sv, chunk, n))
  {
    var now := Append(sv, chunk, n);
    forall i | |sv.staged| <= i < |now.staged|
      ensures now.staged[i] == file[i]
    {
      assert now.staged[i] == chunk[i - offset];
    }
  }

  lemma PatchExtends(file: seq<Byte>, sv: Server, offset: nat, fate: Fate)
    requires offset < |file|
    ensures Extends(file, sv, PatchServer(sv, offset, ChunkAt(file, offset), fate))
  {
    var chunk := ChunkAt(file, offset);
    var now := PatchServer(sv, offset, chunk, fate);
    hide Extends;
    var n := if fate.Cut? then fate.at else |chunk|;
    if now != sv {
      assert Takes(sv, offset, chunk) && n <= |chunk|;
      AppendExtends(file, sv, offset, chunk, n);
    }
  }

  lemma ExtendsTransitive(file: seq<Byte>, a: Server, b: Server, c: Server)
    requires Extends(file, a, b) && Extends(file, b, c)
    ensures Extends(file, a, c)
  {
    forall i | 0 <= i < |a.staged|
      ensures c.staged[i] == a.staged[i]
    {
      assert b.staged[..|a.staged|][i] == a.staged[i];
      assert c.staged[..|b.staged|][i] == b.staged[i];
    }
    forall i | |a.staged| <= i < |c.staged| && i < |file|
      ensures c.staged[i] == file[i]
    {
      if i < |b.staged| {
        assert c.staged[..|b.staged|][i] == b.staged[i];
      }
    }
  }

  /** The client never believes more is staged than is. */
  lemma TurnKeepsOffset(file: seq<Byte>, s: State, fate: Fate, head: HeadFate)
    requires Loops(file, s) && s.offset <= |s.server.staged|
    ensures Turn(file, s, fate, head).offset <= |Turn(file, s, fate, head).server.staged|
  {}

  lemma {:induction false} ExecExtends(file: seq<Byte>, s: State, fates: seq<(Fate, HeadFate)>)
    requires s.offset <= |s.server.staged|
    ensures Extends(file, s.server, Exec(file, s, fates).server)
    ensures Exec(file, s, fates).offset <= |Exec(file, s, fates).server.staged|
  {
    if fates != [] {
      var rest, last := fates[..|fates| - 1], fates[|fates| - 1];
      ExecExtends(file, s, rest);
      var t := Exec(file, s, rest);
      if Loops(file, t) {
        PatchExtends(file, t.server, t.offset, last.0);
        TurnKeepsOffset(file, t, last.0, last.1);
        ExtendsTransitive(file, s.server, t.server, Turn(file, t, last.0, last.1).server);
      }
      hide Extends, Turn;
    }
  }

  /** At every moment of every run, lost replies, dropped headers and failed HEADs included:
      what is staged only grows, by the file's own bytes in place; so it is a prefix of the
      file exactly when it was one before. If it was, the declared length is the file's and
      the loop ended with the offset at the size, the whole file is staged. */
  lemma StagedStaysPrefix(file: seq<Byte>, s: State, fates: seq<(Fate, HeadFate)>)
    requires s.offset <= |s.server.staged|
    ensures var t := Exec(file, s, fates);
            && s.server.staged <= t.server.staged
            && (t.server.staged <= file <==> s.server.staged <= file)
            && (s.server.staged <= file && t.offset >= |file| ==> t.server.staged == file)
  {
    ExecExtends(file, s, fates);
    var was, now := s.server.staged, Exec(file, s, fates).server.staged;
    assert was <= now;
    if was <= file {
      forall i | 0 <= i < |now| && i < |file|
        ensures now[i] == file[i]
      {
        if i < |was| {
          assert now[..|was|][i] == was[i] && file[..|was|][i] == was[i];
        }
      }
      assert now <= file;
    }
  }

  // ---- Termination ------------------------------------------------------------------------

  /** Bytes left weigh more than stalls left. */
  function Measure(file: seq<Byte>, s: State): int {
    (|file| - s.offset) * MAX_UPLOAD_STALLS + MAX_UPLOAD_STALLS - s.stalls
  }

  /** The most turns the loop can take between two HEADs that lose their header. */
  function Full(file: seq<Byte>): nat {
    |file| * MAX_UPLOAD_STALLS + MAX_UPLOAD_STALLS
  }

  /** The successful HEADs that come without their offset header: only these report less than
      is staged. A monotone server has none. */
  function Drops(fates: seq<(Fate, HeadFate)>): nat {
    if fates == [] then 0
    else Drops(fates[..|fates| - 1]) + if fates[|fates| - 1].1.HeadHeaderDropped? then 1 else 0
  }

  lemma TurnDecreases(file: seq<Byte>, s: State, fate: Fate, head: HeadFate)
    requires Loops(file, s) && s.offset <= |s.server.staged| && s.stalls < MAX_UPLOAD_STALLS
    requires !head.HeadHeaderDropped?
    ensures var t := Turn(file, s, fate, head);
            && t.offset >= s.offset
            && (!t.left ==> t.stalls < MAX_UPLOAD_STALLS && Measure(file, t) < Measure(file, s))
  {
    var t := Turn(file, s, fate, head);
    assert t.offset >= s.offset;
  }

  /** A lost header costs at most everything gained so far. */
  lemma DropIsBounded(file: seq<Byte>, s: State, fate: Fate, head: HeadFate)
    requires Loops(file, s) && s.stalls < MAX_UPLOAD_STALLS
    ensures var t := Turn(file, s, fate, head);
            (!t.left ==> t.stalls < MAX_UPLOAD_STALLS && Measure(file, t) <= Full(file)) && Measure(file, s) > 0
  {}

  /** What is left of the turns the run may take, one `Full` refilled by each lost header. */
  function Allowance(file: seq<Byte>, s: State, drops: nat): int {
    Measure(file, s) + drops * (Full(file) + 1)
  }

  lemma AllowanceGrows(file: seq<Byte>, s: State, drops: nat)
    ensures Allowance(file, s, drops + 1) == Allowance(file, s, drops) + Full(file) + 1
  {}

  /** Every turn uses up the allowance. */
  lemma {:induction false} RunsAreShort(file: seq<Byte>, s: State, fates: seq<(Fate, HeadFate)>)
    requires s.offset <= |s.server.staged| && s.stalls < MAX_UPLOAD_STALLS && !s.left
    ensures var t := Exec(file, s, fates);
            !t.left ==> t.stalls < MAX_UPLOAD_STALLS
                        && (Loops(file, t) ==> Measure(file, t) + |fates| <= Allowance(file, s, Drops(fates)))
  {
    if fates != [] {
      var rest, last := fates[..|fates| - 1], fates[|fates| - 1];
      RunsAreShort(file, s, rest);
      ExecExtends(file, s, rest);
      AllowanceGrows(file, s, Drops(rest));
      var t := Exec(file, s, rest);
      if Loops(file, t) {
        DropIsBounded(file, t, last.0, last.1);
        if !last.1.HeadHeaderDropped? {
          TurnDecreases(file, t, last.0, last.1);
        }
      }
      hide Turn, Measure, Allowance, Full;
    }
  }

  /** Whatever the network loses, the loop ends within `Full` turns plus `Full + 1` for every
      HEAD that lost its header. */
  lemma RunEndsByDrops(file: seq<Byte>, server: Server, offset: nat, fates: seq<(Fate, HeadFate)>)
    requires offset <= |server.staged|
    requires |fates| >= Full(file) + Drops(fates) * (Full(file) + 1)
    ensures !Loops(file, Exec(file, State(server, offset, 0, false), fates))
  {
    var s := State(server, offset, 0, false);
    RunsAreShort(file, s, fates);
    var t := Exec(file, s, fates);
    assert Measure(file, s) <= Full(file);
    assert Loops(file, t) ==> Measure(file, t) > 0;
  }

  /** Against a monotone server the loop ends within five turns for every byte left to send,
      plus five, whatever else the network does. */
  lemma UploadTerminates(file: seq<Byte>, server: Server, offset: nat, fates: seq<(Fate, HeadFate)>)
    requires offset <= |server.staged| && offset <= |file| && Drops(fates) == 0
    requires |fates| >= (|file| - offset) * MAX_UPLOAD_STALLS + MAX_UPLOAD_STALLS
    ensures !Loops(file, Exec(file, State(server, offset, 0, false), fates))
  {
    var s := State(server, offset, 0, false);
    RunsAreShort(file, s, fates);
    var t := Exec(file, s, fates);
    assert Loops(file, t) && t.stalls < MAX_UPLOAD_STALLS ==> Measure(file, t) > 0;
  }

  // ---- Recovery ------------------------------------------------------------------------

  /** A server that waits for the rest of the file, and a client at or behind its offset; it
      has stalled only where a reply came without its offset. */
  ghost predicate InStep(file: seq<Byte>, s: State) {
    && !s.left && s.offset <= |s.server.staged| <= |file| == s.server.declared
    && (|s.server.staged| < |file| ==> s.server.pending)
    && (s.stalls == 0 || (s.stalls == 1 && s.offset < |s.server.staged|))
  }

  /** Every PATCH and HEAD is answered by the server, though a PATCH reply may lack its offset. */
  predicate Answers(turn: (Fate, HeadFate)) {
    (turn.0 == Delivered || turn.0 == HeaderDropped) && turn.1 == HeadDelivered
  }

  predicate AllAnswer(fates: seq<(Fate, HeadFate)>) {
    forall i :: 0 <= i < |fates| ==> Answers(fates[i])
  }

  lemma TurnKeepsInStep(file: seq<Byte>, s: State, turn: (Fate, HeadFate))
    requires InStep(file, s) && Loops(file, s) && Answers(turn)
    ensures InStep(file, Turn(file, s, turn.0, turn.1))
  {
    assert |ChunkAt(file, s.offset)| > 0 && s.offset + |ChunkAt(file, s.offset)| <= |file|;
  }

  lemma {:induction false} AnswersKeepInStep(file: seq<Byte>, s: State, fates: seq<(Fate, HeadFate)>)
    requires InStep(file, s) && AllAnswer(fates)
    ensures InStep(file, Exec(file, s, fates)) && Drops(fates) == 0
  {
    if fates != [] {
      var rest, last := fates[..|fates| - 1], fates[|fates| - 1];
      AnswersKeepInStep(file, s, rest);
      assert Answers(last);
      var t := Exec(file, s, rest);
      if Loops(file, t) {
        TurnKeepsInStep(file, t, last);
      }
      hide InStep, Turn, Loops;
    }
  }

  /** Where every request is answered the upload completes, from any prefix the server holds and
      any offset the client is behind at: a conflict is resolved by the HEAD, a missing offset
      by the conflict it causes. */
  lemma AnsweredUploadCompletes(file: seq<Byte>, server: Server, offset: nat, fates: seq<(Fate, HeadFate)>)
    requires server.staged <= file && server.declared == |file| && (|server.staged| < |file| ==> server.pending)
    requires offset <= |server.staged| && AllAnswer(fates) && |fates| >= Full(file)
    ensures Exec(file, State(server, offset, 0, false), fates).server.staged == file
  {
    var s := State(server, offset, 0, false);
    AnswersKeepInStep(file, s, fates);
    RunEndsByDrops(file, server, offset, fates);
    StagedStaysPrefix(file, s, fates);
    assert !Loops(file, Exec(file, s, fates));
  }

  function Clear(n: nat): seq<(Fate, HeadFate)> {
    seq(n, _ => (Delivered, HeadDelivered))
  }

  /** Over a clear network, from the offset the server reports, the upload completes in the
      turns the bytes left allow. */
  lemma ClearNetworkCompletes(file: seq<Byte>, server: Server, n: nat)
    requires server.staged <= file && server.declared == |file| && (|server.staged| < |file| ==> server.pending)
    requires n >= (|file| - |server.staged|) * MAX_UPLOAD_STALLS + MAX_UPLOAD_STALLS
    ensures Exec(file, State(server, |server.staged|, 0, false), Clear(n)).server.staged == file
  {
    var s := State(server, |server.staged|, 0, false);
    AnswersKeepInStep(file, s, Clear(n));
    UploadTerminates(file, server, |server.staged|, Clear(n));
    StagedStaysPrefix(file, s, Clear(n));
    assert !Loops(file, Exec(file, s, Clear(n)));
  }

  /** A server that takes nothing and whose HEADs bring no progress, answered or not. */
  predicate Refuses(turn: (Fate, HeadFate)) {
    (turn.0 == Delivered || turn.0 == HeaderDropped) && !turn.1.HeadHeaderDropped?
  }

  /** The breaker trips on the fifth turn without progress, not before and not later. */
  lemma {:induction false} StuckLoopStopsAtFive(file: seq<Byte>, server: Server, fates: seq<(Fate, HeadFate)>)
    requires !server.pending && |server.staged| < |file|
    requires forall i :: 0 <= i < |fates| ==> Refuses(fates[i])
    ensures var t := Exec(file, State(server, |server.staged|, 0, false), fates);
            && t.server == server && t.offset == |server.staged|
            && (Loops(file, t) <==> |fates| < 5)
            && (|fates| < 5 ==> t.stalls == |fates|)
  {
    if fates != [] {
      var rest, last := fates[..|fates| - 1], fates[|fates| - 1];
      StuckLoopStopsAtFive(file, server, rest);
      assert Refuses(last);
      var t := Exec(file, State(server, |server.staged|, 0, false), rest);
      if Loops(file, t) {
        RefusedTurn(file, t, last);
      }
      hide Turn, Refuses;
    }
  }

  lemma RefusedTurn(file: seq<Byte>, s: State, turn: (Fate, HeadFate))
    requires Loops(file, s) && !s.server.pending && s.offset == |s.server.staged| && Refuses(turn)
    ensures Turn(file, s, turn.0, turn.1) == State(s.server, s.offset, s.stalls + 1, s.stalls + 1 >= 5)
  {}

  /** A lost request or reply, and any answer but success and conflict, ends the loop at once at
      the offset it had. */
  lemma OtherFailureStops(file: seq<Byte>, s: State, fate: Fate, head: HeadFate)
    requires Loops(file, s)
    ensures var t := Turn(file, s, fate, head);
            fate.ReplyLost? || fate.Cut? || fate.NotDelivered?
            || (fate.Intercepted? && fate.status != 409 && !(200 <= fate.status < 300)) ==>
              t.left && t.offset == s.offset
    ensures var t := Turn(file, s, fate, head);
            fate.Delivered? && s.server.pending && s.offset == |s.server.staged|
            && s.offset + |ChunkAt(file, s.offset)| > s.server.declared ==>
              t.left && t.offset == s.offset && t.server == s.server
  {
    hide ChunkAt;
  }

  /** A chunk is the file's next 8 MiB, or what is left of it. */
  lemma ChunkIsNext(file: seq<Byte>, offset: nat)
    requires offset < |file|
    ensures var chunk := ChunkAt(file, offset);
            && chunk <= file[offset..]
            && |chunk| == if |file| - offset < 8388608 then |file| - offset else 8388608
  {}

  /** Two turns against a job that takes no more bytes, the second HEAD complete, the first
      without its header: the offset falls to zero and comes back, which clears the stalls. */
  function SeeSaw(n: nat): seq<(Fate, HeadFate)> {
    if n == 0 then [] else SeeSaw(n - 1) + [(Delivered, HeadHeaderDropped), (Delivered, HeadDelivered)]
  }

  /** On such a server the stall breaker never trips: n lost headers carry the loop through
      2n turns and leave it where it began. */
  lemma {:induction false} SeeSawNeverEnds(file: seq<Byte>, server: Server, n: nat)
    requires !server.pending && 0 < |server.staged| < |file|
    ensures var s := State(server, |server.staged|, 0, false);
            Exec(file, s, SeeSaw(n)) == s && Loops(file, s)
    ensures |SeeSaw(n)| == 2 * n && Drops(SeeSaw(n)) == n
  {
    var s := State(server, |server.staged|, 0, false);
    if n > 0 {
      SeeSawNeverEnds(file, server, n - 1);
      var fates := SeeSaw(n);
      var once := SeeSaw(n - 1) + [(Delivered, HeadHeaderDropped)];
      assert fates[..|fates| - 1] == once && once[..|once| - 1] == SeeSaw(n - 1);
      hide SeeSaw;
      var down := Turn(file, s, Delivered, HeadHeaderDropped);
      assert down == State(server, 0, 1, false);
      assert Turn(file, down, Delivered, HeadDelivered) == s;
    }
  }

  /** At most so many HEADs lose their header; `None` sets no limit. */
  predicate Within(budget: Option<nat>, fates: seq<(Fate, HeadFate)>) {
    budget.Some? ==> Drops(fates) <= budget.value
  }

  /** Every run of `n` turns within the budget has left the loop, on any server and from any
      offset the server holds. */
  ghost predicate EndsBy(file: seq<Byte>, budget: Option<nat>, n: nat) {
    forall server: Server, offset: nat, fates ::
      offset <= |server.staged| && |fates| >= n && Within(budget, fates) ==>
        !Loops(file, Exec(file, State(server, offset, 0, false), fates))
  }

  /** With nothing between the first byte and the end, every turn of the loop is a stall. */
  lemma {:induction false} TinyFileStalls(file: seq<Byte>, server: Server, offset: nat, fates: seq<(Fate, HeadFate)>)
    requires |file| <= 1
    ensures var t := Exec(file, State(server, offset, 0, false), fates);
            Loops(file, t) ==> |fates| <= t.stalls < MAX_UPLOAD_STALLS
  {
    if fates != [] {
      var rest, last := fates[..|fates| - 1], fates[|fates| - 1];
      TinyFileStalls(file, server, offset, rest);
      var t := Exec(file, State(server, offset, 0, false), rest);
      if Loops(file, t) {
        DropIsBounded(file, t, last.0, last.1);
        TurnStalls(file, t, last.0, last.1);
      }
      hide Turn;
    }
  }

  lemma TurnStalls(file: seq<Byte>, s: State, fate: Fate, head: HeadFate)
    requires Loops(file, s)
    ensures var t := Turn(file, s, fate, head);
            !t.left && t.offset <= s.offset ==> t.stalls == s.stalls + 1
  {}

  /** The exact condition: run length is bounded if and only if the number of HEADs that lose
      their header is, or the file is too short for the offset to go back and forth. */
  lemma EndsExactlyWithinBudget(file: seq<Byte>, budget: Option<nat>)
    ensures (exists n :: EndsBy(file, budget, n)) <==> budget.Some? || |file| <= 1
  {
    if budget.Some? {
      var n := Full(file) + budget.value * (Full(file) + 1);
      forall server: Server, offset: nat, fates
        | offset <= |server.staged| && |fates| >= n && Within(budget, fates)
        ensures !Loops(file, Exec(file, State(server, offset, 0, false), fates))
      {
        FewerDrops(Drops(fates), budget.value, Full(file) + 1);
        RunEndsByDrops(file, server, offset, fates);
      }
      assert EndsBy(file, budget, n);
    } else if |file| <= 1 {
      forall server: Server, offset: nat, fates
        | offset <= |server.staged| && |fates| >= MAX_UPLOAD_STALLS && Within(budget, fates)
        ensures !Loops(file, Exec(file, State(server, offset, 0, false), fates))
      {
        TinyFileStalls(file, server, offset, fates);
      }
      assert EndsBy(file, budget, MAX_UPLOAD_STALLS);
    } else {
      forall n
        ensures !EndsBy(file, budget, n)
      {
        var server := Server([0], |file|, false);
        SeeSawNeverEnds(file, server, n);
        assert Within(budget, SeeSaw(n));
      }
    }
  }

  lemma FewerDrops(a: nat, b: nat, factor: nat)
    requires a <= b
    ensures a * factor <= b * factor
  {}

  // ---- The store -------------------------------------------------------------------------

  /** The connection: the server behind it, and a network that picks fates as it likes, but
      lets only `headersToLose` more successful HEADs come without their offset header. */
  class Link {
    var server: Server
    var headersToLose: nat

    constructor (server: Server, headersToLose: nat)
      ensures this.server == server && this.headersToLose == headersToLose
    {
      this.server, this.headersToLose := server, headersToLose;
    }

    method Patch(offset: nat, chunk: seq<Byte>) returns (res: OffsetResult, ghost fate: Fate)
      modifies this`server
      ensures server == PatchServer(old(server), offset, chunk, fate)
      ensures res == PatchChunk(PatchReply(old(server), offset, chunk, fate), offset)
    {
      var chosen: Fate := *;
      fate := chosen;
      res := PatchChunk(PatchReply(server, offset, chunk, chosen), offset);
      server := PatchServer(server, offset, chunk, chosen);
    }

    method Head() returns (res: OffsetResult, ghost fate: HeadFate)
      modifies this`headersToLose
      ensures res.ok ==> res.offset == if fate.HeadHeaderDropped? then 0 else |server.staged|
      ensures res == HeadOffset(HeadReply(server, fate))
      ensures old(headersToLose) == headersToLose + if fate.HeadHeaderDropped? then 1 else 0
    {
      var chosen: HeadFate := *;
      if chosen.HeadHeaderDropped? {
        if headersToLose == 0 {
          chosen := HeadDelivered;
        } else {
          headersToLose := headersToLose - 1;
        }
      }
      fate := chosen;
      res := HeadOffset(HeadReply(server, chosen));
    }
  }

  class ImportJobStore {
    var hasJob: bool
    var uploadOffset: nat

    constructor (hasJob: bool)
      ensures this.hasJob == hasJob && uploadOffset == 0
    {
      this.hasJob, uploadOffset := hasJob, 0;
    }

    /** The upload action. `probe` is the fate of its first HEAD, `start` and `fates` name the
        run of the loop it performed; the cached offset must come from the same job. */
    method Upload(file: seq<Byte>, link: Link)
      returns (ghost probe: HeadFate, ghost start: State, ghost fates: seq<(Fate, HeadFate)>)
      requires uploadOffset <= |link.server.staged|
      modifies this`uploadOffset, link
      ensures !hasJob ==> link.server == old(link.server) && uploadOffset == old(uploadOffset)
      ensures hasJob ==>
                var head := HeadOffset(HeadReply(old(link.server), probe));
                start == State(old(link.server), if head.ok then head.offset else old(uploadOffset), 0, false)
      ensures hasJob ==>
                var t := Exec(file, start, fates);
                !Loops(file, t) && link.server == t.server && uploadOffset == t.offset
      ensures Drops(fates) <= old(link.headersToLose)
      ensures uploadOffset <= |link.server.staged| && Extends(file, old(link.server), link.server)
    {
      probe, start, fates := HeadDelivered, State(link.server, uploadOffset, 0, false), [];
      if !hasJob {
        return;
      }
      var total := |file|;
      var head, headSeen := link.Head();
      probe := headSeen;
      var offset: nat := if head.ok then head.offset else uploadOffset;
      uploadOffset := offset;
      start := start.(offset := offset);
      var stalls: nat, left := 0, false;
      assert Extends(file, start.server, start.server);
      assert Exec(file, start, []) == start;
      hide Extends, Exec, Drops, Full, Turn, PatchServer, PatchReply, PatchChunk, HeadReply, ChunkAt;
      while !left && offset < total
        invariant State(link.server, offset, stalls, left) == Exec(file, start, fates)
        invariant uploadOffset == offset
        invariant offset <= |link.server.staged|
        invariant !left ==> stalls < MAX_UPLOAD_STALLS
        invariant Drops(fates) + link.headersToLose <= old(link.headersToLose)
        decreases link.headersToLose, !left, total - offset, MAX_UPLOAD_STALLS - stalls
      {
        ghost var now := State(link.server, offset, stalls, left);
        var before := offset;
        var chunk := ChunkAt(file, offset);
        var res, fate := link.Patch(offset, chunk);
        ghost var headFate := HeadDelivered;
        if res.ok {
          offset := res.offset;
        } else if res.status == 409 {
          var reHead, reHeadFate := link.Head();
          headFate := reHeadFate;
          offset := if reHead.ok then reHead.offset else offset;
        } else {
          left := true;
        }
        if !left {
          if offset <= before {
            stalls := stalls + 1;
            left := stalls >= MAX_UPLOAD_STALLS;
          } else {
            stalls := 0;
          }
        }
        uploadOffset := offset;
        TurnIs(file, now, fate, headFate);
        TurnKeepsOffset(file, now, fate, headFate);
        DropIsBounded(file, now, fate, headFate);
        if !headFate.HeadHeaderDropped? {
          TurnDecreases(file, now, fate, headFate);
        }
        ExecExtended(file, start, fates, fate, headFate);
        fates := fates + [(fate, headFate)];
      }
      ExecExtends(file, start, fates);
    }
  }

  lemma ExecExtended(file: seq<Byte>, s: State, fates: seq<(Fate, HeadFate)>, fate: Fate, head: HeadFate)
    ensures var t := Exec(file, s, fates);
            Exec(file, s, fates + [(fate, head)]) == if Loops(file, t) then Turn(file, t, fate, head) else t
    ensures Drops(fates + [(fate, head)]) == Drops(fates) + if head.HeadHeaderDropped? then 1 else 0
  {
    assert (fates + [(fate, head)])[..|fates|] == fates;
  }

  /** `Turn` in the words of the wire calls. */
  lemma TurnIs(file: seq<Byte>, s: State, fate: Fate, head: HeadFate)
    requires Loops(file, s)
    ensures var chunk := ChunkAt(file, s.offset);
            var server := PatchServer(s.server, s.offset, chunk, fate);
            var res := PatchChunk(PatchReply(s.server, s.offset, chunk, fate), s.offset);
            var reHead := HeadOffset(HeadReply(server, head));
            Turn(file, s, fate, head) ==
              if res.ok then Settle(server, s.offset, res.offset, s.stalls)
              else if res.status == 409 then
                Settle(server, s.offset, if reHead.ok then reHead.offset else s.offset, s.stalls)
              else State(server, s.offset, s.stalls, true)
  {}
}
