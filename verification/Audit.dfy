/**
 * The audit store: list fetches, page appends and resets whose responses arrive in any
 * order (src/state/auditStore.ts).
 */
module Audit {
  import opened Wrappers

  const AUDIT_PAGE_SIZE: nat := 50

  datatype Entry = Entry(id: nat, body: int)

  /** `criteria` stands for every filter field the store passes through unread. */
  datatype Filters = Filters(limit: Option<nat>, criteria: int)

  const INITIAL_FILTERS: Filters := Filters(Some(AUDIT_PAGE_SIZE), 0)

  /** A suspended call: what it captured before its `await`. */
  datatype Request =
    | ListRequest(ticket: nat)
    | AppendRequest(ticket: nat, captured: seq<Entry>, offset: nat, limit: nat)

  datatype Response = Page(data: seq<Entry>, total: nat) | SessionExpired | Failed(message: string)

  datatype State = State(
    entries: seq<Entry>, total: nat, filters: Filters, loading: bool, loadingMore: bool,
    error: Option<string>, fetchSeq: nat, pending: set<Request>)

  const INITIAL: State := State([], 0, INITIAL_FILTERS, false, false, None, 0, {})

  datatype Event =
    | FetchList(filters: Option<Filters>)
    | AppendNextPage
    | Reset
    | Arrive(request: Request, response: Response)

  function Merged(s: State, filters: Option<Filters>): Filters {
    var given := if filters.Some? then filters.value else s.filters;
    given.(limit := if given.limit.Some? then given.limit else INITIAL_FILTERS.limit)
  }

  predicate AppendBlocked(s: State) {
    s.loadingMore || s.loading || (|s.entries| >= s.total && s.total > 0)
  }

  function AppendTicket(s: State): Request {
    AppendRequest(s.fetchSeq + 1, s.entries, |s.entries|,
                  if s.filters.limit.Some? then s.filters.limit.value else AUDIT_PAGE_SIZE)
  }

  function Ids(entries: seq<Entry>): set<nat> {
    set e | e in entries :: e.id
  }

  function Fresh(data: seq<Entry>, known: set<nat>): seq<Entry> {
    if data == [] then []
    else (if data[0].id in known then [] else [data[0]]) + Fresh(data[1..], known)
  }

  function Step(s: State, e: Event): State {
    match e
    case FetchList(filters) =>
      s.(fetchSeq := s.fetchSeq + 1, loading := true, error := None, filters := Merged(s, filters),
         pending := s.pending + {ListRequest(s.fetchSeq + 1)})
    case AppendNextPage =>
      if AppendBlocked(s) then s
      else s.(fetchSeq := s.fetchSeq + 1, loadingMore := true, error := None,
              pending := s.pending + {AppendTicket(s)})
    case Reset => INITIAL.(fetchSeq := s.fetchSeq, pending := s.pending)
    case Arrive(request, response) =>
      var rest := s.(pending := s.pending - {request});
      if request.ticket != s.fetchSeq then rest
      else
        match response
        case SessionExpired => rest
        case Failed(message) =>
          if request.ListRequest? then rest.(loading := false, error := Some(message))
          else rest.(loadingMore := false, error := Some(message))
        case Page(data, total) =>
          if request.ListRequest? then rest.(entries := data, total := total, loading := false)
          else rest.(entries := s.entries + Fresh(data, Ids(request.captured)), total := total, loadingMore := false)
  }

  /** The store instance; every call is split at its one `await`. */
  class AuditStore {
    var entries: seq<Entry>
    var total: nat
    var filters: Filters
    var loading: bool
    var loadingMore: bool
    var error: Option<string>
    var fetchSeq: nat
    var pending: set<Request>

    ghost function Abstract(): State
      reads this
    {
      State(entries, total, filters, loading, loadingMore, error, fetchSeq, pending)
    }

    constructor ()
      ensures Abstract() == INITIAL
    {
      entries, total, filters, loading, loadingMore := [], 0, INITIAL_FILTERS, false, false;
      error, fetchSeq, pending := None, 0, {};
    }

    method StartFetchList(given: Option<Filters>)
      modifies this
      ensures Abstract() == Step(old(Abstract()), FetchList(given))
    {
      var merged := if given.Some? then given.value else filters;
      if merged.limit.None? {
        merged := merged.(limit := INITIAL_FILTERS.limit);
      }
      fetchSeq := fetchSeq + 1;
      loading, error, filters := true, None, merged;
      pending := pending + {ListRequest(fetchSeq)};
    }

    method FinishFetchList(request: Request, result: Response)
      requires request in pending && request.ListRequest?
      modifies this
      ensures Abstract() == Step(old(Abstract()), Arrive(request, result))
    {
      pending := pending - {request};
      if request.ticket != fetchSeq {
        return;
      }
      match result {
        case SessionExpired =>
        case Failed(message) => loading, error := false, Some(message);
        case Page(data, newTotal) => entries, total, loading := data, newTotal, false;
      }
    }

    method StartAppendNextPage()
      modifies this
      ensures Abstract() == Step(old(Abstract()), AppendNextPage)
    {
      if loadingMore || loading {
        return;
      }
      var limit := if filters.limit.Some? then filters.limit.value else AUDIT_PAGE_SIZE;
      var offset := |entries|;
      if offset >= total && total > 0 {
        return;
      }
      fetchSeq := fetchSeq + 1;
      loadingMore, error := true, None;
      pending := pending + {AppendRequest(fetchSeq, entries, offset, limit)};
    }

    method FinishAppendNextPage(request: Request, result: Response)
      requires request in pending && request.AppendRequest?
      modifies this
      ensures Abstract() == Step(old(Abstract()), Arrive(request, result))
    {
      pending := pending - {request};
      if request.ticket != fetchSeq {
        return;
      }
      match result {
        case SessionExpired =>
        case Failed(message) => loadingMore, error := false, Some(message);
        case Page(data, newTotal) =>
          var knownIds := Ids(request.captured);
          entries := entries + Fresh(data, knownIds);
          total, loadingMore := newTotal, false;
      }
    }

    method Reset()
      modifies this
      ensures Abstract() == Step(old(Abstract()), Event.Reset)
    {
      entries, total, filters, loading, loadingMore, error := [], 0, INITIAL_FILTERS, false, false, None;
    }
  }

  // ---- Every interleaving -----------------------------------------------------

  ghost predicate DistinctIds(entries: seq<Entry>) {
    forall i, j :: 0 <= i < j < |entries| ==> entries[i].id != entries[j].id
  }

  /** A response arrives for a suspended call only, and a page repeats no id within itself. */
  ghost predicate Enabled(s: State, e: Event) {
    e.Arrive? ==> e.request in s.pending && (e.response.Page? ==> DistinctIds(e.response.data))
  }

  ghost predicate ValidRun(s: State, run: seq<Event>)
    decreases run
  {
    run == [] || (Enabled(s, run[0]) && ValidRun(Step(s, run[0]), run[1..]))
  }

  function After(s: State, run: seq<Event>): State
    decreases run
  {
    if run == [] then s else After(Step(s, run[0]), run[1..])
  }

  /** Tickets are at most the counter and unique; while an append is not superseded, the
      entries are those it captured, or a reset has emptied them. */
  ghost predicate Inv(s: State) {
    && DistinctIds(s.entries)
    && (forall r :: r in s.pending ==> r.ticket <= s.fetchSeq)
    && (forall r, q :: r in s.pending && q in s.pending && r.ticket == q.ticket ==> r == q)
    && (forall r :: r in s.pending && r.AppendRequest? && r.ticket == s.fetchSeq ==>
          s.entries == r.captured || s.entries == [])
  }

  lemma {:induction false} FreshIsNew(data: seq<Entry>, known: set<nat>)
    requires DistinctIds(data)
    ensures DistinctIds(Fresh(data, known))
    ensures forall i :: 0 <= i < |Fresh(data, known)| ==>
              Fresh(data, known)[i].id !in known && Fresh(data, known)[i] in data
  {
    if data != [] {
      FreshIsNew(data[1..], known);
      var rest := Fresh(data[1..], known);
      forall i | 0 <= i < |rest|
        ensures rest[i].id != data[0].id
      {
        assert rest[i] in data[1..];
      }
    }
  }

  /** A page appended after duplicates are dropped keeps the ids distinct. */
  lemma AppendKeepsDistinct(entries: seq<Entry>, data: seq<Entry>)
    requires DistinctIds(entries) && DistinctIds(data)
    ensures DistinctIds(entries + Fresh(data, Ids(entries)))
    ensures forall e :: e in data ==> e.id in Ids(entries + Fresh(data, Ids(entries)))
  {
    var unseen := Fresh(data, Ids(entries));
    FreshIsNew(data, Ids(entries));
    assert forall i :: 0 <= i < |entries| ==> entries[i].id in Ids(entries);
    FreshCovers(data, Ids(entries));
    assert forall e :: e in entries + unseen <==> e in entries || e in unseen;
  }

  lemma {:induction false} FreshCovers(data: seq<Entry>, known: set<nat>)
    ensures forall e :: e in data ==> e.id in known || e in Fresh(data, known)
  {
    if data != [] {
      FreshCovers(data[1..], known);
      assert forall e :: e in data <==> e == data[0] || e in data[1..];
    }
  }

  lemma StepKeepsInv(s: State, e: Event)
    requires Inv(s) && Enabled(s, e)
    ensures Inv(Step(s, e))
  {
    if e.Arrive? && e.request.AppendRequest? && e.request.ticket == s.fetchSeq && e.response.Page? {
      var captured := e.request.captured;
      FreshIsNew(e.response.data, Ids(captured));
      if s.entries == captured {
        AppendKeepsDistinct(captured, e.response.data);
      } else {
        assert s.entries + Fresh(e.response.data, Ids(captured)) == Fresh(e.response.data, Ids(captured));
      }
    }
    hide Fresh, Ids, Merged;
  }

  lemma {:induction false} RunKeepsInv(s: State, run: seq<Event>)
    requires Inv(s) && ValidRun(s, run)
    ensures Inv(After(s, run))
    decreases run
  {
    if run != [] {
      StepKeepsInv(s, run[0]);
      RunKeepsInv(Step(s, run[0]), run[1..]);
    }
  }

  /** Whatever the interleaving of fetches, appends, resets and out-of-order responses, the
      entries' ids are pairwise distinct; and a response to a superseded call changes
      nothing but the list of suspended calls. */
  lemma IdsStayDistinct(run: seq<Event>)
    requires ValidRun(INITIAL, run)
    ensures var s := After(INITIAL, run);
            && DistinctIds(s.entries)
            && (forall r, response :: r in s.pending && r.ticket != s.fetchSeq ==>
                  Step(s, Arrive(r, response)) == s.(pending := s.pending - {r}))
  {
    RunKeepsInv(INITIAL, run);
  }

  // ---- What a page lands on -----------------------------------------------------

  /** A reset happened while the call was in flight. */
  ghost predicate ResetSince(s: State, run: seq<Event>, r: Request)
    decreases run
  {
    run != [] && ((run[0] == Reset && r in s.pending) || ResetSince(Step(s, run[0]), run[1..], r))
  }

  ghost predicate IsLive(s: State, r: Request) {
    r in s.pending && r.ticket == s.fetchSeq
  }

  /** A call that has been answered or superseded never becomes live again. */
  lemma {:induction false} NeverLiveAgain(s: State, run: seq<Event>, r: Request)
    requires r.ticket <= s.fetchSeq && !IsLive(s, r)
    ensures !IsLive(After(s, run), r)
    decreases run
  {
    if run != [] {
      var n := Step(s, run[0]);
      assert r.ticket <= n.fetchSeq && !IsLive(n, r);
      NeverLiveAgain(n, run[1..], r);
    }
  }

  /** One step of a live append: superseded or answered, reset, or left as it was. */
  lemma LiveStep(s: State, e: Event, r: Request)
    requires Inv(s) && Enabled(s, e) && IsLive(s, r) && r.AppendRequest?
    ensures var n := Step(s, e);
            && n.fetchSeq >= r.ticket
            && (IsLive(n, r) ==> n.entries == if e == Reset then [] else s.entries)
  {
    hide Fresh, Ids, Merged, AppendTicket;
  }

  /** One step that issues the append: it captures the entries, and nothing else of the kind. */
  lemma IssueStep(s: State, e: Event, r: Request)
    requires Inv(s) && r !in s.pending && r.AppendRequest? && r in Step(s, e).pending
    ensures var n := Step(s, e);
            n.entries == r.captured && r.ticket == n.fetchSeq
  {
    hide Fresh, Ids, Merged;
  }

  /** While an append is live the entries are what it captured, or nothing after a reset. */
  lemma {:induction false} LiveAppendEntries(s: State, run: seq<Event>, r: Request)
    requires Inv(s) && ValidRun(s, run) && r.AppendRequest? && IsLive(After(s, run), r)
    ensures After(s, run).entries ==
              if ResetSince(s, run, r) then [] else if r in s.pending then s.entries else r.captured
    ensures r in s.pending ==> IsLive(s, r)
    decreases run
  {
    if r in s.pending && !IsLive(s, r) {
      NeverLiveAgain(s, run, r);
    }
    if run != [] {
      var n := Step(s, run[0]);
      StepKeepsInv(s, run[0]);
      LiveAppendEntries(n, run[1..], r);
      if r in s.pending {
        LiveStep(s, run[0], r);
        if !IsLive(n, r) {
          NeverLiveAgain(n, run[1..], r);
        } else if run[0] == Reset {
          ResetEmpties(n, run[1..], r);
        }
      } else if r in n.pending {
        IssueStep(s, run[0], r);
      }
      hide Inv, Enabled;
    }
  }

  lemma ResetEmpties(n: State, run: seq<Event>, r: Request)
    requires n.entries == [] && r in n.pending
    requires After(n, run).entries == if ResetSince(n, run, r) then [] else n.entries
    ensures After(n, run).entries == []
  {}

  /** Filtering keeps all ids of a page exactly when none of them was known. */
  lemma FreshKeepsAll(data: seq<Entry>, known: set<nat>)
    ensures (forall e :: e in data ==> e.id in Ids(Fresh(data, known))) <==> forall e :: e in data ==> e.id !in known
  {
    FreshCovers(data, known);
    FreshAvoids(data, known);
    hide Fresh;
    if (forall e :: e in data ==> e.id in Ids(Fresh(data, known))) {
      forall e | e in data
        ensures e.id !in known
      {
        assert e.id in Ids(Fresh(data, known));
      }
    }
  }

  lemma {:induction false} FreshAvoids(data: seq<Entry>, known: set<nat>)
    ensures forall e :: e in Fresh(data, known) ==> e in data && e.id !in known
  {
    if data != [] {
      FreshAvoids(data[1..], known);
      assert forall e :: e in data <==> e == data[0] || e in data[1..];
    }
  }

  /** An arriving page of a live append extends exactly what the append captured, or, when a
      reset came between, the emptied list: `reset` does not discard a call in flight. The page
      is then still filtered by the captured ids, so the list holds every id of the page exactly
      when no reset came between or the append had captured none of them. */
  lemma LiveAppendLands(run: seq<Event>, request: Request, data: seq<Entry>, total: nat)
    requires ValidRun(INITIAL, run) && DistinctIds(data)
    requires request.AppendRequest? && IsLive(After(INITIAL, run), request)
    ensures var t := Step(After(INITIAL, run), Arrive(request, Page(data, total)));
            var found := if ResetSince(INITIAL, run, request) then [] else request.captured;
            t.entries == found + Fresh(data, Ids(request.captured)) && !t.loadingMore
    ensures var t := Step(After(INITIAL, run), Arrive(request, Page(data, total)));
            (forall e :: e in data ==> e.id in Ids(t.entries)) <==>
              !ResetSince(INITIAL, run, request) || forall e :: e in data ==> e.id !in Ids(request.captured)
  {
    var s := After(INITIAL, run);
    LiveAppendEntries(INITIAL, run, request);
    RunKeepsInv(INITIAL, run);
    PageLands(s, request, data, total);
    if ResetSince(INITIAL, run, request) {
      FreshKeepsAll(data, Ids(request.captured));
      assert [] + Fresh(data, Ids(request.captured)) == Fresh(data, Ids(request.captured));
    } else {
      assert DistinctIds(request.captured);
      AppendKeepsDistinct(request.captured, data);
    }
    hide *;
  }

  lemma PageLands(s: State, request: Request, data: seq<Entry>, total: nat)
    requires request.AppendRequest? && IsLive(s, request)
    ensures var t := Step(s, Arrive(request, Page(data, total)));
            t.entries == s.entries + Fresh(data, Ids(request.captured)) && !t.loadingMore
  {
    hide Fresh, Ids;
  }

  /** It happens: fetch a page, ask for more, reset, and the arriving page vanishes. */
  lemma ResetLosesRows(e: Entry, total: nat)
    requires total > 1
    ensures var request := AppendRequest(2, [e], 1, AUDIT_PAGE_SIZE);
            var run := [FetchList(None), Arrive(ListRequest(1), Page([e], total)), AppendNextPage, Reset,
                        Arrive(request, Page([e], total))];
            ValidRun(INITIAL, run) && After(INITIAL, run).entries == []
  {
    var request := AppendRequest(2, [e], 1, AUDIT_PAGE_SIZE);
    var page := Page([e], total);
    var s1 := Step(INITIAL, FetchList(None));
    var s2 := Step(s1, Arrive(ListRequest(1), page));
    var s3 := Step(s2, AppendNextPage);
    var s4 := Step(s3, Reset);
    assert s1.fetchSeq == 1 && s1.pending == {ListRequest(1)};
    assert s2 == State([e], total, INITIAL_FILTERS, false, false, None, 1, {});
    assert s3.fetchSeq == 2 && s3.pending == {request};
    assert s4 == INITIAL.(fetchSeq := 2, pending := {request});
    assert Fresh([e], Ids([e])) == [];
    assert Step(s4, Arrive(request, page)).entries == [];
    RunCons(s4, Arrive(request, page), []);
    RunCons(s3, Reset, [Arrive(request, page)]);
    RunCons(s2, AppendNextPage, [Reset, Arrive(request, page)]);
    RunCons(s1, Arrive(ListRequest(1), page), [AppendNextPage, Reset, Arrive(request, page)]);
    RunCons(INITIAL, FetchList(None), [Arrive(ListRequest(1), page), AppendNextPage, Reset, Arrive(request, page)]);
  }

  lemma RunCons(s: State, e: Event, rest: seq<Event>)
    ensures ValidRun(s, [e] + rest) <==> Enabled(s, e) && ValidRun(Step(s, e), rest)
    ensures After(s, [e] + rest) == After(Step(s, e), rest)
  {
    assert ([e] + rest)[1..] == rest;
  }

  // ---- The entries, read off the run ---------------------------------------------

  /** The calls that reached the server: every fetch, and the appends that found nothing
      loading and more to load. */
  function Calls(run: seq<Event>): nat {
    if run == [] then 0
    else
      var before := run[..|run| - 1];
      var s := After(INITIAL, before);
      match run[|run| - 1]
      case FetchList(_) => Calls(before) + 1
      case AppendNextPage =>
        Calls(before) + if !s.loading && !s.loadingMore && (s.total == 0 || |s.entries| < s.total) then 1 else 0
      case _ => Calls(before)
  }

  /** A page lands if no call was made after the one it answers. */
  predicate Lands(before: seq<Event>, e: Event) {
    e.Arrive? && e.response.Page? && e.request.ticket == Calls(before)
  }

  /** What the run lists: the last list page landed since a reset, followed by the rows that
      each append landed since found new. */
  function Listed(run: seq<Event>): seq<Entry> {
    if run == [] then []
    else
      var before, e := run[..|run| - 1], run[|run| - 1];
      if e == Reset then []
      else if !Lands(before, e) then Listed(before)
      else if e.request.ListRequest? then e.response.data
      else Listed(before) + Fresh(e.response.data, Ids(e.request.captured))
  }

  lemma {:induction false} AfterConcat(s: State, a: seq<Event>, b: seq<Event>)
    ensures After(s, a + b) == After(After(s, a), b)
    decreases a
  {
    hide Step;
    if a == [] {
      assert a + b == b;
    } else {
      assert (a + b)[1..] == a[1..] + b;
      AfterConcat(Step(s, a[0]), a[1..], b);
    }
  }

  lemma AfterLast(run: seq<Event>)
    requires run != []
    ensures After(INITIAL, run) == Step(After(INITIAL, run[..|run| - 1]), run[|run| - 1])
  {
    hide Step;
    var before, last := run[..|run| - 1], run[|run| - 1];
    assert run == before + [last] && [last][1..] == [];
    AfterConcat(INITIAL, before, [last]);
    assert After(After(INITIAL, before), [last]) == Step(After(INITIAL, before), last);
  }

  /** Over every run the store shows what the run lists. */
  lemma {:induction false} EntriesAreHistory(run: seq<Event>)
    ensures After(INITIAL, run).entries == Listed(run)
    ensures After(INITIAL, run).fetchSeq == Calls(run)
  {
    if run != [] {
      EntriesAreHistory(run[..|run| - 1]);
      AfterLast(run);
      hide After, Fresh, Ids, Merged, AppendTicket;
    }
  }

  /** What an append keeps of a page: the rows with unknown ids, in page order. */
  lemma {:induction false} FreshFilters(a: seq<Entry>, b: seq<Entry>, e: Entry, known: set<nat>)
    ensures Fresh(a + b, known) == Fresh(a, known) + Fresh(b, known)
    ensures Fresh([e], known) == if e.id in known then [] else [e]
  {
    if a == [] {
      assert a + b == b;
    } else {
      assert (a + b)[1..] == a[1..] + b;
      FreshFilters(a[1..], b, e, known);
    }
    assert [e][1..] == [];
  }

  /** The page of a list request no later call has superseded replaces whatever was shown, with
      its total, and ends the loading; its failure ends it too and keeps the rows. */
  lemma LiveListLands(run: seq<Event>, request: Request, data: seq<Entry>, total: nat, message: string)
    requires request.ListRequest? && request.ticket == Calls(run)
    ensures var t := Step(After(INITIAL, run), Arrive(request, Page(data, total)));
            t.entries == data && t.total == total && !t.loading
    ensures var s, t := After(INITIAL, run), Step(After(INITIAL, run), Arrive(request, Failed(message)));
            t.entries == s.entries && t.total == s.total && !t.loading && t.error == Some(message)
  {
    EntriesAreHistory(run);
    hide After, Calls, Fresh, Ids;
  }

  /** The counterpart for an append: its page's total counts, its failure keeps the rows, and
      both end the loading of more. */
  lemma LiveAppendSettles(run: seq<Event>, request: Request, data: seq<Entry>, total: nat, message: string)
    requires request.AppendRequest? && request.ticket == Calls(run)
    ensures var t := Step(After(INITIAL, run), Arrive(request, Page(data, total)));
            t.total == total && !t.loadingMore
    ensures var s, t := After(INITIAL, run), Step(After(INITIAL, run), Arrive(request, Failed(message)));
            t.entries == s.entries && t.total == s.total && !t.loadingMore && t.error == Some(message)
  {
    EntriesAreHistory(run);
    hide After, Calls, Fresh, Ids;
  }

  /** A reset brings back the empty store with its default filters; calls in flight go on. */
  lemma ResetRestores(s: State)
    ensures var t := Step(s, Reset);
            && t.entries == [] && t.total == 0 && t.error == None && !t.loading && !t.loadingMore
            && t.filters == INITIAL.filters && t.filters.limit == Some(50)
            && t.pending == s.pending && t.fetchSeq == s.fetchSeq
  {}

  /** A fetch asks from the start with the filters given, or else those in force, at the default
      page size where they name none; it keeps the rows on show while it loads. */
  lemma FetchAsks(s: State, given: Option<Filters>)
    ensures var t := Step(s, FetchList(given));
            var wanted := if given.Some? then given.value else s.filters;
            && t.filters.criteria == wanted.criteria
            && t.filters.limit == Some(if wanted.limit.Some? then wanted.limit.value else 50)
            && t.entries == s.entries && t.total == s.total && t.loading && t.error == None
            && t.pending == s.pending + {ListRequest(t.fetchSeq)}
  {}

  /** An append asks for the page that starts where the shown rows end, unless something loads
      or all rows are shown; then it does nothing. */
  lemma AppendAsksForNext(s: State)
    ensures var t := Step(s, AppendNextPage);
            if !s.loading && !s.loadingMore && (s.total == 0 || |s.entries| < s.total) then
              && t.loadingMore && t.error == None && t.entries == s.entries && t.fetchSeq == s.fetchSeq + 1
              && t.pending == s.pending + {AppendRequest(t.fetchSeq, s.entries, |s.entries|,
                                             if s.filters.limit.Some? then s.filters.limit.value else 50)}
            else t == s
  {}

  // ---- When "load older" stays stuck -------------------------------------------

  ghost predicate HasLiveAppend(s: State) {
    exists r :: r in s.pending && r.AppendRequest? && r.ticket == s.fetchSeq
  }

  ghost predicate NoReset(run: seq<Event>) {
    forall i :: 0 <= i < |run| ==> run[i] != Reset
  }

  /** `loadingMore` without a live append never clears again short of a reset: the response
      that would clear it is discarded, and no later append gets past the guard. */
  lemma {:induction false} StuckUntilReset(s: State, run: seq<Event>)
    requires Inv(s) && ValidRun(s, run) && s.loadingMore && !HasLiveAppend(s) && NoReset(run)
    ensures After(s, run).loadingMore && !HasLiveAppend(After(s, run))
    decreases run
  {
    if run != [] {
      var t := Step(s, run[0]);
      StepKeepsInv(s, run[0]);
      assert t.loadingMore && !HasLiveAppend(t) by {
        assert forall r :: r in t.pending && r.AppendRequest? ==> r in s.pending;
      }
      StuckUntilReset(t, run[1..]);
    }
  }

  /** The store gets there: a fetch overtaking an append in flight leaves it stuck. */
  lemma OvertakenAppendSticks(s: State, filters: Option<Filters>)
    requires Inv(s) && !AppendBlocked(s)
    ensures var t := Step(Step(s, AppendNextPage), FetchList(filters));
            t.loadingMore && !HasLiveAppend(t) && Step(t, AppendNextPage) == t
  {}

  ghost predicate CanClear(s: State, run: seq<Event>) {
    ValidRun(s, run) && NoReset(run) && !After(s, run).loadingMore
  }

  /** In every reachable state, a set `loadingMore` can still clear without a reset exactly
      when an append that is not superseded is in flight. */
  lemma ClearsExactlyWhenLive(before: seq<Event>)
    requires ValidRun(INITIAL, before) && After(INITIAL, before).loadingMore
    ensures var s := After(INITIAL, before);
            HasLiveAppend(s) <==> exists run :: CanClear(s, run)
  {
    var s := After(INITIAL, before);
    RunKeepsInv(INITIAL, before);
    if HasLiveAppend(s) {
      var r :| r in s.pending && r.AppendRequest? && r.ticket == s.fetchSeq;
      var answer := [Arrive(r, Failed(""))];
      var t := Step(s, answer[0]);
      assert answer[1..] == [] && ValidRun(t, answer[1..]) && After(t, answer[1..]) == t;
      assert CanClear(s, answer);
    } else {
      forall run | ValidRun(s, run) && NoReset(run)
        ensures After(s, run).loadingMore
      {
        StuckUntilReset(s, run);
      }
    }
  }
}
