/**
 * The realtime event bus over one `EventSource` (src/sse/client.ts), with the browser's
 * side of section 9.2 of the HTML Standard: sources, their ready state and DOM listeners.
 */
module Sse {
  import opened Wrappers

  type Name = nat
  type Handler = nat

  /** A DOM listener closure: its event name and the attachment that created it. */
  datatype Listener = Listener(name: Name, serial: nat)

  /** An `EventSource` as the browser holds it: closed or not, and its listeners by name. */
  datatype Source = Source(closed: bool, dom: map<Name, seq<Listener>>)

  /** `sources` are all sources ever created; the other fields are the module's variables. */
  datatype State = State(
    sources: seq<Source>, source: Option<nat>, handlersByEvent: map<Name, seq<Handler>>,
    listenersByEvent: map<Name, Listener>, serial: nat)

  const INITIAL: State := State([], None, map[], map[], 0)

  /** Module calls, and what the browser does on its own: a source goes CLOSED, and an
      `error` event runs the error listener (also while the source merely reconnects). */
  datatype Op =
    | Subscribe(name: Name, handler: Handler)
    | Unsubscribe(name: Name, handler: Handler)
    | Close(at: nat)
    | ErrorEvent

  predicate IsLive(s: State) {
    s.source.Some? && s.source.value < |s.sources| && !s.sources[s.source.value].closed
  }

  // ---- One step as a function of the state -----------------------------------

  /** `set.add(handler)`, creating the set for a new name. */
  function Added(handlers: map<Name, seq<Handler>>, name: Name, h: Handler): map<Name, seq<Handler>> {
    if name !in handlers then handlers[name := [h]]
    else if h in handlers[name] then handlers
    else handlers[name := handlers[name] + [h]]
  }

  function Without<T(==, !new)>(s: seq<T>, x: T): (r: seq<T>)
    ensures forall y :: y in r <==> y in s && y != x
  {
    if s == [] then [] else (if s[0] == x then [] else [s[0]]) + Without(s[1..], x)
  }

  function DomAdd(source: Source, listener: Listener): Source {
    var known := if listener.name in source.dom then source.dom[listener.name] else [];
    source.(dom := source.dom[listener.name := known + [listener]])
  }

  function DomRemove(source: Source, listener: Listener): Source {
    if listener.name !in source.dom then source
    else
      var rest := Without(source.dom[listener.name], listener);
      source.(dom := if rest == [] then source.dom - {listener.name} else source.dom[listener.name := rest])
  }

  /** A fresh source, with a listener for every subscribed name not tracked yet; a dead
      source's tracked listeners are forgotten first. */
  function Opened(s: State): State {
    var kept: map<Name, Listener> := if s.source.Some? then map[] else s.listenersByEvent;
    var added := Stamps(s.handlersByEvent.Keys, kept, s.serial);
    s.(sources := s.sources + [Source(false, Lists(added))],
       source := Some(|s.sources|), listenersByEvent := kept + added, serial := s.serial + 1)
  }

  function Stamps(names: set<Name>, kept: map<Name, Listener>, serial: nat): map<Name, Listener> {
    map n | n in names && n !in kept :: Listener(n, serial)
  }

  function Lists(added: map<Name, Listener>): map<Name, seq<Listener>> {
    map n | n in added :: [added[n]]
  }

  lemma StampNext(names: set<Name>, name: Name, kept: map<Name, Listener>, serial: nat)
    ensures name in kept ==> Stamps(names + {name}, kept, serial) == Stamps(names, kept, serial)
    ensures name !in kept ==>
              var stamped := Stamps(names, kept, serial)[name := Listener(name, serial)];
              && Stamps(names + {name}, kept, serial) == stamped
              && kept + stamped == (kept + Stamps(names, kept, serial))[name := Listener(name, serial)]
              && Lists(stamped) == Lists(Stamps(names, kept, serial))[name := [Listener(name, serial)]]
  {}

  function Ensured(s: State): State {
    if IsLive(s) then s else Opened(s)
  }

  function Attached(s: State, name: Name): State
    requires s.source.Some? && s.source.value < |s.sources|
  {
    if name in s.listenersByEvent then s
    else
      var i, listener := s.source.value, Listener(name, s.serial);
      s.(sources := s.sources[i := DomAdd(s.sources[i], listener)],
         listenersByEvent := s.listenersByEvent[name := listener], serial := s.serial + 1)
  }

  function SourceClosed(source: Source): Source {
    source.(closed := true)
  }

  function DropListener(s: State, name: Name): State {
    var detached :=
      if name in s.listenersByEvent && s.source.Some? && s.source.value < |s.sources| then
        s.(sources := s.sources[s.source.value := DomRemove(s.sources[s.source.value], s.listenersByEvent[name])])
      else s;
    detached.(listenersByEvent := s.listenersByEvent - {name})
  }

  function TornDown(s: State): State {
    if s.handlersByEvent != map[] || s.source.None? || s.source.value >= |s.sources| then s
    else
      var i := s.source.value;
      s.(sources := s.sources[i := Source(true, AllRemoved(s.sources[i].dom, s.listenersByEvent))],
         listenersByEvent := map[], source := None)
  }

  /** `removeEventListener` for every tracked listener. */
  function AllRemoved(dom: map<Name, seq<Listener>>, tracked: map<Name, Listener>): map<Name, seq<Listener>> {
    map n | n in dom && (n in tracked ==> Without(dom[n], tracked[n]) != []) ::
      if n in tracked then Without(dom[n], tracked[n]) else dom[n]
  }

  function Step(s: State, op: Op): State {
    match op
    case Subscribe(name, h) =>
      Attached(Ensured(s.(handlersByEvent := Added(s.handlersByEvent, name, h))), name)
    case Unsubscribe(name, h) =>
      if name !in s.handlersByEvent then s
      else
        var rest := Without(s.handlersByEvent[name], h);
        TornDown(
          if rest == [] then DropListener(s.(handlersByEvent := s.handlersByEvent - {name}), name)
          else s.(handlersByEvent := s.handlersByEvent[name := rest]))
    case Close(at) =>
      if at < |s.sources| then s.(sources := s.sources[at := SourceClosed(s.sources[at])]) else s
    case ErrorEvent =>
      if s.source.Some? && s.source.value < |s.sources| && s.sources[s.source.value].closed
      then s.(source := None, listenersByEvent := map[])
      else s
  }

  function RunOps(s: State, ops: seq<Op>): State
    decreases ops
  {
    if ops == [] then s else RunOps(Step(s, ops[0]), ops[1..])
  }

  /** The handlers a frame named `name` on source `at` reaches: for each DOM listener of the
      source under that name, the handler set as it stands at dispatch. */
  function FrameCalls(s: State, at: nat, name: Name): seq<Handler> {
    if at < |s.sources| && !s.sources[at].closed && name in s.sources[at].dom
    then Repeated(if name in s.handlersByEvent then s.handlersByEvent[name] else [], |s.sources[at].dom[name]|)
    else []
  }

  function Repeated<T>(s: seq<T>, n: nat): seq<T> {
    if n == 0 then [] else s + Repeated(s, n - 1)
  }

  // ---- The invariant ------------------------------------------------------------

  ghost predicate NoDuplicates<T(!new)>(s: seq<T>) {
    forall i, j :: 0 <= i < j < |s| ==> s[i] != s[j]
  }

  /** At most the current source is open, and none when no handler is left; on a live source
      exactly the subscribed names have a listener, one each. */
  ghost predicate Inv(s: State) {
    && (s.source.Some? ==> s.source.value < |s.sources|)
    && (forall i :: 0 <= i < |s.sources| && !s.sources[i].closed ==> s.source == Some(i))
    && (s.handlersByEvent == map[] ==> s.source.None?)
    && (s.source.None? ==> s.listenersByEvent == map[])
    && ProperSets(s.handlersByEvent)
    && (forall n :: n in s.listenersByEvent ==> s.listenersByEvent[n].name == n)
    && (IsLive(s) ==> Mirrors(s, s.sources[s.source.value].dom))
  }

  ghost predicate ProperSets(handlers: map<Name, seq<Handler>>) {
    forall n :: n in handlers ==> handlers[n] != [] && NoDuplicates(handlers[n])
  }

  ghost predicate Mirrors(s: State, dom: map<Name, seq<Listener>>) {
    && s.listenersByEvent.Keys == s.handlersByEvent.Keys == dom.Keys
    && forall n :: n in dom ==> dom[n] == [s.listenersByEvent[n]]
  }

  lemma {:induction false} WithoutKeepsDistinct<T(!new)>(s: seq<T>, x: T)
    requires NoDuplicates(s)
    ensures NoDuplicates(Without(s, x))
  {
    if s != [] {
      WithoutKeepsDistinct(s[1..], x);
      var rest := Without(s[1..], x);
      forall i | 0 <= i < |rest|
        ensures rest[i] != s[0]
      {
        assert rest[i] in s[1..];
      }
    }
  }

  lemma AddedIsProper(handlers: map<Name, seq<Handler>>, name: Name, h: Handler)
    requires ProperSets(handlers)
    ensures var a := Added(handlers, name, h);
            ProperSets(a) && a.Keys == handlers.Keys + {name} && h in a[name]
  {}

  /** Subscribing on a live source: at most one listener is attached, for a new name. */
  lemma AttachKeepsInv(s: State, a: State, name: Name)
    requires Inv(s) && IsLive(s)
    requires a == s.(handlersByEvent := a.handlersByEvent)
    requires ProperSets(a.handlersByEvent) && a.handlersByEvent.Keys == s.handlersByEvent.Keys + {name}
    ensures Inv(Attached(a, name)) && IsLive(Attached(a, name))
  {
    hide ProperSets;
    assert name in a.handlersByEvent;
    if name !in s.listenersByEvent {
      var i, listener := s.source.value, Listener(name, s.serial);
      assert DomAdd(s.sources[i], listener).dom == s.sources[i].dom[name := [listener]] by {
        assert [] + [listener] == [listener];
      }
    }
  }

  /** Subscribing without a live source opens one that mirrors all subscribed names. */
  lemma OpenKeepsInv(s: State, a: State, name: Name)
    requires Inv(s) && !IsLive(s)
    requires a == s.(handlersByEvent := a.handlersByEvent)
    requires ProperSets(a.handlersByEvent) && name in a.handlersByEvent
    ensures Inv(Opened(a)) && IsLive(Opened(a)) && Attached(Opened(a), name) == Opened(a)
  {
    hide ProperSets;
    assert name in Opened(a).listenersByEvent;
  }

  lemma SubscribeKeepsInv(s: State, name: Name, h: Handler)
    requires Inv(s)
    ensures var t := Step(s, Subscribe(name, h));
            Inv(t) && IsLive(t) && name in t.handlersByEvent && h in t.handlersByEvent[name]
  {
    AddedIsProper(s.handlersByEvent, name, h);
    var a := s.(handlersByEvent := Added(s.handlersByEvent, name, h));
    if IsLive(s) {
      AttachKeepsInv(s, a, name);
    } else {
      OpenKeepsInv(s, a, name);
    }
    hide Inv, Added, Opened;
  }

  lemma UnsubscribeKeepsInv(s: State, name: Name, h: Handler)
    requires Inv(s)
    ensures Inv(Step(s, Unsubscribe(name, h)))
  {
    if name in s.handlersByEvent {
      var rest := Without(s.handlersByEvent[name], h);
      WithoutKeepsDistinct(s.handlersByEvent[name], h);
      if rest == [] {
        var a := s.(handlersByEvent := s.handlersByEvent - {name});
        var b := DropListener(a, name);
        if IsLive(s) {
          assert Without([s.listenersByEvent[name]], s.listenersByEvent[name]) == [];
        }
        assert IsLive(b) ==> Mirrors(b, b.sources[b.source.value].dom);
      }
    }
  }

  lemma StepKeepsInv(s: State, op: Op)
    requires Inv(s)
    ensures Inv(Step(s, op))
  {
    match op {
      case Subscribe(name, h) => SubscribeKeepsInv(s, name, h);
      case Unsubscribe(name, h) => UnsubscribeKeepsInv(s, name, h);
      case Close(_) =>
      case ErrorEvent =>
    }
  }

  lemma {:induction false} RunKeepsInv(s: State, ops: seq<Op>)
    requires Inv(s)
    ensures Inv(RunOps(s, ops))
    decreases ops
  {
    if ops != [] {
      StepKeepsInv(s, ops[0]);
      RunKeepsInv(Step(s, ops[0]), ops[1..]);
    }
  }

  // ---- The handlers, read off the run ------------------------------------------------

  /** The handlers subscribed under a name and not unsubscribed since, in order of addition. */
  function Registered(ops: seq<Op>, name: Name): seq<Handler> {
    if ops == [] then []
    else
      var before := Registered(ops[..|ops| - 1], name);
      match ops[|ops| - 1]
      case Subscribe(n, h) => if n == name && h !in before then before + [h] else before
      case Unsubscribe(n, h) => if n == name then Dropped(before, h) else before
      case _ => before
  }

  /** The list without the handler. */
  function Dropped(handlers: seq<Handler>, h: Handler): seq<Handler> {
    if h !in handlers then handlers
    else
      var last := |handlers| - 1;
      if handlers[last] == h then Dropped(handlers[..last], h) else Dropped(handlers[..last], h) + [handlers[last]]
  }

  lemma {:induction false} DroppedIsGone(s: seq<Handler>, g: Handler)
    requires NoDuplicates(s)
    ensures NoDuplicates(Dropped(s, g)) && forall h :: h in Dropped(s, g) <==> h in s && h != g
  {
    if g in s {
      var last := |s| - 1;
      DroppedIsGone(s[..last], g);
      assert s[last] !in s[..last];
      assert forall h :: h in s <==> h in s[..last] || h == s[last];
    }
  }

  lemma {:induction false} WithoutConcat(a: seq<Handler>, b: seq<Handler>, x: Handler)
    ensures Without(a + b, x) == Without(a, x) + Without(b, x)
  {
    if a == [] {
      assert a + b == b;
    } else {
      assert (a + b)[1..] == a[1..] + b;
      WithoutConcat(a[1..], b, x);
    }
  }

  lemma {:induction false} WithoutAbsent(s: seq<Handler>, x: Handler)
    requires x !in s
    ensures Without(s, x) == s
  {
    if s != [] {
      WithoutAbsent(s[1..], x);
    }
  }

  lemma {:induction false} DroppedIsWithout(s: seq<Handler>, x: Handler)
    ensures Dropped(s, x) == Without(s, x)
  {
    if x !in s {
      WithoutAbsent(s, x);
    } else {
      var last := |s| - 1;
      DroppedIsWithout(s[..last], x);
      WithoutConcat(s[..last], [s[last]], x);
      assert s[..last] + [s[last]] == s;
    }
  }

  predicate NotDroppedAfter(ops: seq<Op>, i: nat, name: Name, h: Handler) {
    forall j :: i < j < |ops| ==> ops[j] != Unsubscribe(name, h)
  }

  ghost predicate IsRegistered(ops: seq<Op>, name: Name, h: Handler) {
    exists i :: 0 <= i < |ops| && ops[i] == Subscribe(name, h) && NotDroppedAfter(ops, i, name, h)
  }

  lemma RegisteredStep(ops: seq<Op>, name: Name, h: Handler)
    requires ops != []
    ensures var before, op := ops[..|ops| - 1], ops[|ops| - 1];
            IsRegistered(ops, name, h) <==>
              op == Subscribe(name, h) || (IsRegistered(before, name, h) && op != Unsubscribe(name, h))
  {
    var last := |ops| - 1;
    var before := ops[..last];
    if IsRegistered(ops, name, h) && ops[last] != Subscribe(name, h) {
      var i :| 0 <= i < |ops| && ops[i] == Subscribe(name, h) && NotDroppedAfter(ops, i, name, h);
      assert before[i] == Subscribe(name, h) && NotDroppedAfter(before, i, name, h);
    }
    if IsRegistered(before, name, h) && ops[last] != Unsubscribe(name, h) {
      var i :| 0 <= i < last && before[i] == Subscribe(name, h) && NotDroppedAfter(before, i, name, h);
      forall j | i < j < |ops|
        ensures ops[j] != Unsubscribe(name, h)
      {
        assert j < last ==> before[j] == ops[j];
      }
      assert ops[i] == Subscribe(name, h) && NotDroppedAfter(ops, i, name, h);
    }
    if ops[last] == Subscribe(name, h) {
      assert NotDroppedAfter(ops, last, name, h);
    }
  }

  /** A handler is registered exactly if some subscription of it has no unsubscription after,
      and then once. */
  lemma {:induction false} RegisteredMeaning(ops: seq<Op>, name: Name)
    ensures NoDuplicates(Registered(ops, name))
    ensures forall h :: h in Registered(ops, name) <==> IsRegistered(ops, name, h)
  {
    if ops != [] {
      var before := ops[..|ops| - 1];
      RegisteredMeaning(before, name);
      forall h
        ensures IsRegistered(ops, name, h) <==>
                  ops[|ops| - 1] == Subscribe(name, h)
                  || (IsRegistered(before, name, h) && ops[|ops| - 1] != Unsubscribe(name, h))
      {
        RegisteredStep(ops, name, h);
      }
      if ops[|ops| - 1].Unsubscribe? {
        DroppedIsGone(Registered(before, name), ops[|ops| - 1].handler);
      }
      hide IsRegistered, Dropped;
    }
  }

  function HandlersOf(s: State, name: Name): seq<Handler> {
    if name in s.handlersByEvent then s.handlersByEvent[name] else []
  }

  /** Sources and listeners come and go without touching the handlers. */
  lemma WiringKeepsHandlers(s: State, name: Name)
    ensures Ensured(s).handlersByEvent == TornDown(s).handlersByEvent == s.handlersByEvent
    ensures DropListener(s, name).handlersByEvent == s.handlersByEvent
    ensures s.source.Some? && s.source.value < |s.sources| ==> Attached(s, name).handlersByEvent == s.handlersByEvent
  {
    hide Stamps, Lists, DomAdd, DomRemove, SourceClosed;
  }

  lemma SubscribeHandlers(s: State, n: Name, h: Handler, name: Name)
    ensures HandlersOf(Step(s, Subscribe(n, h)), name) ==
              var before := HandlersOf(s, name);
              if n == name && h !in before then before + [h] else before
  {
    var a := s.(handlersByEvent := Added(s.handlersByEvent, n, h));
    WiringKeepsHandlers(a, n);
    WiringKeepsHandlers(Ensured(a), n);
    assert Step(s, Subscribe(n, h)) == Attached(Ensured(a), n);
    hide Ensured, Attached;
  }

  lemma UnsubscribeHandlers(s: State, n: Name, h: Handler, name: Name)
    ensures HandlersOf(Step(s, Unsubscribe(n, h)), name) ==
              var before := HandlersOf(s, name);
              if n == name then Dropped(before, h) else before
  {
    DroppedIsWithout(HandlersOf(s, n), h);
    if n in s.handlersByEvent {
      var rest := Without(s.handlersByEvent[n], h);
      var a := if rest == [] then s.(handlersByEvent := s.handlersByEvent - {n})
               else s.(handlersByEvent := s.handlersByEvent[n := rest]);
      var b := if rest == [] then DropListener(a, n) else a;
      WiringKeepsHandlers(a, n);
      WiringKeepsHandlers(b, n);
      assert Step(s, Unsubscribe(n, h)) == TornDown(b);
    }
    hide TornDown, DropListener, Without, Dropped;
  }

  lemma StepHandlers(s: State, op: Op, name: Name)
    ensures HandlersOf(Step(s, op), name) ==
              var before := HandlersOf(s, name);
              match op
              case Subscribe(n, h) => if n == name && h !in before then before + [h] else before
              case Unsubscribe(n, h) => if n == name then Dropped(before, h) else before
              case _ => before
  {
    match op
    case Subscribe(n, h) => SubscribeHandlers(s, n, h, name);
    case Unsubscribe(n, h) => UnsubscribeHandlers(s, n, h, name);
    case _ =>
  }

  /** Over every run the handlers of each name are those its history registers. */
  lemma {:induction false} HandlersAreHistory(ops: seq<Op>, name: Name)
    ensures HandlersOf(RunOps(INITIAL, ops), name) == Registered(ops, name)
  {
    if ops != [] {
      var before, op := ops[..|ops| - 1], ops[|ops| - 1];
      HandlersAreHistory(before, name);
      StepHandlers(RunOps(INITIAL, before), op, name);
      RunOpsConcat(INITIAL, before, [op]);
      assert before + [op] == ops;
      OneOp(RunOps(INITIAL, before), op);
      hide Step, RunOps, HandlersOf, Inv, Dropped;
    }
  }

  lemma OneOp(s: State, op: Op)
    ensures RunOps(s, [op]) == Step(s, op)
  {
    assert [op][1..] == [];
  }

  /** In every run: at most one source is not closed, and it is the module's; none is when no
      handler is left; on a live source each name with a handler has one DOM listener and no
      other name any; and a frame reaches each handler subscribed under its name and not
      unsubscribed since exactly once, in order of addition, and no other. */
  lemma BusStaysConsistent(ops: seq<Op>)
    ensures var s := RunOps(INITIAL, ops);
            && (forall i :: 0 <= i < |s.sources| && !s.sources[i].closed ==> s.source == Some(i))
            && ((forall n :: Registered(ops, n) == []) ==> forall i :: 0 <= i < |s.sources| ==> s.sources[i].closed)
            && (IsLive(s) ==>
                  forall n :: ListenerCount(s, n) == if Registered(ops, n) == [] then 0 else 1)
            && (forall at: nat, n ::
                  NoDuplicates(FrameCalls(s, at, n))
                  && FrameCalls(s, at, n) == if IsLive(s) && s.source == Some(at) then Registered(ops, n) else [])
  {
    var s := RunOps(INITIAL, ops);
    RunKeepsInv(INITIAL, ops);
    forall n
      ensures Registered(ops, n) == HandlersOf(s, n) && NoDuplicates(Registered(ops, n))
    {
      HandlersAreHistory(ops, n);
      RegisteredMeaning(ops, n);
    }
    hide RunOps, Registered;
    if forall n :: Registered(ops, n) == [] {
      NoHandlersLeft(s);
    }
    if IsLive(s) {
      forall n
        ensures ListenerCount(s, n) == if HandlersOf(s, n) == [] then 0 else 1
      {
        LiveFrame(s, n);
      }
    }
    forall at: nat, n
      ensures FrameCalls(s, at, n) == if IsLive(s) && s.source == Some(at) then HandlersOf(s, n) else []
      ensures NoDuplicates(FrameCalls(s, at, n))
    {
      assert NoDuplicates(Registered(ops, n));
      if IsLive(s) && s.source == Some(at) {
        LiveFrame(s, n);
      }
    }
  }

  lemma NoHandlersLeft(s: State)
    requires Inv(s) && forall n :: HandlersOf(s, n) == []
    ensures s.handlersByEvent == map[]
  {
    assert forall n :: n in s.handlersByEvent ==> HandlersOf(s, n) != [];
    assert s.handlersByEvent.Keys == {};
  }

  /** DOM listeners of the name on the live source. */
  function ListenerCount(s: State, name: Name): nat
    requires IsLive(s)
  {
    var dom := s.sources[s.source.value].dom;
    if name in dom then |dom[name]| else 0
  }

  /** Sources come and go only when needed: one is opened only by a subscription that finds no
      live one, and a live one stays the module's unless it closes or the last handler goes. */
  lemma SourcesOnDemand(s: State, op: Op)
    requires Inv(s)
    ensures |Step(s, op).sources| == |s.sources| + (if op.Subscribe? && !IsLive(s) then 1 else 0)
    ensures IsLive(s) && (op.Subscribe? || op.ErrorEvent?) ==> Step(s, op).source == s.source
    ensures IsLive(s) && op.Unsubscribe? && Step(s, op).handlersByEvent != map[] ==>
              Step(s, op).source == s.source && IsLive(Step(s, op))
    ensures op.ErrorEvent? && !IsLive(s) ==> Step(s, op).source == None
  {
    hide Without, DomAdd, Stamps, Lists, Added;
  }

  class SseClient {
    var sources: seq<Source>  // the browser's side: every source ever created
    var source: Option<nat>
    var handlersByEvent: map<Name, seq<Handler>>
    var listenersByEvent: map<Name, Listener>
    var serial: nat

    ghost function Abstract(): State
      reads this
    {
      State(sources, source, handlersByEvent, listenersByEvent, serial)
    }

    ghost predicate Valid()
      reads this
    {
      Inv(Abstract())
    }

    constructor ()
      ensures Abstract() == INITIAL && Valid()
    {
      sources, source, handlersByEvent, listenersByEvent, serial := [], None, map[], map[], 0;
    }

    method EnsureSource()
      requires source.Some? ==> source.value < |sources|
      modifies this
      ensures Abstract() == Ensured(old(Abstract()))
    {
      if source.Some? && !sources[source.value].closed {
        return;
      }
      if source.Some? {
        sources := sources[source.value := SourceClosed(sources[source.value])];
        assert sources == old(sources);
        listenersByEvent := map[];
      }
      ghost var kept := listenersByEvent;
      source := Some(|sources|);
      var dom: map<Name, seq<Listener>> := map[];
      ghost var done: set<Name> := {};
      var names := handlersByEvent.Keys;
      assert Stamps({}, kept, serial) == map[] && Lists(map[]) == map[];
      hide Stamps, Lists;
      while names != {}
        invariant done !! names && done + names == handlersByEvent.Keys
        invariant handlersByEvent == old(handlersByEvent) && sources == old(sources) && serial == old(serial)
        invariant source == Some(|sources|)
        invariant listenersByEvent == kept + Stamps(done, kept, serial)
        invariant Stamps(done, kept, serial).Keys <= done
        invariant dom == Lists(Stamps(done, kept, serial))
        decreases names
      {
        var name :| name in names;
        StampNext(done, name, kept, serial);
        if name !in listenersByEvent {
          dom := dom[name := [Listener(name, serial)]];
          listenersByEvent := listenersByEvent[name := Listener(name, serial)];
        }
        names := names - {name};
        done := done + {name};
      }
      sources := sources + [Source(false, dom)];
      serial := serial + 1;
    }

    method AttachDomListener(name: Name)
      requires source.Some? && source.value < |sources|
      modifies this
      ensures Abstract() == Attached(old(Abstract()), name)
    {
      if name in listenersByEvent {
        return;
      }
      var listener := Listener(name, serial);
      sources := sources[source.value := DomAdd(sources[source.value], listener)];
      listenersByEvent := listenersByEvent[name := listener];
      serial := serial + 1;
    }

    method TeardownIfIdle()
      requires source.Some? ==> source.value < |sources|
      modifies this
      ensures Abstract() == TornDown(old(Abstract()))
    {
      if handlersByEvent != map[] || source.None? {
        return;
      }
      var i := source.value;
      sources := sources[i := Source(true, AllRemoved(sources[i].dom, listenersByEvent))];
      listenersByEvent := map[];
      source := None;
    }

    method OnSseEvent(name: Name, handler: Handler)
      requires Valid()
      modifies this
      ensures Abstract() == Step(old(Abstract()), Subscribe(name, handler)) && Valid()
    {
      SubscribeKeepsInv(Abstract(), name, handler);
      handlersByEvent := Added(handlersByEvent, name, handler);
      EnsureSource();
      AttachDomListener(name);
    }

    /** The handle `onSseEvent` returns. */
    method Unsubscribe(name: Name, handler: Handler)
      requires Valid()
      modifies this
      ensures Abstract() == Step(old(Abstract()), Op.Unsubscribe(name, handler)) && Valid()
    {
      UnsubscribeKeepsInv(Abstract(), name, handler);
      if name !in handlersByEvent {
        return;
      }
      var rest := Without(handlersByEvent[name], handler);
      if rest == [] {
        handlersByEvent := handlersByEvent - {name};
        if name in listenersByEvent && source.Some? {
          sources := sources[source.value := DomRemove(sources[source.value], listenersByEvent[name])];
        }
        listenersByEvent := listenersByEvent - {name};
      } else {
        handlersByEvent := handlersByEvent[name := rest];
      }
      TeardownIfIdle();
    }

    /** The error listener. */
    method OnError()
      requires Valid()
      modifies this
      ensures Abstract() == Step(old(Abstract()), ErrorEvent) && Valid()
    {
      StepKeepsInv(Abstract(), ErrorEvent);
      if source.Some? && sources[source.value].closed {
        source := None;
        listenersByEvent := map[];
      }
    }

    /** The browser fails a connection for good. */
    method GoClosed(at: nat)
      requires Valid()
      modifies this
      ensures Abstract() == Step(old(Abstract()), Close(at)) && Valid()
    {
      StepKeepsInv(Abstract(), Close(at));
      if at < |sources| {
        sources := sources[at := SourceClosed(sources[at])];
      }
    }

    method Perform(op: Op)
      requires Valid()
      modifies this
      ensures Abstract() == Step(old(Abstract()), op) && Valid()
    {
      match op {
        case Subscribe(name, handler) => OnSseEvent(name, handler);
        case Unsubscribe(name, handler) => Unsubscribe(name, handler);
        case Close(at) => GoClosed(at);
        case ErrorEvent => OnError();
      }
    }

    /** A frame on the live source: the one DOM listener of its name fans out over a copy of
        the handler set. The k-th handler called behaves as `script[k]` says; one that throws is
        cut short itself, and the next is called all the same. */
    method Frame(name: Name, script: seq<Behaviour>) returns (calls: seq<Handler>)
      requires Valid() && IsLive(Abstract())
      modifies this
      ensures calls == FrameCalls(old(Abstract()), old(source.value), name)
      ensures Abstract() == RunOps(old(Abstract()), Performed(script, |calls|)) && Valid()
    {
      LiveFrame(Abstract(), name);
      if name in sources[source.value].dom {
        calls := FanOut(handlersByEvent[name], script);
      } else {
        calls := [];
      }
    }

    /** The DOM listener's loop over its copy of the handler set. */
    method FanOut(copy: seq<Handler>, script: seq<Behaviour>) returns (calls: seq<Handler>)
      requires Valid()
      modifies this
      ensures calls == copy
      ensures Abstract() == RunOps(old(Abstract()), Performed(script, |copy|)) && Valid()
    {
      hide *;
      ghost var start := Abstract();
      PerformedNone(start, script);
      calls := [];
      for k := 0 to |copy|
        invariant calls == copy[..k] && Valid()
        invariant Abstract() == RunOps(start, Performed(script, k))
      {
        PerformedNext(start, script, k);
        assert copy[..k + 1] == copy[..k] + [copy[k]];
        calls := calls + [copy[k]];
        Guarded(BehaviourAt(script, k));
      }
      assert copy[..|copy|] == copy;
    }

    /** The `try` around one handler: a throw ends the handler and goes no further. */
    method Guarded(behaviour: Behaviour)
      requires Valid()
      modifies this
      ensures Abstract() == RunOps(old(Abstract()), behaviour.Done()) && Valid()
    {
      hide Inv, RunOps, Behaviour.Done;
      var threw := RunHandler(behaviour);
      if threw {
        return;  // the empty `catch`
      }
    }

    /** A handler's own calls and whatever the browser does meanwhile, up to a throw. */
    method RunHandler(behaviour: Behaviour) returns (threw: bool)
      requires Valid()
      modifies this
      ensures Abstract() == RunOps(old(Abstract()), behaviour.Done()) && Valid()
      ensures threw <==> behaviour.throwsAt.Some? && behaviour.throwsAt.value <= |behaviour.ops|
    {
      hide Inv;
      ghost var start := Abstract();
      var ops := behaviour.ops;
      for j := 0 to |ops|
        invariant Valid()
        invariant behaviour.throwsAt.Some? ==> j <= behaviour.throwsAt.value
        invariant Abstract() == RunOps(start, ops[..j])
      {
        if behaviour.throwsAt == Some(j) {
          return true;
        }
        assert ops[..j + 1] == ops[..j] + [ops[j]];
        RunOpsConcat(start, ops[..j], [ops[j]]);
        assert RunOps(RunOps(start, ops[..j]), [ops[j]]) == Step(RunOps(start, ops[..j]), ops[j]) by {
          assert [ops[j]][1..] == [];
        }
        Perform(ops[j]);
      }
      assert ops[..|ops|] == ops;
      threw := behaviour.throwsAt == Some(|ops|);
    }
  }

  /** What one handler does: its operations in order, cut short where it throws. */
  datatype Behaviour = Behaviour(ops: seq<Op>, throwsAt: Option<nat>) {
    function Done(): seq<Op> {
      if throwsAt.Some? && throwsAt.value <= |ops| then ops[..throwsAt.value] else ops
    }
  }

  lemma LiveFrame(s: State, name: Name)
    requires Inv(s) && IsLive(s)
    ensures name in s.sources[s.source.value].dom <==> name in s.handlersByEvent
    ensures name in s.handlersByEvent ==> |s.sources[s.source.value].dom[name]| == 1 && s.handlersByEvent[name] != []
    ensures FrameCalls(s, s.source.value, name)
              == if name in s.handlersByEvent then s.handlersByEvent[name] else []
  {
    if name in s.handlersByEvent {
      var handlers := s.handlersByEvent[name];
      assert Repeated(handlers, 1) == handlers + Repeated(handlers, 0) == handlers;
    }
  }

  function BehaviourAt(script: seq<Behaviour>, k: nat): Behaviour {
    if k < |script| then script[k] else Behaviour([], None)
  }

  lemma PerformedNone(s: State, script: seq<Behaviour>)
    ensures RunOps(s, Performed(script, 0)) == s
  {
  }

  lemma PerformedNext(s: State, script: seq<Behaviour>, k: nat)
    ensures RunOps(s, Performed(script, k + 1))
            == RunOps(RunOps(s, Performed(script, k)), BehaviourAt(script, k).Done())
  {
    RunOpsConcat(s, Performed(script, k), BehaviourAt(script, k).Done());
    hide RunOps;
  }

  /** The operations the first `n` handlers of a frame perform. */
  function Performed(script: seq<Behaviour>, n: nat): seq<Op> {
    if n == 0 then [] else Performed(script, n - 1) + BehaviourAt(script, n - 1).Done()
  }

  lemma {:induction false} RunOpsConcat(s: State, first: seq<Op>, second: seq<Op>)
    ensures RunOps(s, first + second) == RunOps(RunOps(s, first), second)
    decreases first
  {
    hide Step;
    if first == [] {
      assert [] + second == second;
    } else {
      assert (first + second)[1..] == first[1..] + second;
      RunOpsConcat(Step(s, first[0]), first[1..], second);
    }
  }
}
