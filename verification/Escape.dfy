/**
 * Escape-key dismissal: the token stack (src/hooks/escapeStack.ts) and the keydown listener
 * each surface pairs with its slot (src/hooks/useEscapeKey.ts, src/ui/common/useDialogA11y.ts).
 */
module Escape {
  import opened Wrappers

  type Token = nat
  type Handler = nat

  /** `listeners` are the window's keydown listeners in the order they were added, each named
      by its token; `handlerOf` is the handler a surface's ref holds now, absent for a dialog
      without an Escape handler; tokens below `next` have been handed out. */
  datatype State = State(
    stack: seq<Token>, listeners: seq<Token>, handlerOf: map<Token, Handler>, next: Token)

  const INITIAL: State := State([], [], map[], 0)

  datatype Op =
    | Mount(handler: Option<Handler>)
    | Unmount(token: Token)
    | Rerender(token: Token, handler: Option<Handler>)

  // ---- The registry, as the source's array operations ---------------------------

  function LastIndexOf(s: seq<Token>, t: Token): (i: int)
    ensures -1 <= i < |s|
    ensures i >= 0 ==> s[i] == t && t !in s[i + 1..]
    ensures i < 0 <==> t !in s
  {
    if s == [] then -1 else if s[|s| - 1] == t then |s| - 1 else LastIndexOf(s[..|s| - 1], t)
  }

  /** `splice(lastIndexOf(t), 1)`, a no-op for an absent token. */
  function Removed(s: seq<Token>, t: Token): seq<Token> {
    var i := LastIndexOf(s, t);
    if i == -1 then s else s[..i] + s[i + 1..]
  }

  predicate IsTop(s: seq<Token>, t: Token) {
    s != [] && s[|s| - 1] == t
  }

  function Bind(handlers: map<Token, Handler>, t: Token, handler: Option<Handler>): map<Token, Handler> {
    if handler.Some? then handlers[t := handler.value] else handlers - {t}
  }

  function Step(s: State, op: Op): State {
    match op
    case Mount(handler) =>
      State(s.stack + [s.next], s.listeners + [s.next], Bind(s.handlerOf, s.next, handler), s.next + 1)
    case Unmount(t) =>
      s.(listeners := Removed(s.listeners, t), stack := Removed(s.stack, t))
    case Rerender(t, handler) =>
      if t < s.next then s.(handlerOf := Bind(s.handlerOf, t, handler)) else s
  }

  function RunOps(s: State, ops: seq<Op>): State {
    if ops == [] then s else Step(RunOps(s, ops[..|ops| - 1]), ops[|ops| - 1])
  }

  /** Listener order is stack order, and tokens are unique. */
  ghost predicate Inv(s: State) {
    && s.listeners == s.stack
    && Distinct(s.stack)
    && (forall i :: 0 <= i < |s.stack| ==> s.stack[i] < s.next)
  }

  lemma StepKeepsInv(s: State, op: Op)
    requires Inv(s)
    ensures Inv(Step(s, op))
  {}

  lemma {:induction false} RunKeepsInv(s: State, ops: seq<Op>)
    requires Inv(s)
    ensures Inv(RunOps(s, ops))
  {
    if ops != [] {
      RunKeepsInv(s, ops[..|ops| - 1]);
      StepKeepsInv(RunOps(s, ops[..|ops| - 1]), ops[|ops| - 1]);
    }
  }

  /** The surfaces mounted and not yet unmounted, oldest first, read off the run alone. */
  function Present(ops: seq<Op>): seq<Token> {
    if ops == [] then []
    else
      var before := Present(ops[..|ops| - 1]);
      match ops[|ops| - 1]
      case Mount(_) => before + [Mounts(ops[..|ops| - 1])]
      case Unmount(t) => Erased(before, t)
      case Rerender(_, _) => before
  }

  function Mounts(ops: seq<Op>): nat {
    if ops == [] then 0 else Mounts(ops[..|ops| - 1]) + if ops[|ops| - 1].Mount? then 1 else 0
  }

  function Erased(s: seq<Token>, t: Token): seq<Token> {
    if s == [] then [] else (if s[0] == t then [] else [s[0]]) + Erased(s[1..], t)
  }

  ghost predicate Distinct(s: seq<Token>) {
    forall i, j :: 0 <= i < j < |s| ==> s[i] != s[j]
  }

  /** In a list of distinct tokens the last occurrence is the only one. */
  lemma OnlyIndex(s: seq<Token>, t: Token, i: nat)
    requires Distinct(s) && i < |s| && s[i] == t
    ensures LastIndexOf(s, t) == i
  {
    var k := LastIndexOf(s, t);
    hide LastIndexOf;
    assert s[k] == s[i];
  }

  /** Splicing from a list is splicing from its tail, unless the head goes. */
  lemma RemovedFromTail(s: seq<Token>, t: Token)
    requires Distinct(s) && s != [] && s[0] != t
    ensures Removed(s, t) == [s[0]] + Removed(s[1..], t)
  {
    var i := LastIndexOf(s[1..], t);
    if i >= 0 {
      assert s[i + 1] == s[1..][i];
      OnlyIndex(s, t, i + 1);
      hide LastIndexOf, Distinct;
      assert s[..i + 1] == [s[0]] + s[1..][..i];
      assert s[i + 2..] == s[1..][i + 1..];
    } else {
      hide Distinct;
      assert s == [s[0]] + s[1..];
      assert t !in s;
    }
  }

  lemma {:induction false} ErasedAbsent(s: seq<Token>, t: Token)
    requires t !in s
    ensures Erased(s, t) == s
  {
    if s != [] {
      ErasedAbsent(s[1..], t);
    }
  }

  lemma {:induction false} ErasedIsRemoved(s: seq<Token>, t: Token)
    requires Distinct(s)
    ensures Erased(s, t) == Removed(s, t)
  {
    if s != [] {
      assert Distinct(s[1..]);
      if s[0] == t {
        OnlyIndex(s, t, 0);
        assert t !in s[1..];
        ErasedAbsent(s[1..], t);
        assert s[..0] + s[1..] == s[1..];
      } else {
        RemovedFromTail(s, t);
        hide Removed;
        ErasedIsRemoved(s[1..], t);
      }
    }
  }

  /** The handler last given to a token by its mount or a later render. */
  function Latest(ops: seq<Op>, t: Token): Option<Handler> {
    if ops == [] then None
    else
      var before := ops[..|ops| - 1];
      match ops[|ops| - 1]
      case Mount(handler) => if t == Mounts(before) then handler else Latest(before, t)
      case Unmount(_) => Latest(before, t)
      case Rerender(u, handler) => if u == t && t < Mounts(before) then handler else Latest(before, t)
  }

  function Lookup(handlers: map<Token, Handler>, t: Token): Option<Handler> {
    if t in handlers then Some(handlers[t]) else None
  }

  /** The module's state is what the run's history says: the surfaces still present in mount
      order, each with its latest handler. */
  lemma {:induction false} StateIsHistory(ops: seq<Op>, t: Token)
    ensures var s := RunOps(INITIAL, ops);
            s.stack == s.listeners == Present(ops) && s.next == Mounts(ops)
            && Lookup(s.handlerOf, t) == Latest(ops, t)
  {
    if ops != [] {
      var before := ops[..|ops| - 1];
      StateIsHistory(before, t);
      RunKeepsInv(INITIAL, before);
      var op := ops[|ops| - 1];
      if op.Unmount? {
        ErasedIsRemoved(Present(before), op.token);
      }
      hide Removed, Erased;
    }
  }

  /** What one Escape press fires: the handler of the topmost surface, if it has one. */
  function Fires(s: State): seq<(Token, Handler)> {
    if s.stack == [] then []
    else
      var top := s.stack[|s.stack| - 1];
      if top in s.handlerOf then [(top, s.handlerOf[top])] else []
  }

  /** In every run one press fires exactly the latest handler of the latest surface still
      present; nothing else, and nothing at all only if that surface has no handler. */
  lemma PressFiresLatestPresent(ops: seq<Op>)
    ensures Fires(RunOps(INITIAL, ops)) ==
            if Present(ops) == [] then []
            else
              var top := Present(ops)[|Present(ops)| - 1];
              match Latest(ops, top) { case None => [] case Some(h) => [(top, h)] }
  {
    StateIsHistory(ops, if Present(ops) == [] then 0 else Present(ops)[|Present(ops)| - 1]);
  }

  // ---- The module and the dispatch ---------------------------------------------

  class EscapeRegistry {
    var stack: seq<Token>
    var listeners: seq<Token>
    var handlerOf: map<Token, Handler>
    var next: Token

    ghost function Abstract(): State
      reads this
    {
      State(stack, listeners, handlerOf, next)
    }

    constructor ()
      ensures Abstract() == INITIAL
    {
      stack, listeners, handlerOf, next := [], [], map[], 0;
    }

    method RegisterEscape() returns (token: Token)
      modifies this`stack, this`next
      ensures token == old(next) && next == token + 1 && stack == old(stack) + [token]
    {
      token := next;
      next := next + 1;
      stack := stack + [token];
    }

    method UnregisterEscape(token: Token)
      modifies this`stack
      ensures stack == Removed(old(stack), token)
    {
      var i := LastIndexOf(stack, token);
      if i != -1 {
        stack := stack[..i] + stack[i + 1..];
      }
    }

    /** The effect of `useEscapeKey` or `useDialogA11y` when its surface opens. */
    method OnMount(handler: Option<Handler>) returns (token: Token)
      modifies this
      ensures Abstract() == Step(old(Abstract()), Mount(handler))
    {
      token := RegisterEscape();
      listeners := listeners + [token];
      handlerOf := Bind(handlerOf, token, handler);
    }

    /** The effect's clean-up. */
    method OnUnmount(token: Token)
      modifies this
      ensures Abstract() == Step(old(Abstract()), Unmount(token))
    {
      listeners := Removed(listeners, token);
      UnregisterEscape(token);
    }

    /** The no-deps effect that refreshes the handler ref. */
    method OnRender(token: Token, handler: Option<Handler>)
      modifies this
      ensures Abstract() == Step(old(Abstract()), Rerender(token, handler))
    {
      if token < next {
        handlerOf := Bind(handlerOf, token, handler);
      }
    }

    method RunHandler(ops: seq<Op>)
      modifies this
      ensures Abstract() == RunOps(old(Abstract()), ops)
    {
      ghost var start := Abstract();
      for j := 0 to |ops|
        invariant Abstract() == RunOps(start, ops[..j])
      {
        assert ops[..j + 1][..j] == ops[..j];
        hide Step;
        match ops[j] {
          case Mount(handler) => var _ := OnMount(handler);
          case Unmount(token) => OnUnmount(token);
          case Rerender(token, handler) => OnRender(token, handler);
        }
      }
      assert ops[..|ops|] == ops;
    }

    /** The keydown listener of one surface; `script` is what its handler does. */
    method OnKeyDown(token: Token, script: seq<Op>) returns (fired: seq<(Token, Handler)>)
      modifies this
      ensures fired ==
                if IsTop(old(stack), token) && token in old(handlerOf) then [(token, old(handlerOf)[token])] else []
      ensures Abstract() == if fired == [] then old(Abstract()) else RunOps(old(Abstract()), script)
    {
      fired := [];
      if !IsTop(stack, token) {
        return;
      }
      if token in handlerOf {
        fired := [(token, handlerOf[token])];
        RunHandler(script);
      }
    }

    /** One Escape press: section 2.9 of the DOM Standard clones the listener list and skips
        listeners removed meanwhile. `script` is what a fired handler does synchronously. */
    method Press(script: seq<Op>) returns (fired: seq<(Token, Handler)>)
      requires Inv(Abstract())
      modifies this
      ensures fired == Fires(old(Abstract())) && |fired| <= 1
      ensures Abstract() == if fired == [] then old(Abstract()) else RunOps(old(Abstract()), script)
      ensures Inv(Abstract())
    {
      ghost var start := Abstract();
      RunKeepsInv(start, script);
      assert forall i :: 0 <= i < |listeners| ==>
        (IsTop(start.stack, listeners[i]) <==> i == |listeners| - 1) && listeners[i] in listeners;
      hide RunOps, Inv;
      var clone := listeners;
      fired := [];
      for i := 0 to |clone|
        invariant i < |clone| ==> Abstract() == start && fired == []
        invariant i == |clone| ==> fired == Fires(start)
        invariant i == |clone| ==> Abstract() == (if fired == [] then start else RunOps(start, script))
      {
        if clone[i] in listeners {
          var more := OnKeyDown(clone[i], script);
          fired := fired + more;
        }
      }
    }
  }
}
