/**
 * What a member installed by a merge does when it is called
 * (src/Mixin.js:208-235 and the asynchronous helpers at src/Mixin.js:242-253).
 * User-written functions are known only by identity; what they return is given
 * by a `Behaviour`. A call is described by the user functions it invokes, in
 * order, and what it returns.
 */
module Dispatch {
  import opened Wrappers
  import opened Values

  /** What the user function with a given identity returns for given arguments. */
  type Behaviour = (nat, seq<Value>) -> Value

  /**
   * The user functions a call invoked, in order, and its returned value;
   * `None` when the call ended in a `TypeError` (something that is not a
   * function was called).
   */
  datatype Trace = Trace(calls: seq<nat>, returned: Option<Value>)

  /**
   * Calling `f` with `args`. The awaited hooks run the same two steps in the
   * same order as the synchronous ones; their value is the one the returned
   * promise resolves to.
   */
  function Run(f: Value, args: seq<Value>, b: Behaviour): (t: Trace)
    ensures !IsFunction(f) ==> t == Trace([], None)
    decreases f
  {
    match f
    case Fn(id) => Trace([id], Some(b(id, args)))
    case Noop => Trace([], Some(Undefined))
    case Installed(w) =>
      (match w
       case Plain(frag) => Run(frag, args, b)
       case Over(frag, prev) =>
         // `prev.bind(this)` throws unless the previous implementation is a function
         if IsFunction(prev) then Run(frag, [prev] + args, b) else Trace([], None)
       case Before(frag, prev, _) =>
         var first := Run(frag, args, b);
         if first.returned.None? then first
         else
           var second := Run(prev, args, b);
           Trace(first.calls + second.calls, second.returned)
       case After(frag, prev, _) =>
         var first := Run(prev, args, b);
         if first.returned.None? then first
         else
           var second := Run(frag, args, b);
           Trace(first.calls + second.calls, if second.returned.None? then None else first.returned))
    case _ => Trace([], None)
  }

  /** A call that does not fail. */
  predicate Succeeds(f: Value, args: seq<Value>, b: Behaviour)
  {
    Run(f, args, b).returned.Some?
  }

  /**
   * A hook (either kind, synchronous or awaited) returns what the previous
   * implementation returns, runs the fragment and the previous implementation
   * each exactly once, the fragment first for a prepend and last for an append.
   */
  lemma HookOrder(frag: Value, prev: Value, awaited: bool, args: seq<Value>, b: Behaviour)
    requires Succeeds(frag, args, b) && Succeeds(prev, args, b)
    ensures var before := Run(Installed(Before(frag, prev, awaited)), args, b);
      before.calls == Run(frag, args, b).calls + Run(prev, args, b).calls
      && before.returned == Run(prev, args, b).returned
    ensures var after := Run(Installed(After(frag, prev, awaited)), args, b);
      after.calls == Run(prev, args, b).calls + Run(frag, args, b).calls
      && after.returned == Run(prev, args, b).returned
  {
  }

  /**
   * An override calls the fragment once, with the previous implementation as its
   * first argument followed by the caller's arguments, and returns its result;
   * the previous implementation itself is not called by the wrapper.
   */
  lemma OverridePassesPrevious(id: nat, prev: Value, args: seq<Value>, b: Behaviour)
    requires IsFunction(prev)
    ensures Run(Installed(Over(Fn(id), prev)), args, b) == Trace([id], Some(b(id, [prev] + args)))
  {
  }

  /** A plain merge behaves exactly as its fragment. */
  lemma PlainIsFragment(frag: Value, args: seq<Value>, b: Behaviour)
    ensures Run(Installed(Plain(frag)), args, b) == Run(frag, args, b)
  {
  }

  /** Installing the fragments `ids`, in order, each as a prepend over what was there. */
  function StackBefore(base: Value, ids: seq<nat>, awaited: bool): (r: Value)
    ensures |ids| > 0 ==> r.Installed? && r.w.Before?
  {
    if |ids| == 0 then base
    else Installed(Before(Fn(ids[|ids| - 1]), StackBefore(base, ids[..|ids| - 1], awaited), awaited))
  }

  /** Installing the fragments `ids`, in order, each as an append over what was there. */
  function StackAfter(base: Value, ids: seq<nat>, awaited: bool): (r: Value)
    ensures |ids| > 0 ==> r.Installed? && r.w.After?
  {
    if |ids| == 0 then base
    else Installed(After(Fn(ids[|ids| - 1]), StackAfter(base, ids[..|ids| - 1], awaited), awaited))
  }

  function Reverse(s: seq<nat>): (r: seq<nat>)
    ensures |r| == |s|
  {
    if |s| == 0 then [] else [s[|s| - 1]] + Reverse(s[..|s| - 1])
  }

  /**
   * Layered prepends: the prepend installed last runs first, the original
   * implementation runs last, and its value is what the stack returns.
   */
  lemma {:induction false} StackedPrepends(g: nat, ids: seq<nat>, awaited: bool, args: seq<Value>, b: Behaviour)
    ensures Run(StackBefore(Fn(g), ids, awaited), args, b) == Trace(Reverse(ids) + [g], Some(b(g, args)))
  {
    if |ids| > 0 {
      var init := ids[..|ids| - 1];
      StackedPrepends(g, init, awaited, args, b);
      assert Reverse(ids) + [g] == [ids[|ids| - 1]] + (Reverse(init) + [g]);
    }
  }

  /**
   * Layered appends: the original implementation runs first, then the appends
   * in the order they were installed; the original's value is returned.
   */
  lemma {:induction false} StackedAppends(g: nat, ids: seq<nat>, awaited: bool, args: seq<Value>, b: Behaviour)
    ensures Run(StackAfter(Fn(g), ids, awaited), args, b) == Trace([g] + ids, Some(b(g, args)))
  {
    if |ids| > 0 {
      var init := ids[..|ids| - 1];
      StackedAppends(g, init, awaited, args, b);
      assert [g] + ids == ([g] + init) + [ids[|ids| - 1]];
    }
  }
}
