/** `compose(middleware)` of index.js: validation of the middleware array,
    and the entry point it returns, whose invocations each own one mutable
    cursor `index`. */
module Compose {
  import opened Values
  import opened Handlers
  import Semantics
  import Properties

  /** The argument of `compose`: an array, or any other JavaScript value
      (`undefined` when it is omitted). */
  datatype Input = ArrayArg(elements: array<Slot>) | NotArray

  /** The closure `compose` returns. It holds the caller's array itself,
      not a copy, and reads it when it is called (index.js:13-16). */
  datatype Pipeline = Pipeline(middleware: array<Slot>)

  /** `compose` either returns the entry point or throws. */
  datatype Built = Built(pipeline: Pipeline) | Thrown(exception: Exception)

  predicate AllFunctions(slots: seq<Slot>)
  {
    forall k :: 0 <= k < |slots| ==> slots[k].Fn?
  }

  /** `compose(middleware)` (index.js:1-7): throws a `TypeError` when the
      argument is not an array or holds something that is not a function,
      and otherwise returns the entry point over that very array. It calls
      no handler and changes nothing. */
  method Compose(input: Input) returns (r: Built)
    ensures input.NotArray? ==> r == Thrown(NotArrayError)
    ensures input.ArrayArg? && AllFunctions(input.elements[..]) ==> r == Built(Pipeline(input.elements))
    ensures input.ArrayArg? && !AllFunctions(input.elements[..]) ==> r == Thrown(NotFunctionError)
  {
    if input.NotArray? {
      return Thrown(NotArrayError);
    }
    var middleware := input.elements;
    for k := 0 to middleware.Length
      invariant AllFunctions(middleware[..k])
    {
      if !middleware[k].Fn? {
        return Thrown(NotFunctionError);
      }
    }
    assert middleware[..middleware.Length] == middleware[..];
    return Built(Pipeline(middleware));
  }

  /** The context object handed to every handler; handlers record what they
      do by pushing tags onto its trace. */
  class Context {
    var trace: seq<int>

    constructor (trace: seq<int>)
      ensures this.trace == trace
    {
      this.trace := trace;
    }
  }

  /** The `next` an invocation was called with: a value given by the caller,
      or, for a composition sitting in a slot of an outer invocation, the
      outer continuation that dispatches position `at` of `outer`. */
  datatype Terminal = Given(next: Slot) | Continue(outer: Invocation, at: nat)

  /** One call of the entry point: the closure scope of index.js:7-22, with
      its cursor `index`. */
  class Invocation {
    const middleware: seq<Slot>
    const terminal: Terminal
    const context: Context
    var index: int

    ghost const depth: nat
    ghost const Repr: set<object>

    /** `Repr` is this invocation and the outer ones it can resume; they all
        share one context. */
    ghost predicate Valid()
      decreases depth
    {
      this in Repr && context !in Repr &&
      match terminal
      case Given(_) => depth == 0 && Repr == {this}
      case Continue(outer, _) =>
        depth == outer.depth + 1 && this !in outer.Repr && Repr == {this} + outer.Repr &&
        outer.context == context && outer.Valid()
    }

    /** The positions this invocation can dispatch, as the specification
        sees them. */
    ghost function Env(): (env: Semantics.Env)
      requires Valid()
      ensures Semantics.Depth(env) == depth && Semantics.Stack(env) == middleware
      decreases depth
    {
      match terminal
      case Given(next) => Semantics.Root(middleware, next)
      case Continue(outer, at) => Semantics.Nested(middleware, outer.Env(), at)
    }

    /** The cursors of the outer invocations and then this one's. */
    ghost function Cursors(): (c: seq<int>)
      requires Valid()
      reads Repr
      ensures |c| == depth + 1 && c[depth] == index
      decreases depth
    {
      (match terminal
       case Given(_) => []
       case Continue(outer, _) => outer.Cursors()) + [index]
    }

    lemma CursorsAfterMove(cur: seq<int>)
      requires Valid() && |cur| == depth + 1 && cur[depth] == index
      requires terminal.Continue? ==> cur[..depth] == terminal.outer.Cursors()
      ensures Cursors() == cur
    {
    }

    /** The entry point called with `(context, next)`: `let index = -1`
        (index.js:7-8). */
    constructor Start(middleware: seq<Slot>, next: Slot, context: Context)
      ensures Valid() && fresh(Repr) && this.context == context
      ensures this.middleware == middleware && terminal == Given(next)
      ensures Env() == Semantics.Root(middleware, next) && Cursors() == [-1]
    {
      this.middleware := middleware;
      this.terminal := Given(next);
      this.context := context;
      this.index := -1;
      this.depth := 0;
      this.Repr := {this};
    }

    /** A composition in a slot of `outer` being called with the outer
        continuation as its `next`: a fresh cursor at -1. */
    constructor Inner(stack: seq<Slot>, outer: Invocation, at: nat)
      requires outer.Valid()
      ensures Valid() && Repr == {this} + outer.Repr && context == outer.context
      ensures middleware == stack && terminal == Continue(outer, at)
      ensures Env() == Semantics.Nested(stack, outer.Env(), at)
      ensures Cursors() == outer.Cursors() + [-1]
    {
      this.middleware := stack;
      this.terminal := Continue(outer, at);
      this.context := outer.context;
      this.index := -1;
      this.depth := outer.depth + 1;
      this.Repr := {this} + outer.Repr;
    }

    /** `dispatch(i)` (index.js:9-21): the guard, `index = i`, the choice of
        `fn`, and the call of `fn` with a `next` that dispatches `i + 1`. */
    method Dispatch(i: nat) returns (r: Outcome)
      requires Valid()
      modifies Repr, context
      ensures Semantics.Run(r, context.trace, Cursors())
           == Semantics.Dispatch(Env(), i, old(context.trace), old(Cursors()))
      ensures i <= old(index) ==>
                r == Err(MultipleNextError) && index == old(index) && context.trace == old(context.trace)
      ensures i > old(index) ==> index >= i
      decreases Semantics.Rank(Env(), i), 2
    {
      if i <= index {
        return Err(MultipleNextError);
      }
      ghost var cur := old(Cursors())[depth := i];
      index := i;
      CursorsAfterMove(cur);
      if i == |middleware| && terminal.Continue? {
        r := terminal.outer.Dispatch(terminal.at);
      } else {
        r := CallAt(i);
      }
    }

    /** Calls `fn`, the slot at position `i` (index.js:12-20): the array
        element, the caller's `next` at the array's length, and `undefined`
        past it. */
    method CallAt(i: nat) returns (r: Outcome)
      requires Valid() && index == i && !Semantics.Resumes(Env(), i)
      modifies Repr, context
      ensures Semantics.Run(r, context.trace, Cursors())
           == Semantics.CallAt(Env(), i, old(context.trace), old(Cursors()))
      decreases Semantics.Rank(Env(), i), 1
    {
      var fn := if i < |middleware| then middleware[i]
                else if i == |middleware| then terminal.next
                else NotFn;
      assert fn == Semantics.SlotAt(Env(), i);
      if fn.NotFn? {
        r := Ok(EmptyFn);
      } else if fn.handler.Script? {
        r := CallScript(i, fn.handler.body);
      } else {
        r := CallComposed(i, fn.handler.stack);
      }
    }

    /** `fn(context, next)` for a handler script. */
    method CallScript(i: nat, body: seq<Stmt>) returns (r: Outcome)
      requires Valid() && index == i && !Semantics.Resumes(Env(), i)
      requires Semantics.SlotAt(Env(), i) == Fn(Script(body))
      modifies Repr, context
      ensures Semantics.Run(r, context.trace, Cursors())
           == Semantics.CallAt(Env(), i, old(context.trace), old(Cursors()))
      decreases Semantics.Rank(Env(), i), 0
    {
      Semantics.RankOfSlot(Env(), i);
      var flow, _ := Execute(i, body, Undefined);
      r := Semantics.FlowOutcome(flow);
    }

    /** `fn(context, next)` for an entry point built by `compose(stack)`: a
        new invocation of `stack` whose `next` resumes this one at `i + 1`. */
    method CallComposed(i: nat, stack: seq<Slot>) returns (r: Outcome)
      requires Valid() && index == i && !Semantics.Resumes(Env(), i)
      requires Semantics.SlotAt(Env(), i) == Fn(Composed(stack))
      modifies Repr, context
      ensures Semantics.Run(r, context.trace, Cursors())
           == Semantics.CallAt(Env(), i, old(context.trace), old(Cursors()))
      decreases Semantics.Rank(Env(), i), 0
    {
      Semantics.RankOfSlot(Env(), i);
      ghost var env, trace0, cursors0 := Env(), context.trace, Cursors();
      var inner := new Invocation.Inner(stack, this, i + 1);
      r := inner.Dispatch(0);
      ghost var run := Semantics.Dispatch(Semantics.Nested(stack, env, i + 1), 0, trace0, cursors0 + [-1]);
      assert inner.Cursors() == Cursors() + [inner.index];
      assert Semantics.Run(r, context.trace, inner.Cursors()) == run;
      assert Semantics.CallAt(env, i, trace0, cursors0) == Semantics.Run(run.outcome, run.log, run.cursors[..depth + 1]);
    }

    /** Runs the body of the handler at position `i`, whose `next()` is
        `dispatch(i + 1)`; `last` is the value of its latest `next()`. */
    method Execute(i: nat, body: seq<Stmt>, last: Value) returns (flow: Semantics.Flow, last': Value)
      requires Valid()
      modifies Repr, context
      ensures Semantics.Step(flow, context.trace, Cursors(), last')
           == Semantics.ExecStmts(Env(), i, body, old(context.trace), old(Cursors()), last)
      decreases Semantics.Rank(Env(), i + 1) + BodySize(body), 2
    {
      if body == [] {
        return Semantics.Normal, last;
      }
      match body[0]
      case Push(tag) =>
        context.trace := context.trace + [tag];
        flow, last' := Execute(i, body[1..], last);
      case Next =>
        assert body == [Next] + body[1..];
        flow, last' := ExecuteNext(i, body[1..], last);
      case Try(b, recover) =>
        assert body == [Try(b, recover)] + body[1..];
        flow, last' := ExecuteTry(i, b, recover, body[1..], last);
      case Raise(e) =>
        flow, last' := Semantics.Threw(e), last;
      case Return(Lit(v)) =>
        flow, last' := Semantics.Returned(v), last;
      case Return(NextResult) =>
        flow, last' := Semantics.Returned(last), last;
    }

    /** `next()` and then `rest`, in the handler at position `i`: an error
        from `dispatch(i + 1)` ends the handler (index.js:18-19). */
    method ExecuteNext(i: nat, rest: seq<Stmt>, last: Value) returns (flow: Semantics.Flow, last': Value)
      requires Valid()
      modifies Repr, context
      ensures Semantics.Step(flow, context.trace, Cursors(), last')
           == Semantics.ExecStmts(Env(), i, [Next] + rest, old(context.trace), old(Cursors()), last)
      decreases Semantics.Rank(Env(), i + 1) + BodySize([Next] + rest), 1
    {
      assert ([Next] + rest)[0] == Next && ([Next] + rest)[1..] == rest;
      var v := Dispatch(i + 1);
      if v.Err? {
        return Semantics.Threw(v.exception), last;
      }
      flow, last' := Execute(i, rest, v.value);
    }

    /** `try { b } catch { recover }` and then `rest`, in the handler at
        position `i`. */
    method ExecuteTry(i: nat, b: seq<Stmt>, recover: seq<Stmt>, rest: seq<Stmt>, last: Value)
      returns (flow: Semantics.Flow, last': Value)
      requires Valid()
      modifies Repr, context
      ensures Semantics.Step(flow, context.trace, Cursors(), last')
           == Semantics.ExecTry(Env(), i, b, recover, rest, old(context.trace), old(Cursors()), last)
      decreases Semantics.Rank(Env(), i + 1) + BodySize([Try(b, recover)] + rest), 1
    {
      assert ([Try(b, recover)] + rest)[1..] == rest;
      flow, last' := Execute(i, b, last);
      ghost var tried := Semantics.Step(flow, context.trace, Cursors(), last');
      if flow.Threw? {
        flow, last' := Execute(i, recover, last');
      }
      ghost var caught := Semantics.Step(flow, context.trace, Cursors(), last');
      assert caught == Semantics.Catch(Env(), i, recover, tried);
      if flow.Normal? {
        flow, last' := Execute(i, rest, last');
      }
      assert Semantics.Step(flow, context.trace, Cursors(), last') == Semantics.AndThen(Env(), i, rest, caught);
    }
  }

  /** Calls the entry point `pipeline` with `(context, next)`; the default
      `next` is `DefaultNext`. Each call starts from a fresh cursor, and the
      array is read as it is at the time of the call. */
  method Invoke(pipeline: Pipeline, context: Context, next: Slot) returns (r: Outcome)
    modifies context
    ensures var run := Semantics.Call(old(pipeline.middleware[..]), next, old(context.trace));
            r == run.outcome && context.trace == run.log
  {
    var invocation := new Invocation.Start(pipeline.middleware[..], next, context);
    r := invocation.Dispatch(0);
  }

  /** One entry point called twice, one call after the other, on two
      contexts or on the same one: each call starts its own cursor at -1,
      so the second call is not refused and both end the same way, adding
      the same events (index.js:7-8; test/test.js:41-78). */
  method CallTwice(pipeline: Pipeline, first: Context, second: Context, next: Slot)
    returns (r1: Outcome, r2: Outcome)
    modifies first, second
    ensures r1 == r2
    ensures first != second ==> old(first.trace) <= first.trace && old(second.trace) <= second.trace
    ensures first != second ==> first.trace[|old(first.trace)|..] == second.trace[|old(second.trace)|..]
    ensures first == second ==>
              exists between :: old(first.trace) <= between <= first.trace
                && between[|old(first.trace)|..] == first.trace[|between|..]
  {
    r1 := Invoke(pipeline, first, next);
    ghost var between := second.trace;
    r2 := Invoke(pipeline, second, next);
    Properties.CallsAreIndependent(pipeline.middleware[..], next, old(first.trace), between);
  }
}
