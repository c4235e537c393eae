/** The meaning of an invocation of a composed pipeline, as functions: the
    specification that the imperative `Invocation` class is proved against.
    It follows the entry point returned by `compose` (index.js:7-22). */
module Semantics {
  import opened Values
  import opened Handlers

  /** The positions an invocation can dispatch. `Root` is an invocation made
      by the caller, with the caller's terminal `next`; `Nested` is the
      invocation of a composition that sits in a slot of an outer one, whose
      terminal `next` is the outer continuation, resuming the outer
      invocation at `resumeAt`. */
  datatype Env =
    | Root(middleware: seq<Slot>, terminal: Slot)
    | Nested(stack: seq<Slot>, outer: Env, resumeAt: nat)

  function Depth(env: Env): nat
  {
    match env
    case Root(_, _) => 0
    case Nested(_, outer, _) => Depth(outer) + 1
  }

  /** The middleware array the invocation was built from. */
  function Stack(env: Env): seq<Slot>
  {
    match env
    case Root(middleware, _) => middleware
    case Nested(stack, _, _) => stack
  }

  /** True when position `i` is the outer continuation of a nested
      invocation. */
  predicate Resumes(env: Env, i: nat)
  {
    env.Nested? && i == |env.stack|
  }

  /** The slot `fn` that dispatch selects at position `i` (index.js:12-16):
      the array element, the terminal `next` at the array's length, and
      `undefined` (no function) past it. Not used where `Resumes`. */
  function SlotAt(env: Env, i: nat): Slot
  {
    if i < |Stack(env)| then Stack(env)[i]
    else if env.Root? && i == |env.middleware| then env.terminal
    else NotFn
  }

  /** A termination measure: the weight of everything an invocation can
      still dispatch from position `i`, including the outer invocations it
      resumes. */
  function Rank(env: Env, i: nat): nat
  {
    match env
    case Root(middleware, terminal) =>
      if i <= |middleware| then StackWeight(middleware[i..]) + Weight(terminal) + 1 else 0
    case Nested(stack, outer, resumeAt) =>
      (if i <= |stack| then StackWeight(stack[i..]) + 1 else 0) + Rank(outer, resumeAt)
  }

  lemma RankOfSlot(env: Env, i: nat)
    requires !Resumes(env, i) && SlotAt(env, i).Fn?
    ensures Rank(env, i) >= Weight(SlotAt(env, i)) + Rank(env, i + 1)
  {
    if i < |Stack(env)| {
      StackWeightSplit(Stack(env), i);
    }
  }

  /** The state an invocation changes, after a call: what it returned or
      threw, the trace of the context, and one dispatch cursor (`index`) per
      invocation along the chain of `Nested` environments, outermost first. */
  datatype Run = Run(outcome: Outcome, log: seq<int>, cursors: seq<int>)

  /** How a handler body ends: by running off its end, by `return`, or by
      throwing. */
  datatype Flow = Normal | Returned(value: Value) | Threw(exception: Exception)

  datatype Step = Step(flow: Flow, log: seq<int>, cursors: seq<int>, last: Value)

  /** What calling a handler gives once its body has ended. */
  function FlowOutcome(flow: Flow): Outcome
  {
    match flow
    case Normal => Ok(Undefined)
    case Returned(v) => Ok(v)
    case Threw(e) => Err(e)
  }

  /** No cursor ever moves back. */
  predicate Grows(before: seq<int>, after: seq<int>)
  {
    |after| == |before| && forall k :: 0 <= k < |before| ==> before[k] <= after[k]
  }

  /** `dispatch(i)` of the invocation described by `env` (index.js:9-21).
      Its cursor is `cursors[Depth(env)]`. */
  function Dispatch(env: Env, i: nat, log: seq<int>, cursors: seq<int>): (r: Run)
    requires |cursors| == Depth(env) + 1
    ensures Grows(cursors, r.cursors) && log <= r.log
    ensures i > cursors[Depth(env)] ==> r.cursors[Depth(env)] >= i
    decreases Rank(env, i), 1
  {
    var d := Depth(env);
    if i <= cursors[d] then Run(Err(MultipleNextError), log, cursors)
    else
      var cur := cursors[d := i];
      if Resumes(env, i) then
        var r := Dispatch(env.outer, env.resumeAt, log, cur[..d]);
        Run(r.outcome, r.log, r.cursors + [i])
      else CallAt(env, i, log, cur)
  }

  /** Calls the `fn` selected at position `i`, once the cursor is at `i`:
      a function is called with the context and a `next` that dispatches
      `i + 1`; anything else gives `() => {}` (index.js:18-20). */
  function CallAt(env: Env, i: nat, log: seq<int>, cursors: seq<int>): (r: Run)
    requires |cursors| == Depth(env) + 1 && !Resumes(env, i)
    ensures Grows(cursors, r.cursors) && log <= r.log
    decreases Rank(env, i), 0
  {
    var d := Depth(env);
    match SlotAt(env, i)
    case NotFn => Run(Ok(EmptyFn), log, cursors)
    case Fn(Script(body)) =>
      RankOfSlot(env, i);
      var s := ExecStmts(env, i, body, log, cursors, Undefined);
      Run(FlowOutcome(s.flow), s.log, s.cursors)
    case Fn(Composed(stack)) =>
      RankOfSlot(env, i);
      var r := Dispatch(Nested(stack, env, i + 1), 0, log, cursors + [-1]);
      Run(r.outcome, r.log, r.cursors[..d + 1])
  }

  /** Runs the body of the handler at position `i`; its `next` dispatches
      `i + 1` (index.js:18-20). `last` is the value of the latest `next()`. */
  function ExecStmts(env: Env, i: nat, body: seq<Stmt>, log: seq<int>, cursors: seq<int>, last: Value): (s: Step)
    requires |cursors| == Depth(env) + 1
    ensures Grows(cursors, s.cursors) && log <= s.log
    decreases Rank(env, i + 1) + BodySize(body), 2
  {
    if body == [] then Step(Normal, log, cursors, last)
    else
      match body[0]
      case Push(tag) => ExecStmts(env, i, body[1..], log + [tag], cursors, last)
      case Next =>
        var r := Dispatch(env, i + 1, log, cursors);
        if r.outcome.Err? then Step(Threw(r.outcome.exception), r.log, r.cursors, last)
        else ExecStmts(env, i, body[1..], r.log, r.cursors, r.outcome.value)
      case Try(b, recover) => ExecTry(env, i, b, recover, body[1..], log, cursors, last)
      case Raise(e) => Step(Threw(e), log, cursors, last)
      case Return(Lit(v)) => Step(Returned(v), log, cursors, last)
      case Return(NextResult) => Step(Returned(last), log, cursors, last)
  }

  /** `try { b } catch { recover }` followed by `rest`. */
  function ExecTry(env: Env, i: nat, b: seq<Stmt>, recover: seq<Stmt>, rest: seq<Stmt>,
                   log: seq<int>, cursors: seq<int>, last: Value): (s: Step)
    requires |cursors| == Depth(env) + 1
    ensures Grows(cursors, s.cursors) && log <= s.log
    decreases Rank(env, i + 1) + BodySize([Try(b, recover)] + rest), 1
  {
    assert ([Try(b, recover)] + rest)[1..] == rest;
    var s := ExecStmts(env, i, b, log, cursors, last);
    AndThen(env, i, rest, Catch(env, i, recover, s))
  }

  /** The catch block runs only when the try block threw. */
  function Catch(env: Env, i: nat, recover: seq<Stmt>, s: Step): (s': Step)
    requires |s.cursors| == Depth(env) + 1
    ensures Grows(s.cursors, s'.cursors) && s.log <= s'.log
    decreases Rank(env, i + 1) + BodySize(recover), 3
  {
    if s.flow.Threw? then ExecStmts(env, i, recover, s.log, s.cursors, s.last) else s
  }

  /** The statements after a block run only when it completed normally. */
  function AndThen(env: Env, i: nat, rest: seq<Stmt>, s: Step): (s': Step)
    requires |s.cursors| == Depth(env) + 1
    ensures Grows(s.cursors, s'.cursors) && s.log <= s'.log
    decreases Rank(env, i + 1) + BodySize(rest), 3
  {
    if s.flow.Normal? then ExecStmts(env, i, rest, s.log, s.cursors, s.last) else s
  }

  /** One call of the entry point `(context, next) => ...` on a context whose
      trace is `log`: a fresh cursor at -1, then `dispatch(0)`
      (index.js:7-8, 22). */
  function Call(middleware: seq<Slot>, next: Slot, log: seq<int>): (r: Run)
    ensures |r.cursors| == 1 && r.cursors[0] >= 0 && log <= r.log
  {
    Dispatch(Root(middleware, next), 0, log, [-1])
  }
}
