/** What the entry point returned by `compose` promises, proved about the
    specification in `Semantics`. The concrete lemmas replay the scenarios
    of test/test.js. On such fixed inputs the verifier unfolds the
    definitions by itself, so those with nothing to prove step by step
    have empty bodies. */
module Properties {
  import opened Values
  import opened Handlers
  import opened Semantics

  // ---------------------------------------------------------------------
  // Invocations are independent of what the context already holds
  // ---------------------------------------------------------------------

  /** A step whose events follow `prefix`. */
  function Shift(prefix: seq<int>, s: Step): Step
  {
    Step(s.flow, prefix + s.log, s.cursors, s.last)
  }

  /** A dispatch appends the same events to the trace whatever the trace
      held before, and its outcome and cursors do not depend on it. */
  lemma {:induction false} DispatchFromAnyTrace(env: Env, i: nat, log: seq<int>, cursors: seq<int>)
    requires |cursors| == Depth(env) + 1
    ensures var r := Dispatch(env, i, [], cursors);
            Dispatch(env, i, log, cursors) == Run(r.outcome, log + r.log, r.cursors)
    decreases Rank(env, i), 1
  {
    var d := Depth(env);
    if i > cursors[d] {
      var cur := cursors[d := i];
      if Resumes(env, i) {
        DispatchFromAnyTrace(env.outer, env.resumeAt, log, cur[..d]);
      } else {
        CallAtFromAnyTrace(env, i, log, cur);
      }
    }
  }

  lemma {:induction false} CallAtFromAnyTrace(env: Env, i: nat, log: seq<int>, cursors: seq<int>)
    requires |cursors| == Depth(env) + 1 && !Resumes(env, i)
    ensures var r := CallAt(env, i, [], cursors);
            CallAt(env, i, log, cursors) == Run(r.outcome, log + r.log, r.cursors)
    decreases Rank(env, i), 0
  {
    match SlotAt(env, i)
    case NotFn =>
    case Fn(Script(body)) =>
      RankOfSlot(env, i);
      ExecFromAnyTrace(env, i, body, log, cursors, Undefined);
    case Fn(Composed(stack)) =>
      RankOfSlot(env, i);
      DispatchFromAnyTrace(Nested(stack, env, i + 1), 0, log, cursors + [-1]);
  }

  lemma {:induction false} ExecFromAnyTrace(env: Env, i: nat, body: seq<Stmt>, log: seq<int>, cursors: seq<int>, last: Value)
    requires |cursors| == Depth(env) + 1
    ensures ExecStmts(env, i, body, log, cursors, last) == Shift(log, ExecStmts(env, i, body, [], cursors, last))
    decreases Rank(env, i + 1) + BodySize(body), 2
  {
    if body != [] {
      var rest := body[1..];
      match body[0]
      case Push(tag) =>
        PushFromAnyTrace(env, i, body, log, cursors, last);
      case Next =>
        NextFromAnyTrace(env, i, body, log, cursors, last);
      case Try(b, recover) =>
        assert body == [Try(b, recover)] + rest;
        TryFromAnyTrace(env, i, b, recover, rest, log, cursors, last);
      case Raise(e) =>
      case Return(_) =>
    }
  }

  lemma {:induction false} PushFromAnyTrace(env: Env, i: nat, body: seq<Stmt>, log: seq<int>, cursors: seq<int>, last: Value)
    requires |cursors| == Depth(env) + 1 && body != [] && body[0].Push?
    ensures ExecStmts(env, i, body, log, cursors, last) == Shift(log, ExecStmts(env, i, body, [], cursors, last))
    decreases Rank(env, i + 1) + BodySize(body), 1
  {
    var tag, rest := body[0].tag, body[1..];
    ExecFromAnyTrace(env, i, rest, log + [tag], cursors, last);
    ExecFromAnyTrace(env, i, rest, [tag], cursors, last);
    var s := ExecStmts(env, i, rest, [], cursors, last);
    assert log + [tag] + s.log == log + ([tag] + s.log);
    assert [] + [tag] == [tag];
  }

  lemma {:induction false} NextFromAnyTrace(env: Env, i: nat, body: seq<Stmt>, log: seq<int>, cursors: seq<int>, last: Value)
    requires |cursors| == Depth(env) + 1 && body != [] && body[0] == Next
    ensures ExecStmts(env, i, body, log, cursors, last) == Shift(log, ExecStmts(env, i, body, [], cursors, last))
    decreases Rank(env, i + 1) + BodySize(body), 1
  {
    var rest := body[1..];
    DispatchFromAnyTrace(env, i + 1, log, cursors);
    var r := Dispatch(env, i + 1, [], cursors);
    assert Dispatch(env, i + 1, log, cursors) == Run(r.outcome, log + r.log, r.cursors);
    if r.outcome.Ok? {
      ResumeFromAnyTrace(env, i, rest, log, r.log, r.cursors, r.outcome.value);
    }
  }

  /** The statements after a `next()` that returned, from the trace that
      `next()` left. */
  lemma {:induction false} ResumeFromAnyTrace(env: Env, i: nat, rest: seq<Stmt>, log: seq<int>, mid: seq<int>,
                                               cursors: seq<int>, last: Value)
    requires |cursors| == Depth(env) + 1
    ensures ExecStmts(env, i, rest, log + mid, cursors, last) == Shift(log, ExecStmts(env, i, rest, mid, cursors, last))
    decreases Rank(env, i + 1) + BodySize(rest), 3
  {
    ExecFromAnyTrace(env, i, rest, log + mid, cursors, last);
    ExecFromAnyTrace(env, i, rest, mid, cursors, last);
    var t := ExecStmts(env, i, rest, [], cursors, last);
    assert log + mid + t.log == log + (mid + t.log);
  }

  lemma {:induction false} TryFromAnyTrace(env: Env, i: nat, b: seq<Stmt>, recover: seq<Stmt>, rest: seq<Stmt>,
                                           log: seq<int>, cursors: seq<int>, last: Value)
    requires |cursors| == Depth(env) + 1
    ensures ExecTry(env, i, b, recover, rest, log, cursors, last)
         == Shift(log, ExecTry(env, i, b, recover, rest, [], cursors, last))
    decreases Rank(env, i + 1) + BodySize([Try(b, recover)] + rest), 1
  {
    assert ([Try(b, recover)] + rest)[1..] == rest;
    ExecFromAnyTrace(env, i, b, log, cursors, last);
    var s := ExecStmts(env, i, b, [], cursors, last);
    CatchFromAnyTrace(env, i, recover, s, log);
    AndThenFromAnyTrace(env, i, rest, Catch(env, i, recover, s), log);
  }

  lemma {:induction false} CatchFromAnyTrace(env: Env, i: nat, recover: seq<Stmt>, s: Step, log: seq<int>)
    requires |s.cursors| == Depth(env) + 1
    ensures Catch(env, i, recover, Shift(log, s)) == Shift(log, Catch(env, i, recover, s))
    decreases Rank(env, i + 1) + BodySize(recover), 3
  {
    if s.flow.Threw? {
      ExecFromAnyTrace(env, i, recover, log + s.log, s.cursors, s.last);
      ExecFromAnyTrace(env, i, recover, s.log, s.cursors, s.last);
      var t := ExecStmts(env, i, recover, [], s.cursors, s.last);
      assert log + s.log + t.log == log + (s.log + t.log);
    }
  }

  lemma {:induction false} AndThenFromAnyTrace(env: Env, i: nat, rest: seq<Stmt>, s: Step, log: seq<int>)
    requires |s.cursors| == Depth(env) + 1
    ensures AndThen(env, i, rest, Shift(log, s)) == Shift(log, AndThen(env, i, rest, s))
    decreases Rank(env, i + 1) + BodySize(rest), 3
  {
    if s.flow.Normal? {
      ExecFromAnyTrace(env, i, rest, log + s.log, s.cursors, s.last);
      ExecFromAnyTrace(env, i, rest, s.log, s.cursors, s.last);
      var t := ExecStmts(env, i, rest, [], s.cursors, s.last);
      assert log + s.log + t.log == log + (s.log + t.log);
    }
  }

  /** Each call of the entry point starts its own cursor at -1, so two calls
      of the same pipeline, on two contexts, add the same events to each
      and end the same way (index.js:7-8; test/test.js:41-78). */
  lemma CallsAreIndependent(middleware: seq<Slot>, next: Slot, log1: seq<int>, log2: seq<int>)
    ensures Call(middleware, next, log1).outcome == Call(middleware, next, log2).outcome
    ensures Call(middleware, next, log1).log[|log1|..] == Call(middleware, next, log2).log[|log2|..]
  {
    DispatchFromAnyTrace(Root(middleware, next), 0, log1, [-1]);
    DispatchFromAnyTrace(Root(middleware, next), 0, log2, [-1]);
  }

  // ---------------------------------------------------------------------
  // Onion order: code before `next()` runs in array order, code after it
  // in reverse order
  // ---------------------------------------------------------------------

  /** `(ctx, next) => { push(before); next(); push(after) }` */
  function Onion(before: int, after: int): Slot
  {
    Fn(Script([Push(before), Next, Push(after)]))
  }

  function OnionStack(before: seq<int>, after: seq<int>): (stack: seq<Slot>)
    requires |before| == |after|
    ensures |stack| == |before|
    ensures forall k :: 0 <= k < |stack| ==> stack[k] == Onion(before[k], after[k])
  {
    seq(|before|, k requires 0 <= k < |before| => Onion(before[k], after[k]))
  }

  function Reversed(s: seq<int>): seq<int>
  {
    if s == [] then [] else Reversed(s[1..]) + [s[0]]
  }

  /** One layer of the onion: a handler that pushes `before`, calls
      `next()` and pushes `after`. */
  lemma OnionLayer(env: Env, i: nat, before: int, after: int, log: seq<int>, cursors: seq<int>)
    requires |cursors| == Depth(env) + 1 && cursors[Depth(env)] < i
    requires !Resumes(env, i) && SlotAt(env, i) == Onion(before, after)
    ensures var r := Dispatch(env, i + 1, log + [before], cursors[Depth(env) := i]);
            Dispatch(env, i, log, cursors)
              == if r.outcome.Ok? then Run(Ok(Undefined), r.log + [after], r.cursors) else r
  {
    var cur := cursors[Depth(env) := i];
    var body := [Push(before), Next, Push(after)];
    assert Dispatch(env, i, log, cursors) == CallAt(env, i, log, cur);
    assert ExecStmts(env, i, body, log, cur, Undefined) == ExecStmts(env, i, body[1..], log + [before], cur, Undefined);
    assert body[1..][1..] == [Push(after)];
    var r := Dispatch(env, i + 1, log + [before], cur);
    if r.outcome.Ok? {
      assert ExecStmts(env, i, body[1..], log + [before], cur, Undefined)
          == ExecStmts(env, i, [Push(after)], r.log, r.cursors, r.outcome.value);
      assert [Push(after)][1..] == [];
      assert ExecStmts(env, i, [Push(after)], r.log, r.cursors, r.outcome.value)
          == Step(Normal, r.log + [after], r.cursors, r.outcome.value);
    }
  }

  /** When every handler from position `i` on pushes a tag, calls `next()`
      once and pushes another, the first tags appear in array order, then
      whatever the terminal `next` does, then the second tags in reverse
      order; every handler returns `undefined`. An error from the terminal
      propagates unchanged and no code after a `next()` runs
      (index.js:13-19; test/test.js:9-39). */
  lemma {:induction false} OnionOrder(before: seq<int>, after: seq<int>, terminal: Slot, i: nat, log: seq<int>)
    requires |before| == |after| && i < |before|
    ensures var stack := OnionStack(before, after);
            var t := Dispatch(Root(stack, terminal), |stack|, log + before[i..], [|stack| - 1]);
            Dispatch(Root(stack, terminal), i, log, [i - 1])
              == if t.outcome.Ok? then Run(Ok(Undefined), t.log + Reversed(after[i..]), t.cursors) else t
    decreases |before| - i
  {
    var stack := OnionStack(before, after);
    var env := Root(stack, terminal);
    var n := |stack|;
    var log' := log + [before[i]];
    assert log' + before[i + 1..] == log + before[i..] by {
      assert before[i..] == [before[i]] + before[i + 1..];
    }
    assert [i - 1][0 := i] == [i];
    OnionLayer(env, i, before[i], after[i], log, [i - 1]);
    var r := Dispatch(env, i + 1, log', [i]);
    var t := Dispatch(env, n, log + before[i..], [n - 1]);
    if i + 1 < n {
      assert r == if t.outcome.Ok? then Run(Ok(Undefined), t.log + Reversed(after[i + 1..]), t.cursors) else t by {
        OnionOrder(before, after, terminal, i + 1, log');
      }
    } else {
      assert before[i + 1..] == [] && log' + [] == log';
      assert r == t;
    }
    assert Reversed(after[i..]) == Reversed(after[i + 1..]) + [after[i]] by {
      assert after[i..][1..] == after[i + 1..];
    }
    if t.outcome.Ok? {
      assert t.log + Reversed(after[i + 1..]) + [after[i]] == t.log + Reversed(after[i..]);
    }
  }

  /** The first scenario of test/test.js:9-39: the trace is 1 to 6. */
  lemma OnionTrace()
    ensures Call(OnionStack([1, 2, 3], [6, 5, 4]), DefaultNext, []) == Run(Ok(Undefined), [1, 2, 3, 4, 5, 6], [3])
  {
    var before, after := [1, 2, 3], [6, 5, 4];
    var stack := OnionStack(before, after);
    var env := Root(stack, DefaultNext);
    assert |stack| == 3;
    OnionOrder(before, after, DefaultNext, 0, []);
    assert [] + before[0..] == before;
    DefaultTerminal(stack, before, 2);
    var t := Dispatch(env, 3, before, [2]);
    assert t == Run(Ok(Undefined), before, [3]);
    assert Reversed(after[0..]) == [4, 5, 6] by {
      assert after[0..] == after;
      assert after[1..] == [5, 4];
      assert [5, 4][1..] == [4];
      assert [4][1..] == [];
      assert Reversed([4]) == [4];
      assert Reversed([5, 4]) == [4, 5];
    }
    assert Dispatch(env, 0, [], [-1]) == Run(Ok(Undefined), before + [4, 5, 6], [3]);
    assert before + [4, 5, 6] == [1, 2, 3, 4, 5, 6];
  }

  // ---------------------------------------------------------------------
  // The terminal `next` runs as if it were called alone
  // ---------------------------------------------------------------------

  /** Length of the top-level middleware array of a chain of invocations. */
  function RootLength(env: Env): nat
  {
    match env
    case Root(middleware, _) => |middleware|
    case Nested(_, outer, _) => RootLength(outer)
  }

  /** The top-level invocation is at or past its terminal: the environments
      of the terminal `next` and of the compositions it calls. */
  predicate PastArray(env: Env)
  {
    match env
    case Root(_, _) => true
    case Nested(_, outer, resumeAt) =>
      PastArray(outer) && (outer.Root? ==> resumeAt >= |outer.middleware|)
  }

  /** Position `i` of `env` once the top-level array is removed. */
  function Shifted(env: Env, i: nat): nat
    requires env.Root? ==> i >= |env.middleware|
  {
    if env.Root? then i - |env.middleware| else i
  }

  /** The same chain with an empty top-level array, so that the terminal is
      at position 0. */
  function Detach(env: Env): (d: Env)
    requires PastArray(env)
    ensures Depth(d) == Depth(env)
  {
    match env
    case Root(_, terminal) => Root([], terminal)
    case Nested(stack, outer, resumeAt) => Nested(stack, Detach(outer), Shifted(outer, resumeAt))
  }

  /** Moves the top-level cursor back by `k` positions. */
  function ShiftCursors(cursors: seq<int>, k: nat): seq<int>
    requires |cursors| > 0
  {
    cursors[0 := cursors[0] - k]
  }

  lemma ShiftPrefix(cursors: seq<int>, k: nat, n: nat)
    requires 0 < n <= |cursors|
    ensures ShiftCursors(cursors, k)[..n] == ShiftCursors(cursors[..n], k)
  {
  }

  function Detached(s: Step, k: nat): Step
    requires |s.cursors| > 0
  {
    Step(s.flow, s.log, ShiftCursors(s.cursors, k), s.last)
  }

  /** Dispatching at or past the terminal does not depend on the array
      before it: the detached chain does the same, with the top-level
      cursor moved back by the array's length. */
  lemma {:induction false} DispatchDetached(env: Env, i: nat, log: seq<int>, cursors: seq<int>)
    requires PastArray(env) && |cursors| == Depth(env) + 1
    requires env.Root? ==> i >= |env.middleware|
    ensures var r := Dispatch(env, i, log, cursors);
            Dispatch(Detach(env), Shifted(env, i), log, ShiftCursors(cursors, RootLength(env)))
              == Run(r.outcome, r.log, ShiftCursors(r.cursors, RootLength(env)))
    decreases Rank(env, i), 3
  {
    var d := Depth(env);
    var k := RootLength(env);
    if i > cursors[d] {
      var cur := cursors[d := i];
      assert ShiftCursors(cursors, k)[d := Shifted(env, i)] == ShiftCursors(cur, k);
      if Resumes(env, i) {
        ResumeDetached(env, i, log, cur);
      } else {
        CallAtDetached(env, i, log, cur);
      }
    }
  }

  /** The end of a nested composition resumes the same outer position
      either way. */
  lemma {:induction false} ResumeDetached(env: Env, i: nat, log: seq<int>, cur: seq<int>)
    requires PastArray(env) && |cur| == Depth(env) + 1 && Resumes(env, i)
    ensures var d := Depth(env);
            var k := RootLength(env);
            var r := Dispatch(env.outer, env.resumeAt, log, cur[..d]);
            var r' := Dispatch(Detach(env).outer, Detach(env).resumeAt, log, ShiftCursors(cur, k)[..d]);
            Run(r'.outcome, r'.log, r'.cursors + [i]) == Run(r.outcome, r.log, ShiftCursors(r.cursors + [i], k))
    decreases Rank(env, i), 0
  {
    var d := Depth(env);
    var k := RootLength(env);
    var outer, at := env.outer, env.resumeAt;
    assert Detach(env).outer == Detach(outer) && Detach(env).resumeAt == Shifted(outer, at);
    ShiftPrefix(cur, k, d);
    var r := Dispatch(outer, at, log, cur[..d]);
    var r' := Dispatch(Detach(outer), Shifted(outer, at), log, ShiftCursors(cur[..d], k));
    assert r' == Run(r.outcome, r.log, ShiftCursors(r.cursors, k)) by {
      DispatchDetached(outer, at, log, cur[..d]);
    }
    assert ShiftCursors(r.cursors, k) + [i] == ShiftCursors(r.cursors + [i], k);
  }

  lemma {:induction false} CallAtDetached(env: Env, i: nat, log: seq<int>, cursors: seq<int>)
    requires PastArray(env) && |cursors| == Depth(env) + 1 && !Resumes(env, i)
    requires env.Root? ==> i >= |env.middleware|
    ensures var r := CallAt(env, i, log, cursors);
            CallAt(Detach(env), Shifted(env, i), log, ShiftCursors(cursors, RootLength(env)))
              == Run(r.outcome, r.log, ShiftCursors(r.cursors, RootLength(env)))
    decreases Rank(env, i), 2
  {
    SlotDetached(env, i);
    match SlotAt(env, i)
    case NotFn =>
    case Fn(Script(body)) =>
      ScriptDetached(env, i, body, log, cursors);
    case Fn(Composed(stack)) =>
      ComposedDetached(env, i, stack, log, cursors);
  }

  lemma SlotDetached(env: Env, i: nat)
    requires PastArray(env) && !Resumes(env, i)
    requires env.Root? ==> i >= |env.middleware|
    ensures !Resumes(Detach(env), Shifted(env, i))
    ensures SlotAt(Detach(env), Shifted(env, i)) == SlotAt(env, i)
  {
  }

  /** A handler called at or past the terminal runs the same either way. */
  lemma {:induction false} ScriptDetached(env: Env, i: nat, body: seq<Stmt>, log: seq<int>, cursors: seq<int>)
    requires PastArray(env) && |cursors| == Depth(env) + 1 && !Resumes(env, i)
    requires env.Root? ==> i >= |env.middleware|
    requires SlotAt(env, i) == Fn(Script(body))
    requires SlotAt(Detach(env), Shifted(env, i)) == SlotAt(env, i)
    requires !Resumes(Detach(env), Shifted(env, i))
    ensures var r := CallAt(env, i, log, cursors);
            CallAt(Detach(env), Shifted(env, i), log, ShiftCursors(cursors, RootLength(env)))
              == Run(r.outcome, r.log, ShiftCursors(r.cursors, RootLength(env)))
    decreases Rank(env, i), 0
  {
    RankOfSlot(env, i);
    ExecDetached(env, i, body, log, cursors, Undefined);
  }

  /** A composition called at or past the terminal runs the same either
      way. */
  lemma {:induction false} ComposedDetached(env: Env, i: nat, stack: seq<Slot>, log: seq<int>, cursors: seq<int>)
    requires PastArray(env) && |cursors| == Depth(env) + 1 && !Resumes(env, i)
    requires env.Root? ==> i >= |env.middleware|
    requires SlotAt(env, i) == Fn(Composed(stack))
    requires SlotAt(Detach(env), Shifted(env, i)) == SlotAt(env, i)
    requires !Resumes(Detach(env), Shifted(env, i))
    ensures var r := CallAt(env, i, log, cursors);
            CallAt(Detach(env), Shifted(env, i), log, ShiftCursors(cursors, RootLength(env)))
              == Run(r.outcome, r.log, ShiftCursors(r.cursors, RootLength(env)))
    decreases Rank(env, i), 1
  {
    var d := Depth(env);
    var k := RootLength(env);
    var r := Dispatch(Nested(stack, env, i + 1), 0, log, cursors + [-1]);
    var r' := Dispatch(Nested(stack, Detach(env), Shifted(env, i) + 1), 0, log, ShiftCursors(cursors, k) + [-1]);
    assert CallAt(env, i, log, cursors) == Run(r.outcome, r.log, r.cursors[..d + 1]) by {
      CallsComposition(env, i, stack, log, cursors);
    }
    assert CallAt(Detach(env), Shifted(env, i), log, ShiftCursors(cursors, k)) == Run(r'.outcome, r'.log, r'.cursors[..d + 1]) by {
      CallsComposition(Detach(env), Shifted(env, i), stack, log, ShiftCursors(cursors, k));
    }
    assert r' == Run(r.outcome, r.log, ShiftCursors(r.cursors, k)) by {
      InnerDetached(env, i, stack, log, cursors);
    }
    ShiftPrefix(r.cursors, k, d + 1);
  }

  lemma {:induction false} InnerDetached(env: Env, i: nat, stack: seq<Slot>, log: seq<int>, cursors: seq<int>)
    requires PastArray(env) && |cursors| == Depth(env) + 1 && !Resumes(env, i)
    requires env.Root? ==> i >= |env.middleware|
    requires SlotAt(env, i) == Fn(Composed(stack))
    ensures var k := RootLength(env);
            var r := Dispatch(Nested(stack, env, i + 1), 0, log, cursors + [-1]);
            Dispatch(Nested(stack, Detach(env), Shifted(env, i) + 1), 0, log, ShiftCursors(cursors, k) + [-1])
              == Run(r.outcome, r.log, ShiftCursors(r.cursors, k))
    decreases Rank(env, i), 0
  {
    var k := RootLength(env);
    RankOfSlot(env, i);
    var inner := Nested(stack, env, i + 1);
    assert Detach(inner) == Nested(stack, Detach(env), Shifted(env, i) + 1);
    assert ShiftCursors(cursors + [-1], k) == ShiftCursors(cursors, k) + [-1];
    DispatchDetached(inner, 0, log, cursors + [-1]);
  }

  lemma {:induction false} ExecDetached(env: Env, i: nat, body: seq<Stmt>, log: seq<int>, cursors: seq<int>, last: Value)
    requires PastArray(env) && |cursors| == Depth(env) + 1
    requires env.Root? ==> i >= |env.middleware|
    ensures ExecStmts(Detach(env), Shifted(env, i), body, log, ShiftCursors(cursors, RootLength(env)), last)
         == Detached(ExecStmts(env, i, body, log, cursors, last), RootLength(env))
    decreases Rank(env, i + 1) + BodySize(body), 2
  {
    if body != [] {
      match body[0]
      case Push(tag) =>
        ExecDetached(env, i, body[1..], log + [tag], cursors, last);
      case Next =>
        NextDetached(env, i, body, log, cursors, last);
      case Try(b, recover) =>
        assert body == [Try(b, recover)] + body[1..];
        TryDetached(env, i, b, recover, body[1..], log, cursors, last);
      case Raise(e) =>
      case Return(_) =>
    }
  }

  lemma {:induction false} NextDetached(env: Env, i: nat, body: seq<Stmt>, log: seq<int>, cursors: seq<int>, last: Value)
    requires PastArray(env) && |cursors| == Depth(env) + 1 && body != [] && body[0] == Next
    requires env.Root? ==> i >= |env.middleware|
    ensures ExecStmts(Detach(env), Shifted(env, i), body, log, ShiftCursors(cursors, RootLength(env)), last)
         == Detached(ExecStmts(env, i, body, log, cursors, last), RootLength(env))
    decreases Rank(env, i + 1) + BodySize(body), 1
  {
    var k := RootLength(env);
    assert Shifted(env, i + 1) == Shifted(env, i) + 1;
    DispatchDetached(env, i + 1, log, cursors);
    var r := Dispatch(env, i + 1, log, cursors);
    var r' := Dispatch(Detach(env), Shifted(env, i) + 1, log, ShiftCursors(cursors, k));
    assert r' == Run(r.outcome, r.log, ShiftCursors(r.cursors, k));
    if r.outcome.Ok? {
      ExecDetached(env, i, body[1..], r.log, r.cursors, r.outcome.value);
    }
  }

  lemma {:induction false} TryDetached(env: Env, i: nat, b: seq<Stmt>, recover: seq<Stmt>, rest: seq<Stmt>,
                                       log: seq<int>, cursors: seq<int>, last: Value)
    requires PastArray(env) && |cursors| == Depth(env) + 1
    requires env.Root? ==> i >= |env.middleware|
    ensures ExecTry(Detach(env), Shifted(env, i), b, recover, rest, log, ShiftCursors(cursors, RootLength(env)), last)
         == Detached(ExecTry(env, i, b, recover, rest, log, cursors, last), RootLength(env))
    decreases Rank(env, i + 1) + BodySize([Try(b, recover)] + rest), 1
  {
    assert ([Try(b, recover)] + rest)[1..] == rest;
    ExecDetached(env, i, b, log, cursors, last);
    var s := ExecStmts(env, i, b, log, cursors, last);
    CatchDetached(env, i, recover, s);
    AndThenDetached(env, i, rest, Catch(env, i, recover, s));
  }

  lemma {:induction false} CatchDetached(env: Env, i: nat, recover: seq<Stmt>, s: Step)
    requires PastArray(env) && |s.cursors| == Depth(env) + 1
    requires env.Root? ==> i >= |env.middleware|
    ensures Catch(Detach(env), Shifted(env, i), recover, Detached(s, RootLength(env)))
         == Detached(Catch(env, i, recover, s), RootLength(env))
    decreases Rank(env, i + 1) + BodySize(recover), 3
  {
    if s.flow.Threw? {
      ExecDetached(env, i, recover, s.log, s.cursors, s.last);
    }
  }

  lemma {:induction false} AndThenDetached(env: Env, i: nat, rest: seq<Stmt>, s: Step)
    requires PastArray(env) && |s.cursors| == Depth(env) + 1
    requires env.Root? ==> i >= |env.middleware|
    ensures AndThen(Detach(env), Shifted(env, i), rest, Detached(s, RootLength(env)))
         == Detached(AndThen(env, i, rest, s), RootLength(env))
    decreases Rank(env, i + 1) + BodySize(rest), 3
  {
    if s.flow.Normal? {
      ExecDetached(env, i, rest, s.log, s.cursors, s.last);
    }
  }

  /** The terminal of an array, detached: the entry point of `compose([])`
      with the top-level cursor moved back by the array's length. */
  lemma TerminalDetached(middleware: seq<Slot>, terminal: Slot, log: seq<int>, cursor: int)
    requires cursor < |middleware|
    ensures var r := Dispatch(Root(middleware, terminal), |middleware|, log, [cursor]);
            Dispatch(Root([], terminal), 0, log, [cursor - |middleware|])
              == Run(r.outcome, r.log, [r.cursors[0] - |middleware|])
  {
    var env := Root(middleware, terminal);
    var k := |middleware|;
    DispatchDetached(env, k, log, [cursor]);
    assert ShiftCursors([cursor], k) == [cursor - k];
    var r := Dispatch(env, k, log, [cursor]);
    assert ShiftCursors(r.cursors, k) == [r.cursors[0] - k];
  }

  /** Once every handler has called `next()`, the terminal `next` runs as in
      `compose([])(context, next)`: the same result, thrown error and
      events, whatever the array before it held; only the cursor is further
      on (index.js:13-14, 18-19). */
  lemma TerminalAlone(middleware: seq<Slot>, terminal: Slot, log: seq<int>, cursor: int)
    requires cursor < |middleware|
    ensures var alone := Call([], terminal, log);
            var r := Dispatch(Root(middleware, terminal), |middleware|, log, [cursor]);
            r.outcome == alone.outcome && r.log == alone.log && r.cursors[0] == alone.cursors[0] + |middleware|
  {
    TerminalDetached(middleware, terminal, log, cursor);
    StartsBelowZero([], terminal, log, cursor - |middleware|);
  }

  /** Dispatching 0 only needs the cursor to be below 0. */
  lemma StartsBelowZero(middleware: seq<Slot>, terminal: Slot, log: seq<int>, cursor: int)
    requires cursor < 0
    ensures Dispatch(Root(middleware, terminal), 0, log, [cursor]) == Call(middleware, terminal, log)
  {
    assert [cursor][0 := 0] == [0] == [-1][0 := 0];
  }

  // ---------------------------------------------------------------------
  // Return values pass through `next()`; nested compositions
  // ---------------------------------------------------------------------

  /** `(ctx, next) => { push(tag); return next() }` */
  function Relay(tag: int): Slot
  {
    Fn(Script([Push(tag), Next, Return(NextResult)]))
  }

  function Relays(tags: seq<int>): (stack: seq<Slot>)
    ensures |stack| == |tags|
    ensures forall k :: 0 <= k < |stack| ==> stack[k] == Relay(tags[k])
  {
    seq(|tags|, k requires 0 <= k < |tags| => Relay(tags[k]))
  }

  /** A relay pushes its tag and then returns exactly what dispatching the
      next position returns, or throws what it throws. */
  lemma RelayLayer(env: Env, i: nat, tag: int, log: seq<int>, cursors: seq<int>)
    requires |cursors| == Depth(env) + 1 && cursors[Depth(env)] < i
    requires !Resumes(env, i) && SlotAt(env, i) == Relay(tag)
    ensures Dispatch(env, i, log, cursors) == Dispatch(env, i + 1, log + [tag], cursors[Depth(env) := i])
  {
    var cur := cursors[Depth(env) := i];
    var body := [Push(tag), Next, Return(NextResult)];
    assert Dispatch(env, i, log, cursors) == CallAt(env, i, log, cur);
    assert ExecStmts(env, i, body, log, cur, Undefined) == ExecStmts(env, i, body[1..], log + [tag], cur, Undefined);
    assert body[1..][1..] == [Return(NextResult)];
    var r := Dispatch(env, i + 1, log + [tag], cur);
    if r.outcome.Ok? {
      assert ExecStmts(env, i, body[1..], log + [tag], cur, Undefined)
          == ExecStmts(env, i, [Return(NextResult)], r.log, r.cursors, r.outcome.value);
    }
  }

  /** Relays from position `i` to the end of the array: the invocation
      returns what the terminal `next` returns, after their tags in order
      (index.js:18-19, 22; test/test.js:197-218). */
  lemma {:induction false} RelaysPassThrough(env: Env, i: nat, tags: seq<int>, log: seq<int>, cursors: seq<int>)
    requires |cursors| == Depth(env) + 1 && cursors[Depth(env)] == i - 1
    requires i <= |Stack(env)| == |tags|
    requires forall j :: i <= j < |tags| ==> Stack(env)[j] == Relay(tags[j])
    ensures Dispatch(env, i, log, cursors)
         == Dispatch(env, |tags|, log + tags[i..], cursors[Depth(env) := |tags| - 1])
    decreases |tags| - i
  {
    var d := Depth(env);
    if i == |tags| {
      assert cursors[d := |tags| - 1] == cursors;
      assert log + tags[i..] == log;
    } else {
      RelayLayer(env, i, tags[i], log, cursors);
      RelaysPassThrough(env, i + 1, tags, log + [tags[i]], cursors[d := i]);
      assert cursors[d := i][d := |tags| - 1] == cursors[d := |tags| - 1];
      assert log + [tags[i]] + tags[i + 1..] == log + tags[i..] by {
        assert tags[i..] == [tags[i]] + tags[i + 1..];
      }
    }
  }

  /** A composition of relays sitting in slot `i` of an outer invocation
      pushes its tags and then resumes the outer invocation at `i + 1`, as
      if its handlers had been inlined: the outer `next` is its terminal
      (index.js:13-14, 18-20; test/test.js:197-218). */
  lemma ComposedRelays(env: Env, i: nat, tags: seq<int>, log: seq<int>, cursors: seq<int>)
    requires |cursors| == Depth(env) + 1 && cursors[Depth(env)] < i
    requires !Resumes(env, i) && SlotAt(env, i) == Fn(Composed(Relays(tags)))
    ensures Dispatch(env, i, log, cursors) == Dispatch(env, i + 1, log + tags, cursors[Depth(env) := i])
  {
    var d := Depth(env);
    var cur := cursors[d := i];
    EntersComposition(env, i, Relays(tags), log, cursors);
    RelaysThenResume(tags, env, i + 1, log, cur);
    var r := Dispatch(env, i + 1, log + tags, cur);
    assert (r.cursors + [|tags|])[..d + 1] == r.cursors;
  }

  /** A new invocation of a composition of relays pushes their tags and
      then resumes its outer invocation at `at`. */
  lemma RelaysThenResume(tags: seq<int>, env: Env, at: nat, log: seq<int>, cursors: seq<int>)
    requires |cursors| == Depth(env) + 1
    ensures var r := Dispatch(env, at, log + tags, cursors);
            Dispatch(Nested(Relays(tags), env, at), 0, log, cursors + [-1]) == Run(r.outcome, r.log, r.cursors + [|tags|])
  {
    var d := Depth(env);
    var inner := Nested(Relays(tags), env, at);
    assert Depth(inner) == d + 1 && Stack(inner) == Relays(tags);
    RelaysPassThrough(inner, 0, tags, log, cursors + [-1]);
    assert tags[0..] == tags;
    assert (cursors + [-1])[d + 1 := |tags| - 1] == cursors + [|tags| - 1];
    ResumeAtEnd(Relays(tags), env, at, log + tags, cursors, |tags| - 1);
  }

  /** Calling a slot that holds a composition starts a new invocation of
      its array, with a cursor of its own (index.js:18-19). */
  lemma CallsComposition(env: Env, i: nat, stack: seq<Slot>, log: seq<int>, cursors: seq<int>)
    requires |cursors| == Depth(env) + 1 && !Resumes(env, i) && SlotAt(env, i) == Fn(Composed(stack))
    ensures var r := Dispatch(Nested(stack, env, i + 1), 0, log, cursors + [-1]);
            CallAt(env, i, log, cursors) == Run(r.outcome, r.log, r.cursors[..Depth(env) + 1])
  {
  }

  /** Dispatching a slot that holds a composition starts a new invocation
      of its array, with a cursor of its own (index.js:18-19). */
  lemma EntersComposition(env: Env, i: nat, stack: seq<Slot>, log: seq<int>, cursors: seq<int>)
    requires |cursors| == Depth(env) + 1 && cursors[Depth(env)] < i
    requires !Resumes(env, i) && SlotAt(env, i) == Fn(Composed(stack))
    ensures var r := Dispatch(Nested(stack, env, i + 1), 0, log, cursors[Depth(env) := i] + [-1]);
            Dispatch(env, i, log, cursors) == Run(r.outcome, r.log, r.cursors[..Depth(env) + 1])
  {
    var cur := cursors[Depth(env) := i];
    assert Dispatch(env, i, log, cursors) == CallAt(env, i, log, cur);
  }

  /** A nested composition that runs off the end of its array resumes the
      outer invocation at `at` (index.js:13-14, 18-19). */
  lemma ResumeAtEnd(stack: seq<Slot>, env: Env, at: nat, log: seq<int>, cursors: seq<int>, cursor: int)
    requires |cursors| == Depth(env) + 1 && cursor < |stack|
    ensures var r := Dispatch(env, at, log, cursors);
            Dispatch(Nested(stack, env, at), |stack|, log, cursors + [cursor])
              == Run(r.outcome, r.log, r.cursors + [|stack|])
  {
    var inner := Nested(stack, env, at);
    var d := Depth(env);
    assert Depth(inner) == d + 1 && Resumes(inner, |stack|);
    var cur := (cursors + [cursor])[d + 1 := |stack|];
    assert cur[..d + 1] == cursors;
    var r := Dispatch(env, at, log, cursors);
    assert Dispatch(inner, |stack|, log, cursors + [cursor]) == Run(r.outcome, r.log, r.cursors + [|stack|]);
  }

  /** The default `next` returns `undefined` and does nothing else
      (index.js:7). */
  lemma DefaultTerminal(middleware: seq<Slot>, log: seq<int>, cursor: int)
    requires cursor < |middleware|
    ensures Dispatch(Root(middleware, DefaultNext), |middleware|, log, [cursor])
         == Run(Ok(Undefined), log, [|middleware|])
  {
    var env := Root(middleware, DefaultNext);
    assert [cursor][0 := |middleware|] == [|middleware|];
    assert Dispatch(env, |middleware|, log, [cursor]) == CallAt(env, |middleware|, log, [|middleware|]);
  }

  /** A composition of relays in the first slot, followed by more relays:
      all the tags in order, then the terminal `next` as if it were called
      alone, whose result or error comes out unchanged. */
  lemma NestedRelays(inner: seq<int>, outer: seq<int>, terminal: Slot, log: seq<int>)
    ensures var alone := Call([], terminal, log + inner + outer);
            var r := Call([Fn(Composed(Relays(inner)))] + Relays(outer), terminal, log);
            r.outcome == alone.outcome && r.log == alone.log && r.cursors[0] == alone.cursors[0] + |outer| + 1
  {
    var nested := [Fn(Composed(Relays(inner)))] + Relays(outer);
    var env := Root(nested, terminal);
    ComposedRelays(env, 0, inner, log, [-1]);
    assert [-1][0 := 0] == [0];
    var tags := [0] + outer;
    RelaysPassThrough(env, 1, tags, log + inner, [0]);
    assert tags[1..] == outer;
    assert [0][0 := |tags| - 1] == [|outer|];
    TerminalAlone(nested, terminal, log + inner + outer, |outer|);
  }

  /** A flat array of relays: their tags in order, then the terminal `next`
      as if it were called alone. */
  lemma FlatRelays(tags: seq<int>, terminal: Slot, log: seq<int>)
    ensures var alone := Call([], terminal, log + tags);
            var r := Call(Relays(tags), terminal, log);
            r.outcome == alone.outcome && r.log == alone.log && r.cursors[0] == alone.cursors[0] + |tags|
  {
    var flat := Relays(tags);
    var env := Root(flat, terminal);
    assert Call(flat, terminal, log) == Dispatch(env, |tags|, log + tags, [|tags| - 1]) by {
      RelaysPassThrough(env, 0, tags, log, [-1]);
      assert tags[0..] == tags;
      assert [-1][0 := |tags| - 1] == [|tags| - 1];
    }
    TerminalAlone(flat, terminal, log + tags, |tags| - 1);
  }

  /** Nesting a composition of relays in the first slot behaves, in trace
      and in what it returns or throws, like the flat array of all the
      relays, whatever the terminal `next` (test/test.js:197-254). */
  lemma NestedEqualsFlat(inner: seq<int>, outer: seq<int>, terminal: Slot, log: seq<int>)
    ensures var nested := Call([Fn(Composed(Relays(inner)))] + Relays(outer), terminal, log);
            var flat := Call(Relays(inner + outer), terminal, log);
            nested.outcome == flat.outcome && nested.log == flat.log
  {
    NestedRelays(inner, outer, terminal, log);
    FlatRelays(inner + outer, terminal, log);
    assert log + inner + outer == log + (inner + outer);
  }

  /** What the terminal `next` returns or throws comes out of a nested
      composition of relays unchanged (index.js:18-19, 22). */
  lemma NestedPassesResults(inner: seq<int>, outer: seq<int>, v: Value, e: Exception, log: seq<int>)
    ensures Call([Fn(Composed(Relays(inner)))] + Relays(outer), Fn(Script([Return(Lit(v))])), log).outcome == Ok(v)
    ensures Call([Fn(Composed(Relays(inner)))] + Relays(outer), Fn(Script([Raise(e)])), log).outcome == Err(e)
  {
    var l := log + inner + outer;
    NestedRelays(inner, outer, Fn(Script([Return(Lit(v))])), log);
    assert Call([], Fn(Script([Return(Lit(v))])), l).outcome == Ok(v) by {
      var env := Root([], Fn(Script([Return(Lit(v))])));
      assert [-1][0 := 0] == [0];
      assert Dispatch(env, 0, l, [-1]) == CallAt(env, 0, l, [0]);
      assert ExecStmts(env, 0, [Return(Lit(v))], l, [0], Undefined) == Step(Returned(v), l, [0], Undefined);
    }
    NestedRelays(inner, outer, Fn(Script([Raise(e)])), log);
    assert Call([], Fn(Script([Raise(e)])), l).outcome == Err(e) by {
      var env := Root([], Fn(Script([Raise(e)])));
      assert [-1][0 := 0] == [0];
      assert Dispatch(env, 0, l, [-1]) == CallAt(env, 0, l, [0]);
      assert ExecStmts(env, 0, [Raise(e)], l, [0], Undefined) == Step(Threw(e), l, [0], Undefined);
    }
  }

  /** `compose([compose([h1, h2]), h3])({})` runs 1, 2, 3 and returns
      `undefined` (test/test.js:197-218). */
  lemma NestedCompositionTrace()
    ensures var r := Call([Fn(Composed(Relays([1, 2])))] + Relays([3]), DefaultNext, []);
            r.outcome == Ok(Undefined) && r.log == [1, 2, 3]
  {
    NestedRelays([1, 2], [3], DefaultNext, []);
    EmptyPipeline([1, 2, 3]);
  }

  /** A value returned by the terminal `next` comes back through every
      `next()` and each handler's own return value is what its caller's
      `next()` returns (test/test.js:256-273). */
  lemma ReturnValues(log: seq<int>)
    ensures var stack := [Fn(Script([Next, Return(Lit(Num(1)))])), Fn(Script([Next, Return(Lit(Num(2)))]))];
            var env := Root(stack, Fn(Script([Return(Lit(Num(0)))])));
            && Dispatch(env, 2, log, [1]).outcome == Ok(Num(0))
            && Dispatch(env, 1, log, [0]).outcome == Ok(Num(2))
            && Call(stack, env.terminal, log) == Run(Ok(Num(1)), log, [2])
  {
  }

  // ---------------------------------------------------------------------
  // The terminal `next` and what lies past it
  // ---------------------------------------------------------------------

  /** `compose([])({})` returns `undefined` and does nothing
      (test/test.js:91-93). */
  lemma EmptyPipeline(log: seq<int>)
    ensures Call([], DefaultNext, log) == Run(Ok(Undefined), log, [0])
  {
  }

  /** `compose([])(ctx, f)` calls `f` (test/test.js:190-194). */
  lemma EmptyPipelineCallsNext(tag: int, log: seq<int>)
    ensures Call([], Fn(Script([Push(tag)])), log) == Run(Ok(Undefined), log + [tag], [0])
  {
    var env := Root([], Fn(Script([Push(tag)])));
    assert [-1][0 := 0] == [0];
    assert Dispatch(env, 0, log, [-1]) == CallAt(env, 0, log, [0]);
    assert [Push(tag)][1..] == [];
    assert ExecStmts(env, 0, [Push(tag)], log, [0], Undefined) == Step(Normal, log + [tag], [0], Undefined);
  }

  /** Dispatching past the terminal calls nothing and gives `() => {}`
      (index.js:16, 18-20). */
  lemma PastTerminal(middleware: seq<Slot>, terminal: Slot, log: seq<int>, cursor: int)
    requires cursor <= |middleware|
    ensures Dispatch(Root(middleware, terminal), |middleware| + 1, log, [cursor])
         == Run(Ok(EmptyFn), log, [|middleware| + 1])
  {
  }

  /** A terminal `next` that calls its own `next()` completes: it gets the
      empty function back (test/test.js:293-308). */
  lemma TerminalCallingNext(a: int, b: int, log: seq<int>)
    ensures Call([Relay(a)], Relay(b), log) == Run(Ok(EmptyFn), log + [a, b], [2])
  {
    var env := Root([Relay(a)], Relay(b));
    RelayLayer(env, 0, a, log, [-1]);
    assert [-1][0 := 0] == [0];
    RelayLayer(env, 1, b, log + [a], [0]);
    assert [0][0 := 1] == [1];
    assert log + [a] + [b] == log + [a, b];
    PastTerminal([Relay(a)], Relay(b), log + [a, b], 1);
  }

  // ---------------------------------------------------------------------
  // Errors
  // ---------------------------------------------------------------------

  /** An error thrown by a handler leaves the invocation unchanged
      (index.js:18-22; test/test.js:119-129). */
  lemma HandlerThrows(e: Exception, next: Slot, log: seq<int>)
    ensures Call([Fn(Script([Raise(e)]))], next, log) == Run(Err(e), log, [0])
  {
    var env := Root([Fn(Script([Raise(e)]))], next);
    assert [-1][0 := 0] == [0];
    assert Dispatch(env, 0, log, [-1]) == CallAt(env, 0, log, [0]);
    assert ExecStmts(env, 0, [Raise(e)], log, [0], Undefined) == Step(Threw(e), log, [0], Undefined);
  }

  /** An upstream handler that catches around its `next()` recovers and
      carries on: the trace is 1, 6, 4, 2, 3 (test/test.js:164-188). */
  lemma CatchDownstream()
    ensures var first := Fn(Script([Push(1), Try([Push(6), Next, Push(7)], [Push(2)]), Push(3)]));
            var second := Fn(Script([Push(4), Raise(Error(""))]));
            Call([first, second], DefaultNext, []) == Run(Ok(Undefined), [1, 6, 4, 2, 3], [1])
  {
  }

  /** Calling `next()` a second time throws "next() called multiple times",
      after the first call's downstream work has fully run
      (index.js:10-11; test/test.js:220-233). */
  lemma SecondNextThrows(env: Env, i: nat, rest: seq<Stmt>, log: seq<int>, cursors: seq<int>, last: Value)
    requires |cursors| == Depth(env) + 1 && cursors[Depth(env)] <= i
    ensures var r := Dispatch(env, i + 1, log, cursors);
            r.outcome.Ok? ==>
              ExecStmts(env, i, [Next, Next] + rest, log, cursors, last)
                == Step(Threw(MultipleNextError), r.log, r.cursors, r.outcome.value)
  {
    var body := [Next, Next] + rest;
    var r := Dispatch(env, i + 1, log, cursors);
    if r.outcome.Ok? {
      assert body[1..] == [Next] + rest;
      assert ExecStmts(env, i, body, log, cursors, last)
          == ExecStmts(env, i, [Next] + rest, r.log, r.cursors, r.outcome.value);
      assert Dispatch(env, i + 1, r.log, r.cursors) == Run(Err(MultipleNextError), r.log, r.cursors);
    }
  }

  /** Whatever the first `dispatch(i + 1)` did, returned or threw, a second
      one is refused and changes nothing: the first moved the cursor to
      `i + 1` or above, or was itself refused (index.js:10-11). */
  lemma SecondDispatchRefused(env: Env, i: nat, log: seq<int>, cursors: seq<int>)
    requires |cursors| == Depth(env) + 1
    ensures var r := Dispatch(env, i + 1, log, cursors);
            Dispatch(env, i + 1, r.log, r.cursors) == Run(Err(MultipleNextError), r.log, r.cursors)
  {
  }

  /** `try { next() } catch {}` followed by `next()`: the second call throws
      "next() called multiple times" even when the first one threw and its
      error was caught, and it adds nothing to the trace (index.js:10-11). */
  lemma {:induction false} NextAfterCaughtNextThrows(env: Env, i: nat, log: seq<int>, cursors: seq<int>, last: Value)
    requires |cursors| == Depth(env) + 1
    ensures var r := Dispatch(env, i + 1, log, cursors);
            var s := ExecStmts(env, i, [Try([Next], []), Next], log, cursors, last);
            s.flow == Threw(MultipleNextError) && s.log == r.log && s.cursors == r.cursors
  {
    var r := Dispatch(env, i + 1, log, cursors);
    var tried := ExecStmts(env, i, [Next], log, cursors, last);
    var caught := Catch(env, i, [], tried);
    assert caught.flow == Normal && caught.log == r.log && caught.cursors == r.cursors by {
      assert [Next][1..] == [];
      if r.outcome.Ok? {
        assert tried == ExecStmts(env, i, [], r.log, r.cursors, r.outcome.value);
      } else {
        assert tried == Step(Threw(r.outcome.exception), r.log, r.cursors, last);
        assert caught == ExecStmts(env, i, [], r.log, r.cursors, last);
      }
    }
    assert ExecStmts(env, i, [Try([Next], []), Next], log, cursors, last) == AndThen(env, i, [Next], caught) by {
      assert [Try([Next], []), Next] == [Try([Next], [])] + [Next];
      assert ExecStmts(env, i, [Try([Next], []), Next], log, cursors, last)
          == ExecTry(env, i, [Next], [], [Next], log, cursors, last);
    }
    assert AndThen(env, i, [Next], caught) == Step(Threw(MultipleNextError), r.log, r.cursors, caught.last) by {
      SecondDispatchRefused(env, i, log, cursors);
      assert AndThen(env, i, [Next], caught) == ExecStmts(env, i, [Next], r.log, r.cursors, caught.last);
    }
  }

  /** The scenario of test/test.js:220-233, with a terminal that pushes 7:
      the terminal runs once, then the second `next()` throws. */
  lemma NextCalledTwice(log: seq<int>)
    ensures Call([Fn(Script([Next, Next]))], Fn(Script([Push(7)])), log)
         == Run(Err(MultipleNextError), log + [7], [1])
  {
  }
}
