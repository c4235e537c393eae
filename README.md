# compose — a verified model

`compose(middleware)` (index.js) is a synchronous "onion" middleware
combinator. It checks that its argument is an array of functions and returns
an entry point `(context, next = () => {})`. Each call of that entry point
owns one cursor `index`, which starts at -1, and runs `dispatch(0)`.
`dispatch(i)` does three things:
- It refuses any `i` not above the cursor with `Error("next() called multiple times")`.
- Otherwise it moves the cursor to `i` and calls the function in slot `i` with the context and a `next` that dispatches `i + 1`.
- Slot `middleware.length` holds the caller's `next`; any slot that is not a function gives back a fresh `() => {}`.

The model has five modules:

- `Values`: the values handlers return, the three exceptions `compose` can raise, and `Outcome` (a returned value or a thrown exception).
- `Handlers`: handler functions as data. A handler is a script of statements:
  - push a tag onto the context's trace,
  - call `next()`,
  - `try { … } catch { … }`,
  - throw,
  - return a literal, or return the value of the latest `next()`.

  A handler can also be a whole composition `compose(stack)` sitting in a slot.
- `Semantics`: the meaning of an invocation, as total functions.
  - `Dispatch`, `CallAt` and `ExecStmts` are mutually recursive and run over an environment.
  - The environment is either the top-level array with its terminal `next`, or a nested composition together with the outer position it resumes when it runs off its end.
  - The environment also carries one cursor per invocation on that chain.
  - Termination rests on a structural measure, `Rank`.
- `Compose`: the imperative program.
  - `Compose` validates an `array` in a loop.
  - `Invocation` is a class whose field `index` is the cursor. Its methods `Dispatch`, `CallAt`, `Execute` and their helpers update that field and the context's trace, and they are proved equal to `Semantics.Dispatch`, `Semantics.CallAt` and `Semantics.ExecStmts`.
  - A nested composition is a fresh `Invocation` whose terminal continues its outer invocation.
- `Properties`: lemmas about `Semantics`:
  - the onion order,
  - how return values and errors propagate,
  - the guard,
  - the terminal and what lies past it,
  - nested compositions,
  - independence of calls,
  - concrete versions of the scenarios of test/test.js.

The entry point keeps the caller's array, not a copy, and reads it at each
call (index.js:13-16). test/test.js:275-291 only checks that `compose`
leaves the array unchanged. So `Pipeline` holds the `array` itself, and
`Invoke` reads its contents as they are when the call starts.

## Model

| member | source | states |
|---|---|---|
| Compose.Compose | index.js:1-5 | A non-array argument throws the `TypeError` "Middleware stack must be an array!". An array holding a non-function throws the `TypeError` "Middleware must be composed of functions!". An array of functions yields an entry point over that same array. No handler is called and the array is not modified. |
| Compose.Invoke | index.js:7-8 | One call of the entry point returns the outcome of `Semantics.Call` on the array's contents at call time, and the context's trace becomes that call's trace. |
| Compose.CallTwice | index.js:7-8 | Two calls of the same entry point, one after the other, end with the same outcome, on two distinct contexts or on the same one. Each call adds the same events: on two contexts each to its own, on one context the second call appends what the first appended. The second call is not refused by the first one's cursor. |
| Compose.Invocation.Start | index.js:7-8 | A new invocation has its cursor at -1, with the caller's `next` as terminal and the given context. |
| Compose.Invocation.Inner | index.js:18-19 | A composition called from slot `at - 1` of an outer invocation gets its own cursor at -1 and the outer invocation's context. Its terminal resumes the outer invocation at `at`. |
| Compose.Invocation.Dispatch | index.js:9-21 | The result, the trace and all the cursors after `dispatch(i)` are those of `Semantics.Dispatch`. If `i <= index`, it throws `next() called multiple times` and changes nothing. Otherwise the cursor ends at or above `i`. |
| Compose.Invocation.CallAt | index.js:12-20 | Calling the slot at position `i` (array element, the caller's `next`, or nothing past it) agrees with `Semantics.CallAt`. |
| Compose.Invocation.CallScript | index.js:18-19 | Calling a script handler in slot `i` runs its body with a `next` that dispatches `i + 1`, and agrees with `Semantics.CallAt`: a throw in the body is thrown, a return is returned, and running off the end returns `undefined`. |
| Compose.Invocation.CallComposed | index.js:18-19 | Calling a composition in slot `i` starts a fresh inner invocation whose terminal resumes this one at `i + 1`, and agrees with `Semantics.CallAt`. |
| Compose.Invocation.ExecuteNext | index.js:18-19 | A `next()` statement dispatches `i + 1`; an error it throws ends the handler, and otherwise the rest of the body runs with that result as the latest value. This agrees with `Semantics.ExecStmts`. |
| Compose.Invocation.ExecuteTry | index.js:18-19 | A `try`/`catch` in a handler runs the `catch` block exactly when the `try` block throws, and then the rest of the body. This agrees with `Semantics.ExecStmts`. |
| Compose.Invocation.Execute | index.js:18-19 | Running a handler body whose `next()` is `dispatch(i + 1)` agrees with `Semantics.ExecStmts`. |
| Semantics.Dispatch | index.js:9-21 | The cursors only grow, the trace only grows, and a dispatch that passes the guard leaves its cursor at or above `i`. |
| Semantics.CallAt | index.js:12-20 | Calling the selected slot only grows the cursors and the trace. |
| Semantics.ExecStmts | index.js:18-19 | Running a handler body only grows the cursors and the trace. |
| Semantics.Call | index.js:7-8 | A call of the entry point leaves exactly one cursor, which is at 0 or above, and only appends to the trace. |
| Properties.DispatchFromAnyTrace | index.js:7-22 | The entry point's behaviour does not depend on what the context already holds: a run from any trace is the run from an empty trace, appended to it. |
| Properties.CallsAreIndependent | index.js:7-8 | Two calls on contexts with any traces end with the same outcome and append the same events. |
| Properties.OnionLayer | index.js:13-19 | A handler that pushes a tag, calls `next()` and pushes another: the first tag comes before everything downstream, and the second comes after it only when downstream returned. |
| Properties.OnionOrder | index.js:13-19 | For a whole array of such handlers, the first tags come in array order, then the terminal, then the second tags in reverse order. An error from the terminal propagates unchanged and no code after a `next()` runs. |
| Properties.OnionTrace | test/test.js:9-39 | Three onion handlers give the trace 1, 2, 3, 4, 5, 6 and return `undefined`. |
| Properties.RelayLayer | index.js:18-19 | A handler that returns `next()` returns exactly what the next position returns, or throws what it throws. |
| Properties.RelaysPassThrough | index.js:18-19 | A run of such handlers up to the end of the array pushes their tags in order and then behaves as the terminal `next`. |
| Properties.ComposedRelays | index.js:13-20 | A composition of relays sitting in a slot pushes its tags and then continues the outer invocation at the next slot: the outer `next` is its terminal. |
| Properties.DispatchDetached | index.js:13-19 | Dispatching at or past the terminal, including inside compositions the terminal calls, gives the same result, error and trace as the same chain with an empty top-level array. The top-level cursor is offset by the array's length. |
| Properties.TerminalAlone | index.js:13-14 | Once dispatch reaches the terminal `next`, it returns or throws what `compose([])(context, next)` would, with the same events, whatever the array before it held. |
| Properties.RelaysThenResume | index.js:13-19 | An inner invocation of relays pushes their tags and then returns or throws what the outer invocation does from the position after the slot. |
| Properties.DefaultTerminal | index.js:7 | The default `next` returns `undefined` and does nothing else. |
| Properties.NestedRelays | test/test.js:197-218 | `compose([compose(relays A), relays B...])(ctx, next)`, for any `next`, pushes A then B and then returns or throws what `next` called alone would. |
| Properties.FlatRelays | index.js:13-19 | A flat array of relays, for any `next`, pushes its tags in order and then returns or throws what `next` called alone would. |
| Properties.NestedEqualsFlat | test/test.js:197-254 | For any terminal `next`, nesting a composition of relays in the first slot gives the same outcome (returned value or thrown error) and trace as the flat array of all the relays. |
| Properties.NestedPassesResults | index.js:18-19 | A value returned by the terminal `next` is the result of a nested composition of relays, and an error it throws is thrown unchanged. |
| Properties.NestedCompositionTrace | test/test.js:197-218 | `compose([compose([h1, h2]), h3])({})` runs 1, 2, 3 and returns `undefined`. |
| Properties.ReturnValues | test/test.js:256-273 | With a terminal returning 0 and handlers returning 2 and 1 after their `next()`, the inner `next()` calls return 0 and 2, and the entry point returns 1. |
| Properties.EmptyPipeline | test/test.js:91-93 | `compose([])({})` returns `undefined` and records nothing. |
| Properties.EmptyPipelineCallsNext | test/test.js:190-194 | `compose([])(ctx, f)` calls `f`. |
| Properties.PastTerminal | index.js:16-20 | Dispatching past the terminal calls nothing and returns `() => {}`. |
| Properties.TerminalCallingNext | test/test.js:293-308 | A terminal `next` that calls its own `next()` completes, whatever the context held: both the handler and the terminal run once, and the call returns `() => {}`. |
| Properties.HandlerThrows | test/test.js:119-129 | An error thrown by a handler is thrown by the entry point unchanged. |
| Properties.CatchDownstream | test/test.js:164-188 | A handler that catches around its `next()` recovers from a downstream error and carries on: the trace is 1, 6, 4, 2, 3 and the call returns `undefined`. |
| Properties.SecondNextThrows | index.js:10-11 | A handler calling `next()` twice gets "next() called multiple times" from the second call, after the first call's downstream has fully run. |
| Properties.SecondDispatchRefused | index.js:10-11 | Whatever the first `dispatch(i + 1)` did, returned or threw, a second `dispatch(i + 1)` throws "next() called multiple times" and changes neither the trace nor any cursor. |
| Properties.NextAfterCaughtNextThrows | index.js:10-11 | A handler running `try { next() } catch {}` and then `next()` gets "next() called multiple times" from the second call, even when the first one threw and its error was caught; the second call adds nothing to the trace. |
| Properties.NextCalledTwice | test/test.js:220-233 | With a terminal that pushes 7, calling `next()` twice runs the terminal once and then throws "next() called multiple times". |

## Left out

- `co.sleep` in the tests and concurrency in general: calls are sequential and the sleeps have no effect on dispatch.
- bench/bench.js is a timing harness with no behaviour of its own.
- The test framework, `assert` and `process.exit` are not modelled.
- JavaScript values in general are not modelled.
  - `typeof` and `Array.isArray` over arbitrary values become tagged data: `Input` is an array or not, and `Slot` is a function or not.
  - Exceptions are compared by kind and message, not by identity.
  - Stack traces are not modelled.
- Handler functions are scripts of pushes, `next()` calls, `try`/`catch`, throws and returns; arbitrary JavaScript handlers are not modelled.
  - Handler effects on the context are pushes onto a trace.
  - A handler cannot mutate the middleware array during a call, so the top-level array is read once when the call starts.
  - A nested composition holds its own array as a value, so aliasing of an inner array is not modelled.
- Numbers are unbounded integers; JavaScript's floating-point numbers are not modelled.
- Compose.Invocation.Inner: the value `compose` returns for a nested composition is not validated again; a `Composed` slot stands for an already built entry point.
- Properties.NestedEqualsFlat: nesting is shown equal to inlining only for handlers that push a tag and return `next()`, with the composition in the first slot. `Properties.ComposedRelays` covers a composition of relays in any slot. Other handlers inside a nested composition are not compared with the inlined array, because that would need a correspondence between the nested and the flat cursors.
