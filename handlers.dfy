/** Handlers are host callbacks `(context, next) => ...`. They are modelled
    as data: a small script language run by an interpreter, plus the result
    of an earlier `compose`, so that compositions can be nested. */
module Handlers {
  import opened Values

  /** What a `return` statement returns: a literal, or the value the last
      `next()` call of this handler returned (`undefined` before any). */
  datatype Ret = Lit(value: Value) | NextResult

  /** One statement of a handler body. Handlers write to the trace held by
      the context they receive. */
  datatype Stmt =
    | Push(tag: int)                            // context.trace.push(tag)
    | Next                                      // next(); its value is kept
    | Try(body: seq<Stmt>, recover: seq<Stmt>)  // try { body } catch { recover }
    | Raise(exception: Exception)               // throw exception
    | Return(result: Ret)                       // return result

  /** A callable: a scripted handler, or the entry point built by
      `compose(stack)`. */
  datatype Handler = Script(body: seq<Stmt>) | Composed(stack: seq<Slot>)

  /** An element of the middleware array, or the terminal `next`: a function
      or some other JavaScript value. */
  datatype Slot = Fn(handler: Handler) | NotFn

  /** The default terminal continuation `() => { }` (index.js:7). */
  const DefaultNext: Slot := Fn(Script([]))

  /** Size of a handler body; every statement counts at least one. */
  function BodySize(body: seq<Stmt>): nat
  {
    if body == [] then 0
    else
      (match body[0]
       case Try(b, r) => 1 + BodySize(b) + BodySize(r)
       case _ => 1) + BodySize(body[1..])
  }

  /** Size of a slot, counting the handlers of nested compositions. */
  function Weight(slot: Slot): (n: nat)
    ensures n >= 1
  {
    match slot
    case NotFn => 1
    case Fn(Script(body)) => BodySize(body) + 1
    case Fn(Composed(stack)) => StackWeight(stack) + 2
  }

  /** Total weight of a middleware array. */
  function StackWeight(stack: seq<Slot>): nat
  {
    if stack == [] then 0 else Weight(stack[0]) + StackWeight(stack[1..])
  }

  lemma StackWeightSplit(stack: seq<Slot>, i: nat)
    requires i < |stack|
    ensures StackWeight(stack[i..]) == Weight(stack[i]) + StackWeight(stack[i + 1..])
  {
    assert stack[i..][1..] == stack[i + 1..];
  }
}
