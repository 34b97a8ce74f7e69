/** One request through a middleware stack: the three loops of `runRequest` and
    the execution mode around it. */
module Engine {
  import opened Wrappers

  /** A value other than `undefined`, which is `None` below. */
  type Value = int

  /** A thrown value. `Undefined` is a thrown `undefined`; the other two wrap a
      pair of errors. */
  datatype Error =
    | Undefined
    | Thrown(id: int)
    | InOnError(first: Error, second: Error)
    | InRequestEnd(first: Error, second: Error)

  /** `early` tells an absent `earlyResponse` from one that is `undefined`.
      `rest` is everything else a middleware can read or change. */
  datatype Request = Request(response: Option<Value>, error: Error, early: Option<Option<Value>>, rest: int)

  datatype Step = Next(request: Request, result: Option<Value>) | Fail(request: Request, error: Error)

  /** Any function of the request. The plugin hooks called around a middleware
      are part of its step: a hook that throws is a middleware that throws. */
  type Middleware = Request -> Step

  datatype HandlerStep = Answer(rest: int, response: Option<Value>) | Crash(rest: int, error: Error)

  /** `handler` is what the handler raced with the early timeout comes to. The
      two hooks say what they throw, if they do. */
  datatype Stack = Stack(
    befores: seq<Middleware>,
    beforeHandler: Option<Error>,
    handler: int -> HandlerStep,
    afterHandler: Option<Error>,
    afters: seq<Middleware>,
    onErrors: seq<Middleware>,
    durable: int -> bool)

  datatype Call =
    | RequestStart | Before(i: nat) | BeforeHandler | Handler | AfterHandler
    | After(i: nat) | OnError(i: nat) | RequestEnd

  datatype Kind = Befores | Afters | OnErrors

  function CallOf(kind: Kind, i: nat): Call {
    match kind
    case Befores => Before(i)
    case Afters => After(i)
    case OnErrors => OnError(i)
  }

  function Calls(kind: Kind, n: nat): (calls: seq<Call>)
    ensures |calls| == n && forall i :: 0 <= i < n ==> calls[i] == CallOf(kind, i)
  {
    seq(n, i requires 0 <= i => CallOf(kind, i))
  }

  // ---- The recursive specification ----

  /** How a list of middlewares ended, after `count` of them ran. */
  datatype Chain =
    | Through(request: Request, count: nat)
    | Early(request: Request, count: nat)
    | Raised(request: Request, count: nat, error: Error)

  /** What a middleware's step leaves: a returned value is an early response. */
  function Settle(step: Step): Request {
    if step.Next? && step.result.Some? then step.request.(early := Some(step.result)) else step.request
  }

  function RunChain(ms: seq<Middleware>, r: Request): Chain {
    if ms == [] then Through(r, 0)
    else
      var step := ms[0](r);
      var next := Settle(step);
      if step.Fail? then Raised(next, 1, step.error)
      else if next.early.Some? then Early(next.(response := next.early.value), 1)
      else var rest := RunChain(ms[1..], next); rest.(count := rest.count + 1)
  }

  datatype Outcome = Returned(response: Option<Value>) | Threw(error: Error)

  datatype Run = Run(request: Request, outcome: Outcome, calls: seq<Call>)

  /** The part inside `try`: what it left, what it threw if it did, its calls. */
  datatype Try = Try(request: Request, thrown: Option<Error>, calls: seq<Call>)

  function ThrownBy(c: Chain): Option<Error> {
    if c.Raised? then Some(c.error) else None
  }

  function AfterSpec(stack: Stack, r: Request): Try {
    var c := RunChain(stack.afters, r);
    Try(c.request, ThrownBy(c), Calls(Afters, c.count))
  }

  function HandlerSpec(stack: Stack, r: Request): Try {
    if stack.beforeHandler.Some? then Try(r, stack.beforeHandler, [BeforeHandler])
    else match stack.handler(r.rest)
      case Crash(rest, error) => Try(r.(rest := rest), Some(error), [BeforeHandler, Handler])
      case Answer(rest, response) =>
        var r' := r.(rest := rest, response := response);
        if stack.afterHandler.Some? then Try(r', stack.afterHandler, [BeforeHandler, Handler, AfterHandler])
        else var t := AfterSpec(stack, r');
          t.(calls := [BeforeHandler, Handler, AfterHandler] + t.calls)
  }

  function TrySpec(stack: Stack, r: Request): Try {
    var c := RunChain(stack.befores, r);
    var calls := Calls(Befores, c.count);
    if c.Raised? || c.request.early.Some? then Try(c.request, ThrownBy(c), calls)
    else var t := HandlerSpec(stack, c.request); t.(calls := calls + t.calls)
  }

  function CatchSpec(stack: Stack, r: Request, error: Error): Run {
    var failed := r.(response := None, early := None, error := error);
    if stack.durable(failed.rest) then Run(failed, Threw(error), [])
    else
      var c := RunChain(stack.onErrors, failed);
      var calls := Calls(OnErrors, c.count);
      var r' := c.request;
      if c.Raised? then
        var e := if c.error != r'.error then InOnError(r'.error, c.error) else r'.error;
        Run(r'.(error := e), Threw(e), calls)
      else if r'.response.None? then Run(r', Threw(r'.error), calls)
      else Run(r', Returned(r'.response), calls)
  }

  function RunSpec(stack: Stack, r: Request): Run {
    var t := TrySpec(stack, r);
    if t.thrown.None? then Run(t.request, Returned(t.request.response), t.calls)
    else var run := CatchSpec(stack, t.request, t.thrown.value);
      run.(calls := t.calls + run.calls)
  }

  // ---- The request object and the loops ----

  class Invocation {
    var response: Option<Value>
    var error: Error
    var early: Option<Option<Value>>
    var rest: int
    ghost var calls: seq<Call>

    constructor (rest: int)
      ensures Snapshot() == Request(None, Undefined, None, rest) && calls == []
    {
      response, error, early, this.rest, calls := None, Undefined, None, rest, [];
    }

    function Snapshot(): Request
      reads this
    {
      Request(response, error, early, rest)
    }

    /** Call one middleware and take over what it did to the request. */
    method Call(m: Middleware, ghost kind: Kind, ghost i: nat) returns (step: Step)
      modifies this
      ensures step == m(old(Snapshot())) && Snapshot() == step.request
      ensures calls == old(calls) + [CallOf(kind, i)]
    {
      step := m(Snapshot());
      response, error, early, rest :=
        step.request.response, step.request.error, step.request.early, step.request.rest;
      calls := calls + [CallOf(kind, i)];
    }

    /** One of the three loops: it breaks at an early response and ends at a throw. */
    method RunLoop(ms: seq<Middleware>, ghost kind: Kind) returns (thrown: Option<Error>, ghost ended: Chain)
      modifies this
      ensures ended == RunChain(ms, old(Snapshot()))
      ensures thrown == ThrownBy(ended) && Snapshot() == ended.request
      ensures calls == old(calls) + Calls(kind, ended.count)
    {
      assert ms[0..] == ms;
      ghost var whole := RunChain(ms, Snapshot());
      for i := 0 to |ms|
        invariant var rest := RunChain(ms[i..], Snapshot()); whole == rest.(count := rest.count + i)
        invariant calls == old(calls) + Calls(kind, i)
      {
        assert ms[i..][1..] == ms[i + 1..];
        var step := Call(ms[i], kind, i);
        assert Calls(kind, i) + [CallOf(kind, i)] == Calls(kind, i + 1);
        if step.Fail? {
          return Some(step.error), whole;
        }
        if step.result.Some? {
          early := Some(step.result);
        }
        if early.Some? {
          response := early.value;
          return None, whole;
        }
      }
      thrown, ended := None, whole;
    }

    method RunHandler(stack: Stack) returns (thrown: Option<Error>)
      modifies this
      ensures Try(Snapshot(), thrown, calls)
           == var t := HandlerSpec(stack, old(Snapshot())); t.(calls := old(calls) + t.calls)
    {
      calls := calls + [BeforeHandler];
      if stack.beforeHandler.Some? {
        return stack.beforeHandler;
      }
      calls := calls + [Handler];
      var result := stack.handler(rest);
      rest := result.rest;
      if result.Crash? {
        return Some(result.error);
      }
      response := result.response;
      calls := calls + [AfterHandler];
      if stack.afterHandler.Some? {
        return stack.afterHandler;
      }
      ghost var ended;
      thrown, ended := RunLoop(stack.afters, Afters);
    }

    method RunTry(stack: Stack) returns (thrown: Option<Error>)
      modifies this
      ensures Try(Snapshot(), thrown, calls)
           == var t := TrySpec(stack, old(Snapshot())); t.(calls := old(calls) + t.calls)
    {
      ghost var ended;
      thrown, ended := RunLoop(stack.befores, Befores);
      if thrown.None? && early.None? {
        thrown := RunHandler(stack);
      }
    }

    method RunCatch(stack: Stack, thrown: Error) returns (outcome: Outcome)
      modifies this
      ensures Run(Snapshot(), outcome, calls)
           == var run := CatchSpec(stack, old(Snapshot()), thrown); run.(calls := old(calls) + run.calls)
    {
      response := None;
      early := None;
      error := thrown;
      if stack.durable(rest) {
        return Threw(error);
      }
      var raised, ended := RunLoop(stack.onErrors, OnErrors);
      if raised.Some? {
        if raised.value != error {
          error := InOnError(error, raised.value);
        }
        return Threw(error);
      }
      outcome := if response.None? then Threw(error) else Returned(response);
    }

    /** `runRequest`. */
    method RunRequest(stack: Stack) returns (outcome: Outcome)
      modifies this
      ensures Run(Snapshot(), outcome, calls)
           == var run := RunSpec(stack, old(Snapshot())); run.(calls := old(calls) + run.calls)
    {
      var thrown := RunTry(stack);
      if thrown.None? {
        return Returned(response);
      }
      outcome := RunCatch(stack, thrown.value);
    }

    /** The standard execution mode: the request runs as `requestStart` left it, and
        `requestEnd` runs once after it whatever came of it, unless `requestStart`
        threw; neither error of the two is lost. The value a hook returns is not
        looked at, and `requestEnd` comes too late to change the response. */
    method Invoke(stack: Stack, requestStart: Middleware, requestEnd: Option<Error>) returns (outcome: Outcome)
      requires calls == []
      modifies this
      ensures
        var start := requestStart(old(Snapshot()));
        start.Fail? ==> outcome == Threw(start.error) && calls == [RequestStart] && Snapshot() == start.request
      ensures requestStart(old(Snapshot())).Next? ==>
        var run := RunSpec(stack, requestStart(old(Snapshot())).request);
        && Snapshot() == run.request
        && calls == [RequestStart] + run.calls + [RequestEnd]
        && outcome == if requestEnd.None? then run.outcome
                      else if run.outcome.Returned? then Threw(requestEnd.value)
                      else Threw(InRequestEnd(run.outcome.error, requestEnd.value))
    {
      calls := calls + [RequestStart];
      var start := requestStart(Snapshot());
      response, error, early, rest :=
        start.request.response, start.request.error, start.request.early, start.request.rest;
      if start.Fail? {
        return Threw(start.error);
      }
      var ran := RunRequest(stack);
      calls := calls + [RequestEnd];
      if requestEnd.Some? {
        if ran.Returned? {
          return Threw(requestEnd.value);
        }
        return Threw(InRequestEnd(ran.error, requestEnd.value));
      }
      outcome := ran;
    }
  }

  // ---- What the specification promises ----

  /** The request as the `j`-th middleware finds it when all before it went through. */
  ghost function At(ms: seq<Middleware>, r: Request, j: nat): Request
    requires j <= |ms|
  {
    if j == 0 then r else ms[j - 1](At(ms, r, j - 1)).request
  }

  /** The `j`-th middleware does not throw, returns nothing and leaves no early response. */
  ghost predicate GoesOn(ms: seq<Middleware>, r: Request, j: nat)
    requires j < |ms|
  {
    var step := ms[j](At(ms, r, j));
    step.Next? && step.result.None? && step.request.early.None?
  }

  /** The early response of a step that leaves one: what the middleware returns, or else
      what it set. */
  ghost predicate LeavesEarly(step: Step, early: Option<Value>)
  {
    && step.Next?
    && (step.result.Some? ==> early == step.result)
    && (step.result.None? ==> step.request.early == Some(early))
  }

  /** The list goes through its first `n` middlewares, and no further. */
  ghost predicate Stops(ms: seq<Middleware>, r: Request, n: nat)
  {
    n <= |ms| && (forall j :: 0 <= j < n ==> GoesOn(ms, r, j)) && (n < |ms| ==> !GoesOn(ms, r, n))
  }

  lemma {:induction false} AtShift(ms: seq<Middleware>, r: Request, j: nat)
    requires ms != [] && j < |ms|
    ensures At(ms, r, j + 1) == At(ms[1..], ms[0](r).request, j)
  {
    if j > 0 {
      AtShift(ms, r, j - 1);
    }
  }

  /** A list runs in order up to the first middleware that throws or leaves an
      early response, that one included, and no further. */
  lemma {:induction false} ChainStopsAtFirst(ms: seq<Middleware>, r: Request)
    ensures
      var c := RunChain(ms, r);
      && c.count <= |ms|
      && Stops(ms, r, if c.Through? then c.count else c.count - 1)
      && (c.Through? ==> c.count == |ms| && c.request == At(ms, r, |ms|))
      && (!c.Through? ==>
            && c.count > 0
            && var step := ms[c.count - 1](At(ms, r, c.count - 1));
               if step.Fail? then c == Raised(step.request, c.count, step.error)
               else
                 && c.Early? && LeavesEarly(step, c.request.response)
                 && c.request == step.request.(response := c.request.response, early := Some(c.request.response)))
  {
    if ms != [] && GoesOn(ms, r, 0) {
      var next := ms[0](r).request;
      ChainStopsAtFirst(ms[1..], next);
      forall j | 0 <= j < |ms|
        ensures At(ms, r, j + 1) == At(ms[1..], next, j)
      {
        AtShift(ms, r, j);
      }
      forall j | 0 < j < |ms|
        ensures GoesOn(ms, r, j) <==> GoesOn(ms[1..], next, j - 1)
      {
      }
    }
  }

  /** The calls of a run: some befores, perhaps the handler with its hooks and
      some afters, and some onErrors, each in order from the first. */
  ghost predicate InOrder(calls: seq<Call>, b: nat, middle: seq<Call>, a: nat, e: nat)
  {
    && calls == Calls(Befores, b) + middle + Calls(Afters, a) + Calls(OnErrors, e)
    && (middle == [] || middle == [BeforeHandler] || middle == [BeforeHandler, Handler]
        || middle == [BeforeHandler, Handler, AfterHandler])
    && (a > 0 ==> |middle| == 3)
  }

  ghost predicate NoRepeats(calls: seq<Call>)
  {
    forall i, j :: 0 <= i < j < |calls| ==> calls[i] != calls[j]
  }

  lemma InOrderNoRepeats(calls: seq<Call>, b: nat, middle: seq<Call>, a: nat, e: nat)
    requires InOrder(calls, b, middle, a, e)
    ensures NoRepeats(calls)
  {
    var m, n := b + |middle|, b + |middle| + a;
    assert forall i :: 0 <= i < b ==> calls[i] == Before(i);
    assert forall i :: b <= i < m ==> calls[i] == middle[i - b];
    assert forall i :: m <= i < n ==> calls[i] == After(i - m);
    assert forall i :: n <= i < |calls| ==> calls[i] == OnError(i - n);
  }

  lemma ChainRuns(ms: seq<Middleware>, r: Request)
    ensures RunChain(ms, r).count > 0 <==> ms != []
  {
  }

  lemma HandlerCalls(stack: Stack, r: Request) returns (middle: seq<Call>, a: nat)
    ensures HandlerSpec(stack, r).calls == middle + Calls(Afters, a)
    ensures middle == if stack.beforeHandler.Some? then [BeforeHandler]
                      else if stack.handler(r.rest).Crash? then [BeforeHandler, Handler]
                      else [BeforeHandler, Handler, AfterHandler]
    ensures a <= |stack.afters|
    ensures a > 0 <==> |middle| == 3 && stack.afterHandler.None? && stack.afters != []
  {
    hide RunChain;
    middle, a := [BeforeHandler, Handler, AfterHandler], 0;
    if stack.beforeHandler.Some? {
      middle := [BeforeHandler];
    } else {
      var step := stack.handler(r.rest);
      if step.Crash? {
        middle := [BeforeHandler, Handler];
      } else if stack.afterHandler.None? {
        var r' := r.(rest := step.rest, response := step.response);
        ChainStopsAtFirst(stack.afters, r');
        ChainRuns(stack.afters, r');
        a := RunChain(stack.afters, r').count;
      }
    }
  }

  lemma TryCalls(stack: Stack, r: Request) returns (b: nat, middle: seq<Call>, a: nat)
    ensures InOrder(TrySpec(stack, r).calls, b, middle, a, 0)
    ensures b == RunChain(stack.befores, r).count && a <= |stack.afters|
    ensures middle != [] <==> RunChain(stack.befores, r).Through? && RunChain(stack.befores, r).request.early.None?
    ensures |middle| >= 2 ==> stack.beforeHandler.None?
    ensures middle == [BeforeHandler] ==> stack.beforeHandler.Some?
    ensures |middle| == 3 <==> |middle| >= 2 && stack.handler(RunChain(stack.befores, r).request.rest).Answer?
    ensures a > 0 <==> |middle| == 3 && stack.afterHandler.None? && stack.afters != []
  {
    hide RunChain;
    var c, t := RunChain(stack.befores, r), TrySpec(stack, r);
    b, middle, a := c.count, [], 0;
    ChainStopsAtFirst(stack.befores, r);
    if !(c.Raised? || c.request.early.Some?) {
      assert c.Through? by {
        EarlyIsEarly(stack.befores, r);
      }
      middle, a := HandlerCalls(stack, c.request);
      hide HandlerSpec;
    } else {
      EarlyIsEarly(stack.befores, r);
    }
  }

  lemma {:induction false} EarlyIsEarly(ms: seq<Middleware>, r: Request)
    ensures var c := RunChain(ms, r); c.Early? ==> c.request.early.Some? && c.request.response == c.request.early.value
    ensures var c := RunChain(ms, r); c.Through? && ms != [] ==> c.request.early.None?
    ensures var c := RunChain(ms, r); ms == [] ==> c == Through(r, 0)
  {
    if ms != [] {
      EarlyIsEarly(ms[1..], Settle(ms[0](r)));
    }
  }

  /** Every run, over all stacks and requests: the calls are some befores, perhaps
      the handler with its hooks, some afters and some onErrors, each kind in order
      from the first and nothing twice; the handler runs exactly when every before
      went through without an early response and the hook before it did not throw;
      afters exactly when the handler answered and the hook after it did not throw;
      onErrors exactly when something threw outside durable mode; and a run in
      which something threw returns a value or throws, never `undefined`. */
  lemma RunPromises(stack: Stack, r: Request) returns (b: nat, middle: seq<Call>, a: nat, e: nat)
    ensures
      var run, t, c := RunSpec(stack, r), TrySpec(stack, r), RunChain(stack.befores, r);
      && InOrder(run.calls, b, middle, a, e) && NoRepeats(run.calls)
      && b == c.count && a <= |stack.afters| && e <= |stack.onErrors|
      && (|middle| >= 2 <==> c.Through? && c.request.early.None? && stack.beforeHandler.None?)
      && (Handler in run.calls <==> |middle| >= 2)
      && (|middle| == 3 <==> |middle| >= 2 && stack.handler(c.request.rest).Answer?)
      && (a > 0 <==> |middle| == 3 && stack.afterHandler.None? && stack.afters != [])
      && (e > 0 <==> t.thrown.Some? && !stack.durable(t.request.rest) && stack.onErrors != [])
      && ((exists i :: OnError(i) in run.calls) <==> e > 0)
      && (t.thrown.None? ==> run.outcome == Returned(t.request.response))
      && (t.thrown.Some? ==> run.outcome.Threw? || run.outcome.response.Some?)
  {
    hide RunChain;
    var run, t := RunSpec(stack, r), TrySpec(stack, r);
    b, middle, a := TryCalls(stack, r);
    e := |run.calls| - |t.calls|;
    if t.thrown.Some? {
      var failed := t.request.(response := None, early := None, error := t.thrown.value);
      ChainStopsAtFirst(stack.onErrors, failed);
      ChainRuns(stack.onErrors, failed);
    }
    assert InOrder(run.calls, b, middle, a, e);
    InOrderNoRepeats(run.calls, b, middle, a, e);
    InOrderMembers(run.calls, b, middle, a, e);
  }

  lemma InOrderMembers(calls: seq<Call>, b: nat, middle: seq<Call>, a: nat, e: nat)
    requires InOrder(calls, b, middle, a, e)
    ensures Handler in calls <==> |middle| >= 2
    ensures (exists i :: OnError(i) in calls) <==> e > 0
  {
    var n := b + |middle| + a;
    assert forall i :: 0 <= i < b ==> calls[i] == Before(i);
    assert forall i :: b <= i < b + |middle| ==> calls[i] == middle[i - b];
    assert forall i :: b + |middle| <= i < n ==> calls[i] == After(i - b - |middle|);
    assert forall i :: n <= i < |calls| ==> calls[i] == OnError(i - n);
    if |middle| >= 2 {
      assert calls[b + 1] == Handler;
    }
    if e > 0 {
      assert calls[n] == OnError(0);
    }
  }

  // ---- What comes of a request ----

  /** A before that leaves an early response: it is what is returned. */
  lemma EarlyReturned(stack: Stack, r: Request, n: nat, early: Option<Value>)
    requires Stops(stack.befores, r, n) && n < |stack.befores|
    requires LeavesEarly(stack.befores[n](At(stack.befores, r, n)), early)
    ensures RunSpec(stack, r).outcome == Returned(early) && TrySpec(stack, r).thrown.None?
  {
    ChainStopsAtFirst(stack.befores, r);
    hide RunChain, HandlerSpec, CatchSpec;
  }

  /** An early response that was there before, with no befores: the handler is passed over. */
  lemma SkippedReturned(stack: Stack, r: Request)
    requires stack.befores == [] && r.early.Some?
    ensures RunSpec(stack, r).outcome == Returned(r.response) && TrySpec(stack, r).thrown.None?
  {
    hide HandlerSpec, CatchSpec;
  }

  /** Every before went through, and leaves the request like this. */
  ghost predicate Ready(stack: Stack, r: Request, q: Request)
  {
    Stops(stack.befores, r, |stack.befores|) && q == At(stack.befores, r, |stack.befores|) && q.early.None?
  }

  /** The handler answered, both hooks went through, and the request has the answer. */
  ghost predicate Answered(stack: Stack, r: Request, q: Request)
  {
    var p := At(stack.befores, r, |stack.befores|);
    && Ready(stack, r, p) && stack.beforeHandler.None? && stack.afterHandler.None?
    && stack.handler(p.rest).Answer?
    && q == Request(stack.handler(p.rest).response, p.error, None, stack.handler(p.rest).rest)
  }

  lemma AnsweredTry(stack: Stack, r: Request, q: Request)
    requires Answered(stack, r, q)
    ensures
      var t, a := TrySpec(stack, r), RunChain(stack.afters, q);
      t.request == a.request && t.thrown == ThrownBy(a)
  {
    ChainStopsAtFirst(stack.befores, r);
    hide RunChain;
  }

  /** An answer: what the last after leaves of it is returned, the answer itself when
      there are none, and the early response of an after that leaves one. */
  lemma AnswerReturned(stack: Stack, r: Request, q: Request, n: nat)
    requires Answered(stack, r, q) && Stops(stack.afters, q, n)
    ensures
      var outcome := RunSpec(stack, r).outcome;
      && (n == |stack.afters| ==> outcome == Returned(At(stack.afters, q, n).response))
      && (stack.afters == [] ==> outcome == Returned(q.response))
      && (n < |stack.afters| ==> forall early ::
            LeavesEarly(stack.afters[n](At(stack.afters, q, n)), early) ==> outcome == Returned(early))
      && (n == |stack.afters| || stack.afters[n](At(stack.afters, q, n)).Next? ==> TrySpec(stack, r).thrown.None?)
  {
    ChainStopsAtFirst(stack.afters, q);
    AnsweredTry(stack, r, q);
    hide RunChain, TrySpec, CatchSpec, Answered;
  }

  /** The error thrown first, and the request as it is then. */
  ghost predicate Throws(stack: Stack, r: Request, q: Request, error: Error)
  {
    || (exists n :: FailsAt(stack.befores, r, n, q, error))
    || (Ready(stack, r, q) && stack.beforeHandler == Some(error))
    || (exists p :: Ready(stack, r, p) && stack.beforeHandler.None?
                    && stack.handler(p.rest) == Crash(q.rest, error) && q == p.(rest := q.rest))
    || (exists p :: Ready(stack, r, p) && stack.beforeHandler.None? && stack.afterHandler == Some(error)
                    && stack.handler(p.rest) == Answer(q.rest, q.response)
                    && q == p.(rest := q.rest, response := q.response))
    || (exists p, n :: Answered(stack, r, p) && FailsAt(stack.afters, p, n, q, error))
  }

  /** The first middleware that stops the list throws. */
  ghost predicate FailsAt(ms: seq<Middleware>, r: Request, n: nat, q: Request, error: Error)
  {
    Stops(ms, r, n) && n < |ms| && ms[n](At(ms, r, n)) == Fail(q, error)
  }

  lemma ThrownTry(stack: Stack, r: Request, q: Request, error: Error)
    requires Throws(stack, r, q, error)
    ensures TrySpec(stack, r).request == q && TrySpec(stack, r).thrown == Some(error)
  {
    ChainStopsAtFirst(stack.befores, r);
    if p, n :| Answered(stack, r, p) && FailsAt(stack.afters, p, n, q, error) {
      ChainStopsAtFirst(stack.afters, p);
      AnsweredTry(stack, r, p);
      hide TrySpec;
    }
    hide RunChain;
  }

  /** A throw: response and early response are dropped. In durable mode the error is
      rethrown. Otherwise a response the onErrors leave is returned, and without one
      the error is thrown as they leave it, together with a different one an onError
      throws. */
  lemma ThrownOutcome(stack: Stack, r: Request, q: Request, error: Error, n: nat)
    requires Throws(stack, r, q, error)
    requires Stops(stack.onErrors, Request(None, error, None, q.rest), n)
    ensures
      var run, failed := RunSpec(stack, r), Request(None, error, None, q.rest);
      if stack.durable(q.rest) then run.outcome == Threw(error) && run.request == failed
      else if n == |stack.onErrors| then
        var last := At(stack.onErrors, failed, n);
        && run.outcome == (if last.response.Some? then Returned(last.response) else Threw(last.error))
        && (stack.onErrors == [] ==> run.outcome == Threw(error))
      else
        match stack.onErrors[n](At(stack.onErrors, failed, n))
        case Fail(left, second) =>
          run.outcome == Threw(if second == left.error then second else InOnError(left.error, second))
        case Next(left, result) => forall early :: LeavesEarly(Next(left, result), early) ==>
          run.outcome == if early.Some? then Returned(early) else Threw(left.error)
    ensures RunSpec(stack, r).outcome.Threw? ==> RunSpec(stack, r).request.error == RunSpec(stack, r).outcome.error
  {
    ThrownTry(stack, r, q, error);
    ChainStopsAtFirst(stack.onErrors, Request(None, error, None, q.rest));
    hide TrySpec, RunChain, Throws;
  }

  lemma {:induction false} StopsSomewhere(ms: seq<Middleware>, r: Request) returns (n: nat)
    ensures Stops(ms, r, n)
  {
    n := 0;
    while n < |ms| && GoesOn(ms, r, n)
      invariant n <= |ms| && forall j :: 0 <= j < n ==> GoesOn(ms, r, j)
    {
      n := n + 1;
    }
  }

  /** These are all the ways a request ends. */
  lemma EveryRequestEnds(stack: Stack, r: Request) returns (q: Request, n: nat, error: Error)
    ensures
      || (n < |stack.befores| && Stops(stack.befores, r, n) && stack.befores[n](At(stack.befores, r, n)).Next?)
      || (stack.befores == [] && r.early.Some?)
      || (Answered(stack, r, q) && Stops(stack.afters, q, n)
          && (n < |stack.afters| ==> stack.afters[n](At(stack.afters, q, n)).Next?))
      || Throws(stack, r, q, error)
  {
    q, error := r, Undefined;
    n := StopsSomewhere(stack.befores, r);
    if n < |stack.befores| {
      var step := stack.befores[n](At(stack.befores, r, n));
      if step.Fail? {
        q, error := step.request, step.error;
        assert FailsAt(stack.befores, r, n, q, error);
      }
    } else {
      var p := At(stack.befores, r, n);
      if p.early.None? {
        q, n, error := HandlerEnds(stack, r, p);
      } else {
        assert n > 0 ==> GoesOn(stack.befores, r, n - 1);
      }
    }
  }

  lemma HandlerEnds(stack: Stack, r: Request, p: Request) returns (q: Request, n: nat, error: Error)
    requires Ready(stack, r, p)
    ensures
      || (Answered(stack, r, q) && Stops(stack.afters, q, n)
          && (n < |stack.afters| ==> stack.afters[n](At(stack.afters, q, n)).Next?))
      || Throws(stack, r, q, error)
  {
    hide Stops, At;
    q, n, error := p, 0, Undefined;
    if stack.beforeHandler.Some? {
      error := stack.beforeHandler.value;
      return;
    }
    match stack.handler(p.rest)
    case Crash(rest, e) =>
      q, error := p.(rest := rest), e;
      assert Ready(stack, r, p);
    case Answer(rest, response) =>
      q := p.(rest := rest, response := response);
      if stack.afterHandler.Some? {
        error := stack.afterHandler.value;
        assert Ready(stack, r, p);
      } else {
        n := StopsSomewhere(stack.afters, q);
        assert Answered(stack, r, q);
        if n < |stack.afters| && stack.afters[n](At(stack.afters, q, n)).Fail? {
          var step := stack.afters[n](At(stack.afters, q, n));
          assert FailsAt(stack.afters, q, n, step.request, step.error);
          q, error := step.request, step.error;
        }
      }
  }
}
