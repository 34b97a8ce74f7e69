/** The JWKS resolver: one cached key set, one fetch at a time, a cooldown between
    fetches that also answers with the last failure. */
module JwksResolver {
  import opened Wrappers

  /** A member of a parsed key, as far as `===` tells values apart: an array by
      which array it is, any remaining value by which value it is. */
  datatype Field = Undefined | Text(text: string) | List(array_: nat, items: seq<string>) | Other(value: nat)

  datatype Jwk = Jwk(kid: Field, use: Field, keyOps: Field, material: nat)

  type Doc = seq<Jwk>

  type Error = nat

  /** `canVerify`: sections 4.2 and 4.3 of RFC 7517. */
  predicate CanVerify(jwk: Jwk) {
    && (jwk.use == Undefined || jwk.use == Text("sig"))
    && (jwk.keyOps == Undefined || (jwk.keyOps.List? && "verify" in jwk.keyOps.items))
  }

  predicate Matches(jwk: Jwk, kid: Field) {
    jwk.kid == kid && CanVerify(jwk)
  }

  /** `findJwk`: the first key that matches. */
  function FindJwk(doc: Doc, kid: Field): (found: Option<Jwk>)
    ensures found.Some? ==> found.value in doc && Matches(found.value, kid)
    ensures found.None? ==> forall jwk :: jwk in doc ==> !Matches(jwk, kid)
  {
    if doc == [] then None
    else if Matches(doc[0], kid) then Some(doc[0])
    else FindJwk(doc[1..], kid)
  }

  /** The key found is the first one that matches. */
  lemma {:induction false} FindsFirst(doc: Doc, kid: Field) returns (k: nat)
    requires FindJwk(doc, kid).Some?
    ensures k < |doc| && FindJwk(doc, kid) == Some(doc[k]) && Matches(doc[k], kid)
    ensures forall j :: 0 <= j < k ==> !Matches(doc[j], kid)
  {
    if Matches(doc[0], kid) {
      k := 0;
    } else {
      k := FindsFirst(doc[1..], kid);
      k := k + 1;
    }
  }

  /** Keys never found, whatever their `kid`: exactly those published for another use than
      signing, or with operations that leave out `verify` or are no list. */
  lemma NeverFound(jwk: Jwk, kid: Field)
    ensures FindJwk([jwk], kid).None? <==>
      || jwk.kid != kid
      || (jwk.use.Text? && jwk.use.text != "sig") || jwk.use.List? || jwk.use.Other?
      || (jwk.keyOps.List? && forall op :: op in jwk.keyOps.items ==> op != "verify")
      || jwk.keyOps.Text? || jwk.keyOps.Other?
  {
    assert [jwk][1..] == [];
  }

  /** What a `fetchJwks` call gave: the fetch with that number, or an answer. */
  datatype Source = InFlight(fetch: nat) | Ready(result: Result<Doc, Error>)

  datatype Stage = First(source: Source) | Second(source: Source) | Returned(jwk: Option<Jwk>) | Threw(error: Error)

  /** One `getJwk`; `fetches` counts its `fetchJwks` calls. */
  datatype Call = Call(kid: Field, fetches: nat, stage: Stage)

  /** `starts` are the times fetches started, `outcomes` how they settled: the k-th
      outcome is the k-th fetch's. */
  datatype Resolver = Resolver(cacheMaxAge: int, cooldown: nat, now: int, cache: Option<Doc>, cacheTime: int,
                               lastFetchTime: Option<int>, lastError: Option<Error>, inflight: Option<nat>,
                               starts: seq<int>, outcomes: seq<Result<Doc, Error>>, calls: seq<Call>)

  /** What can happen next, in any order: time passes, the resolver is warmed, a
      key is asked for, the fetch settles, a waiting call runs on. */
  datatype Event =
    | Later(ms: nat)
    | Warm
    | GetJwk(kid: Field)
    | Settle(outcome: Result<Doc, Error>)
    | Resume(call: nat)

  // ---- Steps ----

  function Begin(cacheMaxAge: int, cooldown: nat, now: int): Resolver {
    Resolver(cacheMaxAge, cooldown, now, None, 0, None, None, None, [], [], [])
  }

  predicate Cooling(r: Resolver) {
    r.lastFetchTime.Some? && r.now - r.lastFetchTime.value < r.cooldown
  }

  /** A miss inside the cooldown has something to answer with. */
  predicate Answerable(r: Resolver) {
    r.inflight.None? && Cooling(r) ==> r.cache.Some? || r.lastError.Some?
  }

  function FetchJwks(r: Resolver): (Resolver, Source)
    requires Answerable(r)
  {
    if r.inflight.Some? then (r, InFlight(r.inflight.value))
    else if Cooling(r) then
      (r, Ready(if r.cache.Some? then Success(r.cache.value) else Failure(r.lastError.value)))
    else
      (r.(lastFetchTime := Some(r.now), inflight := Some(|r.starts|), starts := r.starts + [r.now]),
       InFlight(|r.starts|))
  }

  function SettleSpec(r: Resolver, outcome: Result<Doc, Error>): Resolver {
    if r.inflight.None? then r
    else
      var r' := r.(inflight := None, outcomes := r.outcomes + [outcome]);
      match outcome
      case Success(doc) => r'.(cache := Some(doc), cacheTime := r.now)
      case Failure(error) => r'.(lastError := Some(error))
  }

  /** The end of `getJwk`: look the key up, the first time fetching again. */
  function Look(r: Resolver, call: Call, doc: Doc, again: bool): (Resolver, Call)
    requires Answerable(r)
  {
    var found := FindJwk(doc, call.kid);
    if found.Some? || !again then (r, call.(stage := Returned(found)))
    else
      var (r', source) := FetchJwks(r);
      (r', call.(fetches := call.fetches + 1, stage := Second(source)))
  }

  function GetJwkSpec(r: Resolver, kid: Field): (Resolver, Call)
    requires Answerable(r)
  {
    if r.cache.None? || r.now - r.cacheTime > r.cacheMaxAge then
      var (r', source) := FetchJwks(r);
      (r', Call(kid, 1, First(source)))
    else Look(r, Call(kid, 0, Threw(0)), r.cache.value, true)
  }

  predicate Settled(r: Resolver, source: Source) {
    source.Ready? || source.fetch < |r.outcomes|
  }

  function ResultOf(r: Resolver, source: Source): Result<Doc, Error>
    requires Settled(r, source)
  {
    if source.Ready? then source.result else r.outcomes[source.fetch]
  }

  function ResumeSpec(r: Resolver, call: Call): (Resolver, Call)
    requires Answerable(r)
  {
    match call.stage
    case First(source) =>
      if !Settled(r, source) then (r, call)
      else
        (match ResultOf(r, source)
         case Success(doc) => Look(r, call, doc, true)
         case Failure(error) => (r, call.(stage := Threw(error))))
    case Second(source) =>
      if !Settled(r, source) then (r, call)
      else
        (match ResultOf(r, source)
         case Success(doc) => Look(r, call, doc, false)
         case Failure(error) => (r, call.(stage := Threw(error))))
    case Returned(_) => (r, call)
    case Threw(_) => (r, call)
  }

  function Step(r: Resolver, e: Event): Resolver
    requires Answerable(r)
  {
    match e
    case Later(ms) => r.(now := r.now + ms)
    case Warm => FetchJwks(r).0
    case GetJwk(kid) =>
      var (r', call) := GetJwkSpec(r, kid);
      r'.(calls := r.calls + [call])
    case Settle(outcome) => SettleSpec(r, outcome)
    case Resume(c) =>
      if c >= |r.calls| then r
      else
        var (r', call) := ResumeSpec(r, r.calls[c]);
        r'.(calls := r.calls[c := call])
  }

  // ---- What every step keeps ----

  function LastDoc(outcomes: seq<Result<Doc, Error>>): Option<Doc> {
    if outcomes == [] then None
    else if outcomes[|outcomes| - 1].Success? then Some(outcomes[|outcomes| - 1].value)
    else LastDoc(outcomes[..|outcomes| - 1])
  }

  function LastFailure(outcomes: seq<Result<Doc, Error>>): Option<Error> {
    if outcomes == [] then None
    else if outcomes[|outcomes| - 1].Failure? then Some(outcomes[|outcomes| - 1].error)
    else LastFailure(outcomes[..|outcomes| - 1])
  }

  /** One fetch at a time, no two starts closer than the cooldown. */
  ghost predicate OneFetch(r: Resolver)
  {
    && |r.starts| == |r.outcomes| + (if r.inflight.Some? then 1 else 0)
    && (r.inflight.Some? ==> r.inflight.value == |r.outcomes|)
    && r.lastFetchTime == (if r.starts == [] then None else Some(r.starts[|r.starts| - 1]))
    && (r.starts != [] ==> r.starts[|r.starts| - 1] <= r.now)
    && forall k :: 0 < k < |r.starts| ==> r.starts[k] - r.starts[k - 1] >= r.cooldown
  }

  /** The cache is the last document fetched, the error the last failure. */
  ghost predicate Remembers(r: Resolver)
  {
    r.cache == LastDoc(r.outcomes) && r.lastError == LastFailure(r.outcomes)
  }

  ghost predicate Fetched(outcomes: seq<Result<Doc, Error>>, doc: Doc)
  {
    exists k :: 0 <= k < |outcomes| && outcomes[k] == Success(doc)
  }

  ghost predicate SourceOk(r: Resolver, source: Source)
  {
    match source
    case InFlight(fetch) => fetch < |r.starts|
    case Ready(result) => result.Success? ==> Fetched(r.outcomes, result.value)
  }

  /** A call fetches at most twice, and what it returns is a key of a fetched
      document with the `kid` asked for that may verify. */
  ghost predicate CallOk(r: Resolver, call: Call)
  {
    match call.stage
    case First(source) => call.fetches == 1 && SourceOk(r, source)
    case Second(source) => call.fetches <= 2 && SourceOk(r, source)
    case Returned(found) =>
      && call.fetches <= 2
      && (found.Some? ==>
            && found.value.kid == call.kid && CanVerify(found.value)
            && exists doc :: Fetched(r.outcomes, doc) && found.value in doc)
    case Threw(_) => call.fetches <= 2
  }

  ghost predicate Valid(r: Resolver)
  {
    && OneFetch(r) && Remembers(r)
    && forall c :: 0 <= c < |r.calls| ==> CallOk(r, r.calls[c])
  }

  /** Once a fetch has settled there is a document or a failure to answer with. */
  lemma {:induction false} SomethingRemembered(outcomes: seq<Result<Doc, Error>>)
    requires outcomes != []
    ensures LastDoc(outcomes).Some? || LastFailure(outcomes).Some?
  {
  }

  lemma ValidAnswers(r: Resolver)
    requires Valid(r)
    ensures Answerable(r)
  {
    if r.outcomes != [] {
      SomethingRemembered(r.outcomes);
    }
  }

  lemma {:induction false} LastDocFetched(outcomes: seq<Result<Doc, Error>>)
    requires LastDoc(outcomes).Some?
    ensures Fetched(outcomes, LastDoc(outcomes).value)
  {
    var n := |outcomes|;
    if outcomes[n - 1].Success? {
      assert outcomes[n - 1] == Success(LastDoc(outcomes).value);
    } else {
      LastDocFetched(outcomes[..n - 1]);
      FetchedMore(outcomes[..n - 1], outcomes[n - 1], LastDoc(outcomes).value);
      assert outcomes[..n - 1] + [outcomes[n - 1]] == outcomes;
    }
  }

  lemma FetchedMore(outcomes: seq<Result<Doc, Error>>, outcome: Result<Doc, Error>, doc: Doc)
    requires Fetched(outcomes, doc)
    ensures Fetched(outcomes + [outcome], doc)
  {
    var k :| 0 <= k < |outcomes| && outcomes[k] == Success(doc);
    assert (outcomes + [outcome])[k] == Success(doc);
  }

  /** A call stays in order while fetches start and settle. */
  lemma CallStays(r: Resolver, r': Resolver, call: Call)
    requires CallOk(r, call) && |r.starts| <= |r'.starts|
    requires r'.outcomes == r.outcomes || exists outcome :: r'.outcomes == r.outcomes + [outcome]
    ensures CallOk(r', call)
  {
    forall doc | Fetched(r.outcomes, doc)
      ensures Fetched(r'.outcomes, doc)
    {
      if r'.outcomes != r.outcomes {
        var outcome :| r'.outcomes == r.outcomes + [outcome];
        FetchedMore(r.outcomes, outcome, doc);
      }
    }
  }

  lemma FetchJwksKeeps(r: Resolver)
    requires OneFetch(r) && Remembers(r) && Answerable(r)
    ensures
      var (r', source) := FetchJwks(r);
      && OneFetch(r') && Remembers(r') && SourceOk(r', source)
      && r'.outcomes == r.outcomes && r'.calls == r.calls && |r.starts| <= |r'.starts|
  {
    if r.cache.Some? {
      LastDocFetched(r.outcomes);
    }
  }

  lemma LookKeeps(r: Resolver, call: Call, doc: Doc, again: bool)
    requires OneFetch(r) && Remembers(r) && Answerable(r)
    requires Fetched(r.outcomes, doc) && call.fetches + (if again then 1 else 0) <= 2
    ensures
      var (r', call') := Look(r, call, doc, again);
      && OneFetch(r') && Remembers(r') && CallOk(r', call')
      && r'.outcomes == r.outcomes && r'.calls == r.calls && |r.starts| <= |r'.starts|
  {
    FetchJwksKeeps(r);
    hide OneFetch, Remembers, FetchJwks;
  }

  lemma GetJwkKeeps(r: Resolver, kid: Field)
    requires OneFetch(r) && Remembers(r) && Answerable(r)
    ensures
      var (r', call') := GetJwkSpec(r, kid);
      && OneFetch(r') && Remembers(r') && CallOk(r', call')
      && r'.outcomes == r.outcomes && r'.calls == r.calls && |r.starts| <= |r'.starts|
  {
    FetchJwksKeeps(r);
    if r.cache.Some? {
      LastDocFetched(r.outcomes);
      LookKeeps(r, Call(kid, 0, Threw(0)), r.cache.value, true);
    }
    hide OneFetch, Remembers, FetchJwks, Look;
  }

  lemma ResumeKeeps(r: Resolver, call: Call)
    requires OneFetch(r) && Remembers(r) && Answerable(r) && CallOk(r, call)
    ensures
      var (r', call') := ResumeSpec(r, call);
      && OneFetch(r') && Remembers(r') && CallOk(r', call')
      && r'.outcomes == r.outcomes && r'.calls == r.calls && |r.starts| <= |r'.starts|
  {
    if (call.stage.First? || call.stage.Second?) && Settled(r, call.stage.source) {
      var result := ResultOf(r, call.stage.source);
      if result.Success? {
        assert Fetched(r.outcomes, result.value);
        LookKeeps(r, call, result.value, call.stage.First?);
      }
    }
    hide OneFetch, Remembers, FetchJwks, Look, Fetched;
  }

  lemma SettleKeeps(r: Resolver, outcome: Result<Doc, Error>)
    requires Valid(r)
    ensures Valid(SettleSpec(r, outcome))
  {
    if r.inflight.Some? {
      var r' := SettleSpec(r, outcome);
      assert r'.outcomes[..|r.outcomes|] == r.outcomes;
      forall c | 0 <= c < |r.calls|
        ensures CallOk(r', r'.calls[c])
      {
        CallStays(r, r', r.calls[c]);
      }
      hide CallOk;
    }
  }

  lemma CallsKeep(r: Resolver, r': Resolver, calls: seq<Call>)
    requires Valid(r) && OneFetch(r') && Remembers(r')
    requires r'.outcomes == r.outcomes && |r.starts| <= |r'.starts|
    requires forall c :: 0 <= c < |calls| ==> CallOk(r', calls[c]) || calls[c] in r.calls
    ensures Valid(r'.(calls := calls))
  {
    var r'' := r'.(calls := calls);
    forall c | 0 <= c < |calls|
      ensures CallOk(r'', calls[c])
    {
      if calls[c] in r.calls {
        CallStays(r, r'', calls[c]);
      } else {
        CallStays(r', r'', calls[c]);
      }
    }
  }

  lemma WarmKeeps(r: Resolver)
    requires Valid(r) && Answerable(r)
    ensures Valid(FetchJwks(r).0)
  {
    FetchJwksKeeps(r);
    CallsKeep(r, FetchJwks(r).0, r.calls);
  }

  lemma AskKeeps(r: Resolver, kid: Field)
    requires Valid(r) && Answerable(r)
    ensures Valid(Step(r, GetJwk(kid)))
  {
    hide FetchJwks, GetJwkSpec, CallOk, OneFetch, Remembers;
    GetJwkKeeps(r, kid);
    var (r', call) := GetJwkSpec(r, kid);
    CallsKeep(r, r', r.calls + [call]);
  }

  lemma GoOnKeeps(r: Resolver, c: nat)
    requires Valid(r) && Answerable(r)
    ensures Valid(Step(r, Resume(c)))
  {
    hide FetchJwks, ResumeSpec, CallOk, OneFetch, Remembers;
    if c < |r.calls| {
      ResumeKeeps(r, r.calls[c]);
      var (r', call) := ResumeSpec(r, r.calls[c]);
      CallsKeep(r, r', r.calls[c := call]);
    }
  }

  lemma LaterKeeps(r: Resolver, ms: nat)
    requires Valid(r)
    ensures Valid(r.(now := r.now + ms))
  {
    CallsKeep(r, r.(now := r.now + ms), r.calls);
  }

  lemma StepKeeps(r: Resolver, e: Event)
    requires Valid(r)
    ensures Answerable(r) && Valid(Step(r, e)) && Step(r, e).cooldown == r.cooldown
  {
    ValidAnswers(r);
    StepFrame(r, e);
    hide Valid, FetchJwks, SettleSpec, Answerable;
    match e
    case Later(ms) => LaterKeeps(r, ms);
    case Warm => WarmKeeps(r);
    case GetJwk(kid) => AskKeeps(r, kid);
    case Settle(outcome) => SettleKeeps(r, outcome);
    case Resume(c) => GoOnKeeps(r, c);
  }

  lemma StepFrame(r: Resolver, e: Event)
    requires Answerable(r)
    ensures Step(r, e).cooldown == r.cooldown
  {
    hide FindJwk;
  }

  ghost function Run(r: Resolver, events: seq<Event>): (r': Resolver)
    requires Valid(r)
    ensures Valid(r') && r'.cooldown == r.cooldown
    decreases |events|
  {
    if events == [] then r
    else
      StepKeeps(r, events[0]);
      Run(Step(r, events[0]), events[1..])
  }

  /** Starts that are a cooldown apart from one to the next are k cooldowns apart
      from one to the k-th after it. */
  lemma {:induction false} Spaced(starts: seq<int>, cooldown: nat, i: nat, j: nat)
    requires i <= j < |starts|
    requires forall k :: 0 < k < |starts| ==> starts[k] - starts[k - 1] >= cooldown
    ensures starts[j] - starts[i] >= (j - i) * cooldown
    decreases j - i
  {
    if i < j {
      Spaced(starts, cooldown, i, j - 1);
      assert starts[j] - starts[j - 1] >= cooldown;
      assert (j - i) * cooldown == (j - 1 - i) * cooldown + cooldown;
    }
  }

  /** Every history of calls, fetch outcomes and elapsed time: at most one fetch is
      outstanding, k further fetches take k cooldowns, a miss in the cooldown is
      answered, and a call that returns a key fetched at most twice and returns a
      fetched key with its `kid` that may verify. */
  lemma EveryRun(cacheMaxAge: int, cooldown: nat, now: int, events: seq<Event>, i: nat, j: nat, c: nat)
    ensures
      Valid(Begin(cacheMaxAge, cooldown, now)) &&
      var r := Run(Begin(cacheMaxAge, cooldown, now), events);
      && |r.outcomes| <= |r.starts| <= |r.outcomes| + 1
      && (i <= j < |r.starts| ==> r.starts[j] - r.starts[i] >= (j - i) * cooldown)
      && Answerable(r)
      && (c < |r.calls| ==>
            && r.calls[c].fetches <= 2
            && (r.calls[c].stage.Returned? && r.calls[c].stage.jwk.Some? ==>
                  Matches(r.calls[c].stage.jwk.value, r.calls[c].kid)))
  {
    var r := Run(Begin(cacheMaxAge, cooldown, now), events);
    ValidAnswers(r);
    if i <= j < |r.starts| {
      Spaced(r.starts, cooldown, i, j);
    }
    if c < |r.calls| {
      assert CallOk(r, r.calls[c]);
    }
    hide Remembers, SourceOk, Fetched;
  }

  lemma {:induction false} RemembersKinds(outcomes: seq<Result<Doc, Error>>)
    ensures LastDoc(outcomes).Some? <==> exists k :: 0 <= k < |outcomes| && outcomes[k].Success?
    ensures LastFailure(outcomes).Some? <==> exists k :: 0 <= k < |outcomes| && outcomes[k].Failure?
  {
    if outcomes != [] {
      var n := |outcomes| - 1;
      RemembersKinds(outcomes[..n]);
      assert forall k :: 0 <= k < n ==> outcomes[..n][k] == outcomes[k];
      assert outcomes[n].Success? || outcomes[n].Failure?;
    }
  }

  /** All fetches that settled ended alike: all in a document, or all in a failure. */
  predicate Alike(outcomes: seq<Result<Doc, Error>>) {
    forall i, j :: 0 <= i < |outcomes| && 0 <= j < |outcomes| ==> outcomes[i].Success? == outcomes[j].Success?
  }

  /** When a document and a failure are both remembered, and so when exactly one of
      them is: a miss in the cooldown finds exactly one if and only if all fetches
      that settled so far ended alike. */
  lemma ExactlyOneRemembered(r: Resolver)
    requires Valid(r)
    ensures r.cache.Some? && r.lastError.Some? <==>
              (exists k :: 0 <= k < |r.outcomes| && r.outcomes[k].Success?) &&
              (exists k :: 0 <= k < |r.outcomes| && r.outcomes[k].Failure?)
    ensures r.inflight.None? && Cooling(r) ==> (r.cache.Some? != r.lastError.Some? <==> Alike(r.outcomes))
  {
    RemembersKinds(r.outcomes);
    if r.inflight.None? && Cooling(r) {
      ValidAnswers(r);
    }
  }

  /** The same, after every history. */
  lemma ExactlyOneAfterEveryRun(cacheMaxAge: int, cooldown: nat, now: int, events: seq<Event>)
    ensures
      Valid(Begin(cacheMaxAge, cooldown, now)) &&
      var r := Run(Begin(cacheMaxAge, cooldown, now), events);
      r.inflight.None? && Cooling(r) ==> (r.cache.Some? != r.lastError.Some? <==> Alike(r.outcomes))
  {
    BeginValid(cacheMaxAge, cooldown, now);
    hide Valid;
    ExactlyOneRemembered(Run(Begin(cacheMaxAge, cooldown, now), events));
  }

  /** A document and a failure can both be remembered: the document is served. */
  lemma BothRemembered(doc: Doc)
    ensures
      var events := [Warm, Settle(Success(doc)), Later(30_000), Warm, Settle(Failure(1))];
      Valid(Begin(600_000, 30_000, 0)) &&
      var r := Run(Begin(600_000, 30_000, 0), events);
      r.cache == Some(doc) && r.lastError == Some(1) && FetchJwks(r).1 == Ready(Success(doc))
  {
    hide Valid;
    var r0 := Begin(600_000, 30_000, 0);
    assert Valid(r0) by { BeginValid(600_000, 30_000, 0); }
    RunStep(r0, Warm, [Settle(Success(doc)), Later(30_000), Warm, Settle(Failure(1))]);
    var r1 := Step(r0, Warm);
    RunStep(r1, Settle(Success(doc)), [Later(30_000), Warm, Settle(Failure(1))]);
    var r2 := Step(r1, Settle(Success(doc)));
    RunStep(r2, Later(30_000), [Warm, Settle(Failure(1))]);
    var r3 := Step(r2, Later(30_000));
    RunStep(r3, Warm, [Settle(Failure(1))]);
    RunStep(Step(r3, Warm), Settle(Failure(1)), []);
  }

  lemma BeginValid(cacheMaxAge: int, cooldown: nat, now: int)
    ensures Valid(Begin(cacheMaxAge, cooldown, now))
  {
  }

  lemma RunStep(r: Resolver, e: Event, rest: seq<Event>)
    requires Valid(r)
    ensures Answerable(r) && Valid(Step(r, e)) && Run(r, [e] + rest) == Run(Step(r, e), rest)
  {
    StepKeeps(r, e);
    assert ([e] + rest)[1..] == rest;
  }

  // ---- What each step does ----

  predicate HasKey(doc: Doc, kid: Field) {
    exists k :: 0 <= k < |doc| && doc[k].kid == kid && CanVerify(doc[k])
  }

  /** A `fetchJwks` call: it joins the fetch in flight; in the cooldown it answers from
      memory, by the document if there is one; otherwise it starts a fetch now. */
  ghost predicate Asks(r: Resolver, r': Resolver, source: Source)
  {
    if r.inflight.Some? then
      source == InFlight(r.inflight.value) && SendsNothing(r, r')
    else if r.lastFetchTime.Some? && r.now < r.lastFetchTime.value + r.cooldown then
      && SendsNothing(r, r')
      && (r.cache.Some? ==> source == Ready(Success(r.cache.value)))
      && (r.cache.None? ==> r.lastError.Some? && source == Ready(Failure(r.lastError.value)))
    else
      && source == InFlight(|r.starts|) && r'.starts == r.starts + [r.now]
      && r'.inflight == Some(|r.starts|) && r'.lastFetchTime == Some(r.now)
  }

  ghost predicate SendsNothing(r: Resolver, r': Resolver)
  {
    r'.starts == r.starts && r'.inflight == r.inflight && r'.lastFetchTime == r.lastFetchTime
  }

  ghost predicate SameMemory(r: Resolver, r': Resolver)
  {
    && r'.cache == r.cache && r'.cacheTime == r.cacheTime && r'.lastError == r.lastError
    && r'.outcomes == r.outcomes && r'.now == r.now
    && r'.cacheMaxAge == r.cacheMaxAge && r'.cooldown == r.cooldown
  }

  /** What a `fetchJwks` call gave, once it has. */
  ghost predicate Gave(r: Resolver, source: Source, result: Result<Doc, Error>)
  {
    match source
    case InFlight(fetch) => fetch < |r.outcomes| && r.outcomes[fetch] == result
    case Ready(given) => given == result
  }

  /** A new call: a document younger than `cacheMaxAge` that has the key returns it, and
      nothing is fetched; one without it is asked for again; and without such a document
      the call waits for one. */
  lemma GetJwkDoes(r: Resolver, kid: Field)
    requires Answerable(r)
    ensures
      var r', n := Step(r, GetJwk(kid)), |r.calls|;
      && |r'.calls| == n + 1 && r'.calls[..n] == r.calls && r'.calls[n].kid == kid && SameMemory(r, r')
      && var call := r'.calls[n];
         if r.cache.None? || r.now > r.cacheTime + r.cacheMaxAge then
           call.stage.First? && call.fetches == 1 && Asks(r, r', call.stage.source)
         else if HasKey(r.cache.value, kid) then
           && call.stage == Returned(FindJwk(r.cache.value, kid)) && call.stage.jwk.Some?
           && call.fetches == 0 && SendsNothing(r, r')
         else
           call.stage.Second? && call.fetches == 1 && Asks(r, r', call.stage.source)
  {
    if r.cache.Some? {
      KeyFound(r.cache.value, kid);
    }
    hide FindJwk;
  }

  lemma {:induction false} KeyFound(doc: Doc, kid: Field)
    ensures HasKey(doc, kid) <==> FindJwk(doc, kid).Some?
  {
    if FindJwk(doc, kid).Some? {
      var k := FindsFirst(doc, kid);
    } else {
      assert forall k :: 0 <= k < |doc| ==> !Matches(doc[k], kid);
    }
  }

  /** A waiting call whose fetch has settled: a failure is thrown; a document with the
      key returns it; one without it is asked for again the first time, and the second
      time there is no key. Any other call stays as it is. */
  lemma ResumeDoes(r: Resolver, c: nat, result: Result<Doc, Error>)
    requires Answerable(r) && c < |r.calls|
    ensures
      var r', call := Step(r, Resume(c)), r.calls[c];
      && |r'.calls| == |r.calls| && r'.calls[c].kid == call.kid && SameMemory(r, r')
      && (forall d :: 0 <= d < |r.calls| && d != c ==> r'.calls[d] == r.calls[d])
      && ((call.stage.First? || call.stage.Second?) && Gave(r, call.stage.source, result) ==>
            var call' := r'.calls[c];
            if result.Failure? then
              call' == call.(stage := Threw(result.error)) && SendsNothing(r, r')
            else if HasKey(result.value, call.kid) then
              && call' == call.(stage := Returned(FindJwk(result.value, call.kid))) && call'.stage.jwk.Some?
              && SendsNothing(r, r')
            else if call.stage.First? then
              call'.stage.Second? && call'.fetches == call.fetches + 1 && Asks(r, r', call'.stage.source)
            else
              call' == call.(stage := Returned(None)) && SendsNothing(r, r'))
      && (Idle(r, call) ==> r' == r)
  {
    if result.Success? {
      KeyFound(result.value, r.calls[c].kid);
    }
    hide FindJwk;
  }

  /** The call has ended, or waits for a fetch that has not settled. */
  predicate Idle(r: Resolver, call: Call) {
    match call.stage
    case First(source) => source.InFlight? && source.fetch >= |r.outcomes|
    case Second(source) => source.InFlight? && source.fetch >= |r.outcomes|
    case Returned(_) => true
    case Threw(_) => true
  }

  /** The fetch in flight settles: a document is kept with its time, a failure beside
      what is kept. Warming fetches, and waits for nothing. */
  lemma OthersDo(r: Resolver, outcome: Result<Doc, Error>, ms: nat)
    requires Answerable(r)
    ensures
      var r' := Step(r, Settle(outcome));
      && r'.calls == r.calls && r'.starts == r.starts && r'.lastFetchTime == r.lastFetchTime && r'.now == r.now
      && if r.inflight.None? then r' == r
         else
           && r'.inflight.None? && r'.outcomes == r.outcomes + [outcome]
           && (outcome.Success? ==>
                 r'.cache == Some(outcome.value) && r'.cacheTime == r.now && r'.lastError == r.lastError)
           && (outcome.Failure? ==>
                 r'.cache == r.cache && r'.cacheTime == r.cacheTime && r'.lastError == Some(outcome.error))
    ensures
      var r' := Step(r, Warm);
      r'.calls == r.calls && SameMemory(r, r') && exists source :: Asks(r, r', source)
    ensures Step(r, Later(ms)) == r.(now := r.now + ms)
  {
    assert Asks(r, FetchJwks(r).0, FetchJwks(r).1);
  }

  /** The step at which a call that missed its key asks again. */
  ghost predicate AsksAgain(p: Resolver, e: Event, q: Resolver, c: nat)
  {
    && c < |q.calls| && q.calls[c].stage.Second? && Asks(p, q, q.calls[c].stage.source)
    && (c == |p.calls| ==>
          e == GetJwk(q.calls[c].kid) && p.cache.Some? && !HasKey(p.cache.value, q.calls[c].kid))
    && (c < |p.calls| ==>
          e == Resume(c) && p.calls[c].stage.First? && exists doc ::
            Gave(p, p.calls[c].stage.source, Success(doc)) && !HasKey(doc, q.calls[c].kid))
  }

  /** What a step leaves of a call, and how it comes to ask again. */
  lemma CallMoves(r: Resolver, e: Event, c: nat)
    requires Answerable(r) && c < |r.calls|
    ensures
      var r', call := Step(r, e), r.calls[c];
      && c < |r'.calls| && r'.calls[c].kid == call.kid
      && (call.stage.Returned? || call.stage.Threw? ==> r'.calls[c] == call)
      && (call.stage.First? && r'.calls[c].stage.Returned? ==> r'.calls[c].stage.jwk.Some?)
      && (call.stage.First? && r'.calls[c].stage.Second? ==> AsksAgain(r, e, r', c))
      && (call.stage.Second? ==>
            || r'.calls[c] == call || r'.calls[c].stage.Threw?
            || (exists doc :: Gave(r, call.stage.source, Success(doc))
                              && r'.calls[c].stage == Returned(FindJwk(doc, call.kid))))
  {
    if e == Resume(c) {
      var call := r.calls[c];
      if !Idle(r, call) {
        var source := call.stage.source;
        var result := if source.Ready? then source.result else r.outcomes[source.fetch];
        assert Gave(r, call.stage.source, result);
        ResumeDoes(r, c, result);
        if result.Success? {
          KeyFound(result.value, call.kid);
          assert Gave(r, call.stage.source, Success(result.value));
        }
      } else {
        ResumeDoes(r, c, Failure(0));
      }
    }
    hide FindJwk, FetchJwks, Asks, HasKey, Gave;
  }

  lemma OutcomesGrow(r: Resolver, e: Event, source: Source, result: Result<Doc, Error>)
    requires Answerable(r) && Gave(r, source, result)
    ensures Gave(Step(r, e), source, result)
  {
    hide FindJwk;
  }

  /** What a call comes to that waits for its second document. */
  lemma {:induction false} SecondEnds(r: Resolver, events: seq<Event>, c: nat) returns (doc: Doc)
    requires Valid(r) && c < |r.calls| && r.calls[c].stage.Second?
    requires c < |Run(r, events).calls| && Run(r, events).calls[c].stage.Returned?
    ensures Gave(Run(r, events), r.calls[c].stage.source, Success(doc))
    ensures Run(r, events).calls[c].stage.jwk == FindJwk(doc, r.calls[c].kid)
    decreases |events|
  {
    StepKeeps(r, events[0]);
    CallMoves(r, events[0], c);
    var r' := Step(r, events[0]);
    hide Valid, Step, FindJwk, Gave;
    if r'.calls[c] == r.calls[c] {
      doc := SecondEnds(r', events[1..], c);
    } else {
      CallEnded(r', events[1..], c);
      doc :| Gave(r, r.calls[c].stage.source, Success(doc))
             && r'.calls[c].stage == Returned(FindJwk(doc, r.calls[c].kid));
      OutcomesGrow(r, events[0], r.calls[c].stage.source, Success(doc));
      GivenStays(r', events[1..], r.calls[c].stage.source, Success(doc));
    }
  }

  lemma {:induction false} CallEnded(r: Resolver, events: seq<Event>, c: nat)
    requires Valid(r) && c < |r.calls| && (r.calls[c].stage.Returned? || r.calls[c].stage.Threw?)
    ensures c < |Run(r, events).calls| && Run(r, events).calls[c] == r.calls[c]
    decreases |events|
  {
    if events != [] {
      StepKeeps(r, events[0]);
      CallMoves(r, events[0], c);
      hide Valid, Step;
      CallEnded(Step(r, events[0]), events[1..], c);
    }
  }

  lemma {:induction false} GivenStays(r: Resolver, events: seq<Event>, source: Source, result: Result<Doc, Error>)
    requires Valid(r) && Gave(r, source, result)
    ensures Gave(Run(r, events), source, result)
    decreases |events|
  {
    if events != [] {
      StepKeeps(r, events[0]);
      OutcomesGrow(r, events[0], source, result);
      hide Valid, Step, Gave;
      GivenStays(Step(r, events[0]), events[1..], source, result);
    }
  }

  /** Over every history, a call that returned no key missed it in one document, made
      another `fetchJwks` call at that moment, and got by that one a document without
      the key. `k` is the step of the miss. */
  lemma {:induction false} NoKeyAskedTwice(r: Resolver, events: seq<Event>, c: nat) returns (k: nat, doc: Doc)
    requires Valid(r) && (c < |r.calls| ==> r.calls[c].stage.First?)
    requires c < |Run(r, events).calls| && Run(r, events).calls[c].stage == Returned(None)
    ensures k < |events|
    ensures
      var p, q, end := Run(r, events[..k]), Run(r, events[..k + 1]), Run(r, events);
      && AsksAgain(p, events[k], q, c) && end.calls[c].kid == q.calls[c].kid
      && Gave(end, q.calls[c].stage.source, Success(doc)) && !HasKey(doc, end.calls[c].kid)
    decreases |events|
  {
    var e := events[0];
    StepKeeps(r, e);
    var r' := Step(r, e);
    RunPrefix(r, events, 0);
    if c < |r.calls| {
      CallMoves(r, e, c);
    } else {
      NewCall(r, e, c);
    }
    if c < |r'.calls| && r'.calls[c].stage.Second? {
      hide Step, FindJwk, Gave, AsksAgain, Valid, HasKey;
      k := 0;
      doc := SecondEnds(r', events[1..], c);
      KidStays(r', events[1..], c);
      KeyFound(doc, r'.calls[c].kid);
      assert events[..0] == [] && Run(r, []) == r;
    } else {
      hide Step, FindJwk, Gave, AsksAgain, Valid, HasKey;
      if c < |r'.calls| && !r'.calls[c].stage.First? {
        CallEnded(r', events[1..], c);
        assert false;
      }
      k, doc := NoKeyAskedTwice(r', events[1..], c);
      RunPrefix(r, events, k);
      RunPrefix(r, events, k + 1);
      k := k + 1;
    }
  }

  lemma NewCall(r: Resolver, e: Event, c: nat)
    requires Answerable(r) && c >= |r.calls|
    ensures
      var r' := Step(r, e);
      c < |r'.calls| ==>
        && c == |r.calls|
        && (r'.calls[c].stage.Returned? ==> r'.calls[c].stage.jwk.Some?)
        && (r'.calls[c].stage.Second? ==> AsksAgain(r, e, r', c))
  {
    if e.GetJwk? {
      GetJwkDoes(r, e.kid);
    }
    hide FindJwk, FetchJwks, Asks, HasKey;
  }

  lemma {:induction false} KidStays(r: Resolver, events: seq<Event>, c: nat)
    requires Valid(r) && c < |r.calls|
    ensures c < |Run(r, events).calls| && Run(r, events).calls[c].kid == r.calls[c].kid
    decreases |events|
  {
    if events != [] {
      StepKeeps(r, events[0]);
      CallMoves(r, events[0], c);
      hide Valid, Step;
      KidStays(Step(r, events[0]), events[1..], c);
    }
  }

  lemma RunPrefix(r: Resolver, events: seq<Event>, k: nat)
    requires Valid(r) && k < |events|
    ensures Answerable(r) && Valid(Step(r, events[0]))
    ensures Run(r, events[..k + 1]) == Run(Step(r, events[0]), events[1..][..k])
  {
    StepKeeps(r, events[0]);
    assert events[..k + 1][1..] == events[1..][..k];
  }

  // ---- The resolver ----

  class JwksResolver {
    const cacheMaxAge: int
    const cooldown: nat
    var cache: Option<Doc>
    var cacheTime: int
    var lastFetchTime: Option<int>
    var lastError: Option<Error>
    var inflight: Option<nat>
    var now: int
    ghost var starts: seq<int>
    var outcomes: seq<Result<Doc, Error>>
    var calls: seq<Call>

    ghost function State(): Resolver
      reads this
    {
      Resolver(cacheMaxAge, cooldown, now, cache, cacheTime, lastFetchTime, lastError, inflight, starts,
               outcomes, calls)
    }

    constructor (cacheMaxAge: int, cooldown: nat, now: int)
      ensures State() == Begin(cacheMaxAge, cooldown, now) && Valid(State())
    {
      this.cacheMaxAge, this.cooldown, this.now := cacheMaxAge, cooldown, now;
      cache, cacheTime, lastFetchTime, lastError, inflight := None, 0, None, None, None;
      starts, outcomes, calls := [], [], [];
    }

    /** `fetchJwks`, up to the request it sends. */
    method Fetch() returns (source: Source)
      requires Valid(State())
      modifies `lastFetchTime, `inflight, `starts
      ensures (State(), source) == FetchJwks(old(State()))
      ensures OneFetch(State()) && Remembers(State())
    {
      ValidAnswers(State());
      FetchJwksKeeps(State());
      if inflight.Some? {
        return InFlight(inflight.value);
      }
      if lastFetchTime.Some? && now - lastFetchTime.value < cooldown {
        return Ready(if cache.Some? then Success(cache.value) else Failure(lastError.value));
      }
      lastFetchTime := Some(now);
      inflight := Some(|outcomes|);
      starts := starts + [now];
      source := InFlight(|outcomes|);
    }

    /** The request settles: its document is cached, or its failure kept. */
    method OnFetched(outcome: Result<Doc, Error>)
      requires Valid(State())
      modifies `cache, `cacheTime, `lastError, `inflight, `outcomes
      ensures State() == SettleSpec(old(State()), outcome) && Valid(State())
    {
      SettleKeeps(State(), outcome);
      if inflight.None? {
        return;
      }
      outcomes := outcomes + [outcome];
      match outcome {
        case Success(doc) =>
          cache, cacheTime := Some(doc), now;
        case Failure(error) =>
          lastError := Some(error);
      }
      inflight := None;
    }

    /** `getJwk`, up to its first wait. */
    method GetJwk(kid: Field) returns (c: nat)
      requires Valid(State())
      modifies this
      ensures State() == Step(old(State()), Event.GetJwk(kid)) && Valid(State()) && c == |old(calls)|
    {
      StepKeeps(State(), Event.GetJwk(kid));
      hide Valid, FindJwk, FetchJwks;
      c := |calls|;
      var call;
      if cache.None? || now - cacheTime > cacheMaxAge {
        var source := Fetch();
        call := Call(kid, 1, First(source));
      } else {
        var found := FindJwk(cache.value, kid);
        if found.Some? {
          call := Call(kid, 0, Returned(found));
        } else {
          var source := Fetch();
          call := Call(kid, 1, Second(source));
        }
      }
      calls := calls + [call];
    }

    /** `getJwk`, from the wait it was at to the next. */
    method Continue(c: nat)
      requires Valid(State()) && c < |calls|
      modifies this
      ensures State() == Step(old(State()), Resume(c)) && Valid(State())
    {
      StepKeeps(State(), Resume(c));
      hide Valid, FindJwk, FetchJwks;
      var call := calls[c];
      if !(call.stage.First? || call.stage.Second?) ||
         (call.stage.source.InFlight? && call.stage.source.fetch >= |outcomes|) {
        assert calls[c := call] == calls;
        return;
      }
      var result := if call.stage.source.Ready? then call.stage.source.result else outcomes[call.stage.source.fetch];
      match result {
        case Failure(error) =>
          call := call.(stage := Threw(error));
        case Success(doc) =>
          var found := FindJwk(doc, call.kid);
          if found.Some? || call.stage.Second? {
            call := call.(stage := Returned(found));
          } else {
            var source := Fetch();
            call := call.(fetches := call.fetches + 1, stage := Second(source));
          }
      }
      calls := calls[c := call];
    }
  }
}
