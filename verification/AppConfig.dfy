/** AppConfig configurations: each key has one session whose tokens are single-use,
    and concurrent invocations share the fetch in flight. */
module AppConfig {
  import opened Wrappers

  type Key = nat

  /** The service never issues a token twice: a token is its place in that order. */
  type Token = nat

  type Value = nat

  /** 24 hours less a margin of 5 minutes. */
  const TOKEN_VALIDITY_MS: nat := 24 * 60 * 60 * 1000 - 5 * 60 * 1000

  datatype Cached = Cached(token: Token, expiry: int)

  /** `None` stands for a key that never had a configuration. */
  datatype Outcome = Got(value: Option<Value>) | Failed

  /** A fetch: its session is starting, the configuration is asked for, or it has
      settled and is about to leave `inflight`. */
  datatype Fetch = StartingSession | Getting(token: Token) | Settled(outcome: Outcome)

  /** An answer of the service to a request for the latest configuration. */
  datatype Reply = Content(value: Value) | Empty | Rejected

  datatype Sent = Sent(token: Token, at: int)

  /** `issued` are the times tokens were issued, `sent` the tokens passed to
      `GetLatestConfiguration`, `received` the configurations, by key. */
  datatype Config = Config(now: int, tokens: map<Key, Cached>, values: map<Key, Value>, inflight: map<Key, Fetch>,
                           issued: seq<int>, sent: seq<Sent>, received: seq<(Key, Reply)>)

  /** What can happen next, in any order. */
  datatype Event =
    | Later(ms: nat)
    | Wanted(key: Key)
    | SessionStarted(key: Key, ok: bool)
    | Latest(key: Key, reply: Reply)
    | Finally(key: Key)

  // ---- Steps ----

  function Begin(now: int): Config {
    Config(now, map[], map[], map[], [], [], [])
  }

  /** `fetchLatestConfigurationRequest`, up to the request it sends. */
  function Get(c: Config, key: Key, token: Token): Config {
    c.(inflight := c.inflight[key := Getting(token)], sent := c.sent + [Sent(token, c.now)])
  }

  /** `fetchRequest` for a key: joins the fetch in flight, or starts one. */
  function WantedSpec(c: Config, key: Key): Config {
    if key in c.inflight then c
    else if key !in c.tokens || c.tokens[key].expiry <= c.now then
      c.(inflight := c.inflight[key := StartingSession])
    else Get(c, key, c.tokens[key].token)
  }

  function SessionStartedSpec(c: Config, key: Key, ok: bool): Config {
    if key !in c.inflight || !c.inflight[key].StartingSession? then c
    else if !ok then c.(inflight := c.inflight[key := Settled(Failed)])
    else Get(c.(issued := c.issued + [c.now]), key, |c.issued|)
  }

  function CachedValue(values: map<Key, Value>, key: Key): Option<Value> {
    if key in values then Some(values[key]) else None
  }

  function LatestSpec(c: Config, key: Key, reply: Reply): Config {
    if key !in c.inflight || !c.inflight[key].Getting? then c
    else
      var c' := c.(received := c.received + [(key, reply)]);
      match reply
      case Rejected => c'.(tokens := c.tokens - {key}, inflight := c.inflight[key := Settled(Failed)])
      case Empty =>
        Renewed(c', key).(inflight := c.inflight[key := Settled(Got(CachedValue(c.values, key)))])
      case Content(value) =>
        Renewed(c', key).(values := c.values[key := value], inflight := c.inflight[key := Settled(Got(Some(value)))])
  }

  /** The next token takes the place of the one just used. */
  function Renewed(c: Config, key: Key): Config {
    c.(tokens := c.tokens[key := Cached(|c.issued|, c.now + TOKEN_VALIDITY_MS)], issued := c.issued + [c.now])
  }

  function FinallySpec(c: Config, key: Key): Config {
    if key in c.inflight && c.inflight[key].Settled? then c.(inflight := c.inflight - {key}) else c
  }

  function Step(c: Config, e: Event): Config {
    match e
    case Later(ms) => c.(now := c.now + ms)
    case Wanted(key) => WantedSpec(c, key)
    case SessionStarted(key, ok) => SessionStartedSpec(c, key, ok)
    case Latest(key, reply) => LatestSpec(c, key, reply)
    case Finally(key) => FinallySpec(c, key)
  }

  // ---- What every step keeps ----

  /** The last configuration received for a key that was not empty. */
  function LastContent(received: seq<(Key, Reply)>, key: Key): Option<Value> {
    if received == [] then None
    else
      var (k, reply) := received[|received| - 1];
      if k == key && reply.Content? then Some(reply.value) else LastContent(received[..|received| - 1], key)
  }

  predicate WasSent(sent: seq<Sent>, token: Token) {
    exists k :: 0 <= k < |sent| && sent[k].token == token
  }

  /** No token was sent twice, and each while valid. */
  ghost predicate SentOnce(c: Config)
  {
    && (forall k :: 0 <= k < |c.sent| ==>
          c.sent[k].token < |c.issued| && 0 <= c.sent[k].at - c.issued[c.sent[k].token] < TOKEN_VALIDITY_MS)
    && forall j, k :: 0 <= j < k < |c.sent| ==> c.sent[j].token != c.sent[k].token
  }

  /** A cached token is a key's own and unsent, unless its fetch is in flight. */
  ghost predicate TokensUnused(c: Config)
  {
    && (forall key :: key in c.tokens ==>
          && c.tokens[key].token < |c.issued|
          && c.tokens[key].expiry == c.issued[c.tokens[key].token] + TOKEN_VALIDITY_MS
          && (WasSent(c.sent, c.tokens[key].token) ==> key in c.inflight && c.inflight[key].Getting?))
    && (forall k1, k2 :: k1 in c.tokens && k2 in c.tokens && k1 != k2 ==> c.tokens[k1].token != c.tokens[k2].token)
    && forall k :: 0 <= k < |c.issued| ==> c.issued[k] <= c.now
  }

  /** A fetch yields the last configuration received that was not empty. */
  ghost predicate LastValues(c: Config)
  {
    && (forall key :: CachedValue(c.values, key) == LastContent(c.received, key))
    && forall key :: key in c.inflight && c.inflight[key].Settled? && c.inflight[key].outcome.Got? ==>
         c.inflight[key].outcome.value == LastContent(c.received, key)
  }

  ghost predicate Valid(c: Config)
  {
    SentOnce(c) && TokensUnused(c) && LastValues(c)
  }

  lemma SentMore(sent: seq<Sent>, s: Sent)
    ensures forall token :: WasSent(sent + [s], token) <==> WasSent(sent, token) || token == s.token
  {
    assert (sent + [s])[|sent|] == s;
    forall token | WasSent(sent, token)
      ensures WasSent(sent + [s], token)
    {
      var k :| 0 <= k < |sent| && sent[k].token == token;
      assert (sent + [s])[k].token == token;
    }
  }

  lemma LastContentSnoc(received: seq<(Key, Reply)>, key: Key, reply: Reply, other: Key)
    ensures
      LastContent(received + [(key, reply)], other) ==
      if key == other && reply.Content? then Some(reply.value) else LastContent(received, other)
  {
    assert (received + [(key, reply)])[..|received|] == received;
  }

  lemma GetKeeps(c: Config, key: Key, token: Token)
    requires Valid(c) && token < |c.issued| && !WasSent(c.sent, token)
    requires 0 <= c.now - c.issued[token] < TOKEN_VALIDITY_MS
    requires forall other :: other in c.tokens && other != key ==> c.tokens[other].token != token
    requires key in c.inflight ==> c.inflight[key].StartingSession?
    ensures Valid(Get(c, key, token))
  {
    SentMore(c.sent, Sent(token, c.now));
    var c' := Get(c, key, token);
    forall j | 0 <= j < |c.sent|
      ensures c.sent[j].token != token
    {
    }
    hide WasSent, LastContent, CachedValue;
  }

  lemma WantedKeeps(c: Config, key: Key)
    requires Valid(c)
    ensures Valid(WantedSpec(c, key))
  {
    if key !in c.inflight && key in c.tokens && c.tokens[key].expiry > c.now {
      GetKeeps(c, key, c.tokens[key].token);
    }
    hide WasSent, LastContent, CachedValue, Get;
  }

  lemma SessionStartedKeeps(c: Config, key: Key, ok: bool)
    requires Valid(c)
    ensures Valid(SessionStartedSpec(c, key, ok))
  {
    if key in c.inflight && c.inflight[key].StartingSession? && ok {
      var c' := c.(issued := c.issued + [c.now]);
      assert !WasSent(c.sent, |c.issued|);
      assert Valid(c') by {
        hide WasSent, LastContent, CachedValue;
      }
      GetKeeps(c', key, |c.issued|);
      hide Valid, Get, WasSent;
    } else {
      hide WasSent, LastContent, CachedValue;
    }
  }

  lemma LatestKeeps(c: Config, key: Key, reply: Reply)
    requires Valid(c)
    ensures Valid(LatestSpec(c, key, reply))
  {
    if key in c.inflight && c.inflight[key].Getting? {
      forall other
        ensures LastContent(c.received + [(key, reply)], other) ==
                if key == other && reply.Content? then Some(reply.value) else LastContent(c.received, other)
      {
        LastContentSnoc(c.received, key, reply, other);
      }
      LatestSent(c, key, reply);
      LatestTokens(c, key, reply);
      LatestValues(c, key, reply);
    }
    hide WasSent, LastContent, CachedValue, SentOnce, TokensUnused, LastValues;
  }

  lemma LatestSent(c: Config, key: Key, reply: Reply)
    requires SentOnce(c)
    ensures SentOnce(LatestSpec(c, key, reply))
  {
    hide LastContent, CachedValue;
  }

  lemma LatestTokens(c: Config, key: Key, reply: Reply)
    requires SentOnce(c) && TokensUnused(c) && key in c.inflight && c.inflight[key].Getting?
    ensures TokensUnused(LatestSpec(c, key, reply))
  {
    if reply.Rejected? {
      hide WasSent, SentOnce, LastContent, CachedValue, Renewed;
    } else {
      TokensRenewed(c, key, LatestSpec(c, key, reply));
    }
  }

  lemma TokensRenewed(c: Config, key: Key, c': Config)
    requires SentOnce(c) && TokensUnused(c)
    requires c'.tokens == Renewed(c, key).tokens && c'.issued == Renewed(c, key).issued
    requires c'.sent == c.sent && c'.now == c.now
    requires forall other :: other in c.inflight && c.inflight[other].Getting? && other != key ==>
               other in c'.inflight && c'.inflight[other].Getting?
    ensures TokensUnused(c')
  {
    assert !WasSent(c.sent, |c.issued|);
    hide WasSent, SentOnce;
  }

  lemma LatestValues(c: Config, key: Key, reply: Reply)
    requires Valid(c) && key in c.inflight && c.inflight[key].Getting?
    requires forall other ::
      LastContent(c.received + [(key, reply)], other) ==
      if key == other && reply.Content? then Some(reply.value) else LastContent(c.received, other)
    ensures LastValues(LatestSpec(c, key, reply))
  {
    hide LastContent, SentOnce, TokensUnused;
  }

  lemma StepKeeps(c: Config, e: Event)
    requires Valid(c)
    ensures Valid(Step(c, e))
  {
    match e
    case Wanted(key) => WantedKeeps(c, key);
    case SessionStarted(key, ok) => SessionStartedKeeps(c, key, ok);
    case Latest(key, reply) => LatestKeeps(c, key, reply);
    case Later(_) => hide WasSent, LastContent, CachedValue;
    case Finally(_) => hide WasSent, LastContent, CachedValue;
  }

  function RunSpec(c: Config, events: seq<Event>): Config
    decreases |events|
  {
    if events == [] then c else RunSpec(Step(c, events[0]), events[1..])
  }

  /** Every run of concurrent invocations, replies and failures sends no token twice
      nor after its validity, and a fetch that settles with a value has the last
      configuration received for its key that was not empty. */
  lemma {:induction false} EveryRun(c: Config, events: seq<Event>, key: Key)
    requires Valid(c)
    ensures
      var c' := RunSpec(c, events);
      && (forall j, k :: 0 <= j < k < |c'.sent| ==> c'.sent[j].token != c'.sent[k].token)
      && (forall k :: 0 <= k < |c'.sent| ==>
            c'.sent[k].token < |c'.issued| && c'.sent[k].at - c'.issued[c'.sent[k].token] < TOKEN_VALIDITY_MS)
      && (key in c'.inflight && c'.inflight[key].Settled? && c'.inflight[key].outcome.Got? ==>
            c'.inflight[key].outcome.value == LastContent(c'.received, key))
    decreases |events|
  {
    if events != [] {
      StepKeeps(c, events[0]);
      hide Valid, Step;
      EveryRun(Step(c, events[0]), events[1..], key);
    }
  }

  // ---- What each event does ----

  /** Nothing but the fetch of this key, and what is listed, changes. */
  ghost predicate OnlyFetch(c: Config, c': Config, key: Key, fetch: Fetch)
  {
    c'.now == c.now && c'.inflight == c.inflight[key := fetch]
  }

  /** A key is asked for: a fetch in flight is joined; a cached token that is still valid
      is sent, and kept until the reply; without one a session is started. */
  lemma WantedDoes(c: Config, key: Key)
    ensures
      var c' := Step(c, Wanted(key));
      && (key in c.inflight ==> c' == c)
      && (key !in c.inflight && key in c.tokens && c.now < c.tokens[key].expiry ==>
            && OnlyFetch(c, c', key, Getting(c.tokens[key].token))
            && c'.sent == c.sent + [Sent(c.tokens[key].token, c.now)]
            && c' == c.(inflight := c'.inflight, sent := c'.sent))
      && (key !in c.inflight && (key in c.tokens ==> c.tokens[key].expiry <= c.now) ==>
            OnlyFetch(c, c', key, StartingSession) && c' == c.(inflight := c'.inflight))
  {
  }

  /** A session that started issues its first token, which is sent at once; a fetch whose
      session did not start fails. */
  lemma SessionDoes(c: Config, key: Key, ok: bool)
    ensures
      var c' := Step(c, SessionStarted(key, ok));
      if key !in c.inflight || c.inflight[key] != StartingSession then c' == c
      else if ok then
        && OnlyFetch(c, c', key, Getting(|c.issued|)) && c'.issued == c.issued + [c.now]
        && c'.sent == c.sent + [Sent(|c.issued|, c.now)]
        && c' == c.(inflight := c'.inflight, sent := c'.sent, issued := c'.issued)
      else OnlyFetch(c, c', key, Settled(Failed)) && c' == c.(inflight := c'.inflight)
  {
  }

  /** A reply settles the fetch: with the configuration, with the cached one when it is
      empty, or as failed when it is a rejection. The next token, issued now, replaces
      the one sent; after a rejection there is none. */
  lemma LatestDoes(c: Config, key: Key, reply: Reply)
    ensures
      var c' := Step(c, Latest(key, reply));
      if key !in c.inflight || !c.inflight[key].Getting? then c' == c
      else
        && c'.sent == c.sent && c'.received == c.received + [(key, reply)]
        && match reply
           case Content(value) =>
             && OnlyFetch(c, c', key, Settled(Got(Some(value)))) && c'.values == c.values[key := value]
             && Renews(c, c', key)
           case Empty =>
             && (key in c.values ==> OnlyFetch(c, c', key, Settled(Got(Some(c.values[key])))))
             && (key !in c.values ==> OnlyFetch(c, c', key, Settled(Got(None))))
             && c'.values == c.values && Renews(c, c', key)
           case Rejected =>
             && OnlyFetch(c, c', key, Settled(Failed)) && c'.values == c.values && c'.issued == c.issued
             && c'.tokens == c.tokens - {key}
  {
  }

  ghost predicate Renews(c: Config, c': Config, key: Key)
  {
    && c'.issued == c.issued + [c.now]
    && c'.tokens == c.tokens[key := Cached(|c.issued|, c.now + 86_400_000 - 300_000)]
  }

  /** A settled fetch leaves; the next asker starts another. */
  lemma FinallyDoes(c: Config, key: Key, ms: nat)
    ensures Step(c, Finally(key)) ==
            if key in c.inflight && c.inflight[key].Settled? then c.(inflight := c.inflight - {key}) else c
    ensures Step(c, Later(ms)) == c.(now := c.now + ms)
  {
  }

  /** The event answers the fetch of the key that is in flight. */
  predicate Answers(c: Config, e: Event, key: Key) {
    key in c.inflight && match e
      case SessionStarted(k, _) => k == key && c.inflight[key].StartingSession?
      case Latest(k, _) => k == key && c.inflight[key].Getting?
      case _ => false
  }

  /** The last event of a run that answered a fetch of the key. */
  function LastAnswer(c: Config, events: seq<Event>, key: Key): Option<Event>
    decreases |events|
  {
    if events == [] then None
    else
      var later := LastAnswer(Step(c, events[0]), events[1..], key);
      if later.Some? then later else if Answers(c, events[0], key) then Some(events[0]) else None
  }

  /** What an answer settles a fetch with: `value` is what is cached. */
  predicate SettlesWith(answer: Event, value: Option<Value>, outcome: Outcome) {
    match answer
    case SessionStarted(_, ok) => !ok && outcome == Failed
    case Latest(_, Rejected) => outcome == Failed
    case Latest(_, Empty) => outcome == Got(value)
    case Latest(_, Content(v)) => outcome == Got(Some(v))
    case _ => false
  }

  ghost predicate SettledBy(c: Config, answer: Option<Event>, key: Key)
  {
    key in c.inflight && c.inflight[key].Settled? && answer.Some? ==>
      SettlesWith(answer.value, LastContent(c.received, key), c.inflight[key].outcome)
  }

  lemma StepSettled(c: Config, e: Event, answer: Option<Event>, key: Key)
    requires Valid(c) && SettledBy(c, answer, key)
    ensures SettledBy(Step(c, e), if Answers(c, e, key) then Some(e) else answer, key)
  {
    hide Valid, Step, LastContent, SettledBy, SettlesWith, Answers;
    match e
    case Latest(other, reply) => LatestSettled(c, other, reply, answer, key);
    case SessionStarted(other, ok) => SessionSettled(c, other, ok, answer, key);
    case _ => ElseSettled(c, e, answer, key);
  }

  lemma LatestSettled(c: Config, other: Key, reply: Reply, answer: Option<Event>, key: Key)
    requires Valid(c) && SettledBy(c, answer, key)
    ensures SettledBy(Step(c, Latest(other, reply)),
                      if Answers(c, Latest(other, reply), key) then Some(Latest(other, reply)) else answer, key)
  {
    CachedIsLast(c, key);
    hide Valid, Step, LastContent;
    LastContentSnoc(c.received, other, reply, key);
    LatestDoes(c, other, reply);
  }

  lemma SessionSettled(c: Config, other: Key, ok: bool, answer: Option<Event>, key: Key)
    requires SettledBy(c, answer, key)
    ensures SettledBy(Step(c, SessionStarted(other, ok)),
                      if Answers(c, SessionStarted(other, ok), key) then Some(SessionStarted(other, ok)) else answer,
                      key)
  {
    hide Step, LastContent;
    SessionDoes(c, other, ok);
  }

  lemma ElseSettled(c: Config, e: Event, answer: Option<Event>, key: Key)
    requires SettledBy(c, answer, key) && !e.Latest? && !e.SessionStarted?
    ensures SettledBy(Step(c, e), if Answers(c, e, key) then Some(e) else answer, key)
  {
    hide LastContent, SettlesWith;
  }

  lemma CachedIsLast(c: Config, key: Key)
    requires Valid(c)
    ensures LastContent(c.received, key) == if key in c.values then Some(c.values[key]) else None
  {
    assert CachedValue(c.values, key) == LastContent(c.received, key);
  }

  /** Over every run from the start: a fetch that settled was answered, and fails if and
      only if its session did not start or the service rejected its token; an empty
      reply gives the last configuration received for the key, a full one its own. */
  lemma EveryFetchSettles(now: int, events: seq<Event>, key: Key)
    ensures
      var c, answer := RunSpec(Begin(now), events), LastAnswer(Begin(now), events, key);
      key in c.inflight && c.inflight[key].Settled? ==>
        answer.Some? && SettlesWith(answer.value, LastContent(c.received, key), c.inflight[key].outcome)
  {
    BeginValid(now);
    RunSettled(Begin(now), events, None, key);
    RunAnswered(Begin(now), events, key);
    hide RunSpec, LastAnswer, SettlesWith, LastContent;
  }

  lemma {:induction false} RunSettled(c: Config, events: seq<Event>, answer: Option<Event>, key: Key)
    requires Valid(c) && SettledBy(c, answer, key)
    ensures
      var later := LastAnswer(c, events, key);
      SettledBy(RunSpec(c, events), if later.Some? then later else answer, key)
    decreases |events|
  {
    if events != [] {
      StepKeeps(c, events[0]);
      StepSettled(c, events[0], answer, key);
      hide Valid, Step, SettledBy, Answers;
      RunSettled(Step(c, events[0]), events[1..], if Answers(c, events[0], key) then Some(events[0]) else answer, key);
    }
  }

  /** A fetch that was not settled before was answered since. */
  lemma {:induction false} RunAnswered(c: Config, events: seq<Event>, key: Key)
    requires key in c.inflight ==> !c.inflight[key].Settled?
    ensures
      var c' := RunSpec(c, events);
      key in c'.inflight && c'.inflight[key].Settled? ==> LastAnswer(c, events, key).Some?
    decreases |events|
  {
    if events != [] {
      var c1 := Step(c, events[0]);
      if key in c1.inflight && c1.inflight[key].Settled? {
        assert Answers(c, events[0], key);
      } else {
        hide Step, Answers;
        RunAnswered(c1, events[1..], key);
      }
    }
  }

  lemma BeginValid(now: int)
    ensures Valid(Begin(now))
  {
  }

  // ---- The middleware's state ----

  class AppConfig {
    var now: int
    var configurationTokenCache: map<Key, Cached>
    var configurationCache: map<Key, Value>
    var inflight: map<Key, Fetch>
    var issued: seq<int>
    var sent: seq<Sent>
    ghost var received: seq<(Key, Reply)>

    ghost function State(): Config
      reads this
    {
      Config(now, configurationTokenCache, configurationCache, inflight, issued, sent, received)
    }

    constructor (now: int)
      ensures State() == Begin(now) && Valid(State())
    {
      this.now := now;
      configurationTokenCache, configurationCache, inflight := map[], map[], map[];
      issued, sent, received := [], [], [];
    }

    method GetLatest(key: Key, token: Token)
      modifies `inflight, `sent
      ensures State() == Get(old(State()), key, token)
    {
      inflight := inflight[key := Getting(token)];
      sent := sent + [Sent(token, now)];
    }

    /** `fetchRequest` for one key. */
    method FetchRequest(key: Key)
      requires Valid(State())
      modifies `inflight, `sent
      ensures State() == WantedSpec(old(State()), key) && Valid(State())
    {
      WantedKeeps(State(), key);
      hide Valid;
      if key in inflight {
        return;
      }
      if key !in configurationTokenCache || configurationTokenCache[key].expiry <= now {
        inflight := inflight[key := StartingSession];
        return;
      }
      GetLatest(key, configurationTokenCache[key].token);
    }

    method OnSession(key: Key, ok: bool)
      requires Valid(State())
      modifies `inflight, `sent, `issued
      ensures State() == SessionStartedSpec(old(State()), key, ok) && Valid(State())
    {
      SessionStartedKeeps(State(), key, ok);
      hide Valid;
      if key !in inflight || !inflight[key].StartingSession? {
        return;
      }
      if !ok {
        inflight := inflight[key := Settled(Failed)];
        return;
      }
      issued := issued + [now];
      GetLatest(key, |issued| - 1);
    }

    method OnLatest(key: Key, reply: Reply)
      requires Valid(State())
      modifies this
      ensures State() == LatestSpec(old(State()), key, reply) && Valid(State())
    {
      hide Valid, LastContent, WasSent;
      LatestKeeps(State(), key, reply);
      if key !in inflight || !inflight[key].Getting? {
        return;
      }
      received := received + [(key, reply)];
      if reply.Rejected? {
        configurationTokenCache := configurationTokenCache - {key};
        inflight := inflight[key := Settled(Failed)];
        return;
      }
      configurationTokenCache := configurationTokenCache[key := Cached(|issued|, now + TOKEN_VALIDITY_MS)];
      issued := issued + [now];
      if reply.Content? {
        configurationCache := configurationCache[key := reply.value];
      }
      inflight := inflight[key := Settled(Got(CachedValue(configurationCache, key)))];
    }

    method OnFinally(key: Key)
      requires Valid(State())
      modifies `inflight
      ensures State() == FinallySpec(old(State()), key) && Valid(State())
    {
      StepKeeps(State(), Finally(key));
      hide Valid;
      if key in inflight && inflight[key].Settled? {
        inflight := inflight - {key};
      }
    }
  }
}
