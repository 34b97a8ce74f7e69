/** The poll loop over one shard of a Kinesis or DynamoDB stream: deliver a
    batch, act on its failed records, advance, retry or discard. */
module ShardPoller {
  import opened Wrappers
  import opened Numbers
  import BatchHandler
  import opened BatchFailures

  /** Where an iterator is asked for. `Fixed` is a start that always resolves to
      the same record (a given sequence number, a timestamp, the trim horizon of
      a shard that is not trimmed meanwhile). `Floating` is `LATEST`, and a trim
      horizon that moves: each request resolves it anew. */
  datatype Position = Fixed(index: nat) | Floating | After(sequenceNumber: Id) | At(sequenceNumber: Id)

  /** How often in a row a batch failed first at this record. */
  datatype Retry = Retry(sequenceNumber: Id, attempt: nat)

  /** The service's answer to a request for an iterator. `tip` is where a
      floating position resolves at that time. After records were trimmed the trim
      horizon is asked for, with an answer `again`. */
  datatype Seek = Found(tip: nat) | Trimmed(again: Seek) | SeekFailed | SeekAborted

  /** What the runner does with a batch: the handler answers and the response is
      acknowledged, or the handler throws. */
  datatype Runner = Acknowledged(response: Response) | HandlerThrew

  /** What the loop meets on one pass: `count` records (none is an empty read),
      `closed` when no next iterator follows; an expired iterator; an error of
      the service; the abort of the signal. */
  datatype Turn =
    | Records(count: nat, closed: bool, runner: Runner, abortedAfter: bool, seek: Seek)
    | Expired(seek: Seek)
    | SendFailed
    | Aborted

  datatype Exit = Running | Stopped | SourceClosed | PollFailed

  function IndexOf(shard: seq<Id>, s: Id): (i: nat)
    requires s in shard
    ensures i < |shard| && shard[i] == s
  {
    if shard[0] == s then 0 else 1 + IndexOf(shard[1..], s)
  }

  lemma IndexOfAt(shard: seq<Id>, i: nat)
    requires Distinct(shard) && i < |shard|
    ensures IndexOf(shard, shard[i]) == i
  {
  }

  /** The first of the failed records is the lowest one in the batch. */
  lemma {:induction false} LowestFailed(ids: seq<Id>, failed: set<Id>) returns (k: nat)
    requires Filter(ids, failed) != []
    ensures k < |ids| && ids[k] == Filter(ids, failed)[0] && ids[k] in failed
    ensures forall i :: 0 <= i < k ==> ids[i] !in failed
  {
    if ids[0] in failed {
      k := 0;
    } else {
      k := LowestFailed(ids[1..], failed);
      k := k + 1;
    }
  }

  /** `retryDelay`. */
  function RetryDelay(retryDelayMs: nat, attempt: nat): nat
    requires attempt >= 1
  {
    Min(retryDelayMs * Pow2(attempt - 1), if retryDelayMs > 30_000 then retryDelayMs else 30_000)
  }

  /** The backoff starts at the configured delay, doubles until it meets the cap
      and stays there. */
  lemma RetryDelayBacksOff(d: nat, attempt: nat)
    requires attempt >= 1
    ensures RetryDelay(d, 1) == d
    ensures
      var cap := if d > 30_000 then d else 30_000;
      RetryDelay(d, attempt + 1) == Min(2 * RetryDelay(d, attempt), cap)
  {
    assert Pow2(attempt) == 2 * Pow2(attempt - 1);
    assert d * Pow2(attempt) == 2 * (d * Pow2(attempt - 1));
    assert d * Pow2(0) == d;
  }

  /** Batches that can still be delivered when each record is allowed `m` retries:
      a lexicographic measure of records left and attempts left. */
  function Potential(recordsLeft: nat, m: nat, attemptsHere: nat): int {
    recordsLeft * (m + 1) - attemptsHere
  }

  lemma PotentialAdvance(left: nat, left': nat, m: nat, attempts: nat)
    requires left' < left && attempts <= m
    ensures Potential(left', m, 0) + 1 <= Potential(left, m, attempts)
  {
    assert left' * (m + 1) + (m + 1) == (left' + 1) * (m + 1) <= left * (m + 1);
  }

  /** `shard` is every record the shard will hold, by sequence number, in order:
      reads see any part of it, so it may grow while it is read. Infinite retries
      are `None`. `seeksPastTrim` tells DynamoDB, which moves past records trimmed
      while they waited for a retry, from Kinesis, which fails. */
  datatype Config = Config(shard: seq<Id>, maxRetryAttempts: Option<nat>, seeksPastTrim: bool,
                           start: nat, fixedStart: bool)

  /** The loop between two passes. `iterator_` is the record read from next,
      `positionFailed` the failed records a retry from the position reads again.
      `latest` is what the latest delivery of each record came to; `lost` and
      `trimmed` are the records passed over by resolving a floating position anew
      and by moving to the horizon of a trimmed shard. */
  datatype Loop = Loop(config: Config, iterator_: nat, position: Position, positionFailed: seq<Id>,
                       retry: Option<Retry>, batches: nat, reports: seq<seq<Id>>,
                       latest: map<nat, Settlement>, lost: set<nat>, trimmed: set<nat>)

  function Span(from: nat, to: nat): (s: set<nat>)
    ensures forall i: nat :: i in s <==> (from <= i && i < to)
    decreases if from < to then to - from else 0
  {
    if from >= to then {} else {from} + Span(from + 1, to)
  }

  function Begin(config: Config): Loop {
    Loop(config, config.start, if config.fixedStart then Fixed(config.start) else Floating, [],
         None, 0, [], map[], {}, {})
  }

  // ---- The passes of the loop ----

  /** The place a floating position resolves to: never behind the iterator. */
  function Forward(l: Loop, index: nat): (to: nat)
    requires l.iterator_ <= |l.config.shard|
    ensures l.iterator_ <= to <= |l.config.shard|
    ensures to > l.iterator_ <==> Min(index, |l.config.shard|) > l.iterator_
  {
    var to := Min(index, |l.config.shard|);
    if to > l.iterator_ then to else l.iterator_
  }

  function ReseekSpec(l: Loop, seek: Seek): (r: (Loop, Exit))
    requires l.iterator_ <= |l.config.shard|
    ensures r.0.config == l.config && r.0.iterator_ <= |l.config.shard|
  {
    match seek
    case Found(tip) =>
      if l.position.Floating? then
        var to := Forward(l, tip);
        (l.(iterator_ := to, lost := l.lost + Span(l.iterator_, to)), Running)
      else (l, Running)
    case Trimmed(again) =>
      if !l.config.seeksPastTrim then (l, PollFailed)
      else
        var l' := l.(position := Floating, positionFailed := [], reports := l.reports + [l.positionFailed]);
        (match again
         case Found(horizon) =>
           var to := Forward(l, horizon);
           (l'.(iterator_ := to, trimmed := l.trimmed + Span(l.iterator_, to)), Running)
         case Trimmed(_) => (l', PollFailed)
         case SeekFailed => (l', PollFailed)
         case SeekAborted => (l', Stopped))
    case SeekFailed => (l, PollFailed)
    case SeekAborted => (l, Stopped)
  }

  /** Retries of a record are counted from the retry at the same record before. */
  function AttemptAt(retry: Option<Retry>, s: Id): nat {
    if retry.Some? && retry.value.sequenceNumber == s then retry.value.attempt + 1 else 1
  }

  /** The failed records of a batch: those the response names, all of them when
      the response is invalid or the handler threw. */
  function FailedOf(ids: seq<Id>, runner: Runner): seq<Id> {
    if runner.Acknowledged? then Filter(ids, FailuresOf(runner.response, ToSet(ids)).ids) else ids
  }

  /** The settlements after a batch: failed records as `given`, the others done. */
  function Recorded(latest: map<nat, Settlement>, shard: seq<Id>, from: nat, count: nat,
                    failed: seq<Id>, given: Settlement): map<nat, Settlement>
    requires from + count <= |shard|
  {
    latest + map i | i in Span(from, from + count) :: if shard[i] in failed then given else Succeeded
  }

  /** Past the batch, its failed records reported if there are any. */
  function AdvanceSpec(l: Loop, count: nat, failed: seq<Id>, closed: bool): (r: (Loop, Exit))
    requires 1 <= count && l.iterator_ + count <= |l.config.shard|
    ensures r.0.config == l.config && r.0.iterator_ <= |l.config.shard|
  {
    var l' := l.(position := After(l.config.shard[l.iterator_ + count - 1]), positionFailed := [],
                 latest := Recorded(l.latest, l.config.shard, l.iterator_, count, failed, Reported),
                 reports := if failed == [] then l.reports else l.reports + [failed]);
    if closed then (l', SourceClosed) else (l'.(iterator_ := l.iterator_ + count), Running)
  }

  /** Back to the lowest failed record. */
  function RetrySpec(l: Loop, count: nat, failed: seq<Id>): (l': Loop)
    requires l.iterator_ + count <= |l.config.shard|
    requires failed != [] && failed[0] in l.config.shard
    ensures l'.config == l.config && l'.iterator_ < |l.config.shard|
  {
    l.(position := At(failed[0]), positionFailed := failed, iterator_ := IndexOf(l.config.shard, failed[0]),
       latest := Recorded(l.latest, l.config.shard, l.iterator_, count, failed, Pending),
       retry := Some(Retry(failed[0], AttemptAt(l.retry, failed[0]))))
  }

  predicate Exhausted(l: Loop, failed: seq<Id>)
    requires failed != []
  {
    l.config.maxRetryAttempts.Some? && AttemptAt(l.retry, failed[0]) > l.config.maxRetryAttempts.value
  }

  function ActSpec(l: Loop, count: nat, failed: seq<Id>, closed: bool, seek: Seek): (r: (Loop, Exit))
    requires 1 <= count && l.iterator_ + count <= |l.config.shard|
    requires failed == [] || failed[0] in l.config.shard
    ensures r.0.config == l.config && r.0.iterator_ <= |l.config.shard|
  {
    if failed == [] || Exhausted(l, failed) then AdvanceSpec(l, count, failed, closed)
    else ReseekSpec(RetrySpec(l, count, failed), seek)
  }

  function BatchSpec(l: Loop, count: nat, closed: bool, runner: Runner, abortedAfter: bool, seek: Seek)
    : (r: (Loop, Exit))
    requires 1 <= count && l.iterator_ + count <= |l.config.shard|
    ensures r.0.config == l.config && r.0.iterator_ <= |l.config.shard|
  {
    var ids := l.config.shard[l.iterator_..l.iterator_ + count];
    var l' := l.(batches := l.batches + 1);
    var failed := FailedOf(ids, runner);
    if abortedAfter then (l', Stopped)
    else
      FailedInShard(l, count, runner);
      ActSpec(l', count, failed, closed, seek)
  }

  function TurnSpec(l: Loop, turn: Turn): (r: (Loop, Exit))
    requires l.iterator_ <= |l.config.shard|
    ensures r.0.config == l.config && r.0.iterator_ <= |l.config.shard|
  {
    match turn
    case Records(count, closed, runner, abortedAfter, seek) =>
      var n := Min(count, |l.config.shard| - l.iterator_);
      if n == 0 then (l, if closed then SourceClosed else Running)
      else BatchSpec(l, n, closed, runner, abortedAfter, seek)
    case Expired(seek) => ReseekSpec(l, seek)
    case SendFailed => (l, PollFailed)
    case Aborted => (l, Stopped)
  }

  /** A run: passes until one ends the loop or the script does. */
  function RunSpec(l: Loop, turns: seq<Turn>): (r: (Loop, Exit))
    requires l.iterator_ <= |l.config.shard|
    ensures r.0.config == l.config
    decreases |turns|
  {
    if turns == [] then (l, Running)
    else
      var (l', exit) := TurnSpec(l, turns[0]);
      if exit == Running then RunSpec(l', turns[1..]) else (l', exit)
  }

  // ---- What every pass keeps ----

  /** The record's latest delivery succeeded, or a report names it. */
  predicate SettledAt(l: Loop, i: nat) {
    i in l.latest && l.latest[i] != Pending &&
    (l.latest[i] == Reported ==> i < |l.config.shard| && Named(l.reports, l.config.shard[i]))
  }

  /** Every record behind the iterator was delivered and its latest delivery
      succeeded or was reported, but for those passed over; from a fixed start on
      Kinesis none is passed over. */
  ghost predicate NothingSkipped(l: Loop)
  {
    && (forall i :: l.config.start <= i < l.iterator_ ==> SettledAt(l, i) || i in l.lost || i in l.trimmed)
    && (!l.config.seeksPastTrim ==> l.trimmed == {})
    && (l.config.fixedStart && !l.config.seeksPastTrim ==> l.lost == {})
  }

  function AttemptsHere(l: Loop): nat {
    if l.retry.Some? && l.iterator_ < |l.config.shard| && l.retry.value.sequenceNumber == l.config.shard[l.iterator_]
    then l.retry.value.attempt else 0
  }

  ghost predicate RetryBehind(l: Loop)
  {
    l.retry.Some? ==>
      && l.retry.value.sequenceNumber in l.config.shard
      && IndexOf(l.config.shard, l.retry.value.sequenceNumber) <= l.iterator_
      && (l.config.maxRetryAttempts.Some? ==> l.retry.value.attempt <= l.config.maxRetryAttempts.value)
  }

  /** Batches so far and batches still possible stay within N * (M + 1). */
  ghost predicate WithinBudget(l: Loop)
    requires l.config.start <= l.iterator_ <= |l.config.shard|
  {
    l.config.maxRetryAttempts.Some? ==>
      var m, n := l.config.maxRetryAttempts.value, |l.config.shard|;
      l.batches + Potential(n - l.iterator_, m, AttemptsHere(l)) <= Potential(n - l.config.start, m, 0)
  }

  /** Asking for an iterator at a position that does not float gives the current
      one back. */
  ghost predicate PositionExact(l: Loop)
  {
    match l.position
    case Fixed(index) => index == l.iterator_
    case Floating => !l.config.fixedStart || l.config.seeksPastTrim
    case After(s) => s in l.config.shard && IndexOf(l.config.shard, s) + 1 == l.iterator_
    case At(s) => s in l.config.shard && IndexOf(l.config.shard, s) == l.iterator_
  }

  ghost predicate Valid(l: Loop)
  {
    && Distinct(l.config.shard)
    && l.config.start <= l.iterator_ <= |l.config.shard|
    && NothingSkipped(l) && RetryBehind(l) && WithinBudget(l) && PositionExact(l)
  }

  /** What holds of a run when it ends. */
  ghost predicate Safe(l: Loop)
  {
    && NothingSkipped(l)
    && (l.config.maxRetryAttempts.Some? && l.config.start <= |l.config.shard| ==>
          l.batches <= (|l.config.shard| - l.config.start) * (l.config.maxRetryAttempts.value + 1))
  }

  lemma ValidIsSafe(l: Loop)
    requires Valid(l)
    ensures Safe(l)
    ensures l.config.maxRetryAttempts.Some? && l.iterator_ < |l.config.shard| ==>
      l.batches < (|l.config.shard| - l.config.start) * (l.config.maxRetryAttempts.value + 1)
  {
    if l.config.maxRetryAttempts.Some? && l.iterator_ < |l.config.shard| {
      PotentialAdvance(|l.config.shard| - l.iterator_, 0, l.config.maxRetryAttempts.value, AttemptsHere(l));
    }
  }

  lemma BeginValid(config: Config)
    requires Distinct(config.shard) && config.start <= |config.shard|
    ensures Valid(Begin(config))
  {
  }

  /** Moving on leaves the retry behind and lowers what is possible. */
  lemma MovedOn(l: Loop, l': Loop, spent: nat)
    requires Distinct(l.config.shard) && l'.config == l.config && l'.retry == l.retry
    requires l.config.start <= l.iterator_ <= l'.iterator_ <= |l.config.shard|
    requires RetryBehind(l) && WithinBudget(l)
    requires l'.batches == l.batches + spent && (spent <= if l.iterator_ < l'.iterator_ then 1 else 0)
    ensures RetryBehind(l') && WithinBudget(l')
  {
    if l.iterator_ < l'.iterator_ {
      if l.retry.Some? && l'.iterator_ < |l.config.shard| {
        IndexOfAt(l.config.shard, l'.iterator_);
      }
      assert AttemptsHere(l') == 0;
      if l.config.maxRetryAttempts.Some? {
        PotentialAdvance(|l.config.shard| - l.iterator_, |l.config.shard| - l'.iterator_,
                         l.config.maxRetryAttempts.value, AttemptsHere(l));
      }
    }
  }

  /** A position that does not float is found where it stood. A floating one
      passes over records exactly when it resolves further on, and moving past a
      trimmed record happens in a step that reports. */
  lemma ReseekKeeps(l: Loop, seek: Seek)
    requires Valid(l)
    ensures
      var (l', exit) := ReseekSpec(l, seek);
      && Valid(l')
      && (seek.Found? ==>
            && l'.reports == l.reports && l'.trimmed == l.trimmed
            && (l'.lost != l.lost + {} ==> l.position.Floating?)
            && (l'.iterator_ > l.iterator_ <==> l.position.Floating? && Min(seek.tip, |l.config.shard|) > l.iterator_))
      && (l'.trimmed != l.trimmed ==> l'.reports == l.reports + [l.positionFailed])
  {
    var (l', exit) := ReseekSpec(l, seek);
    MovedOn(l, l', 0);
    assert forall i :: SettledAt(l, i) ==> SettledAt(l', i) by {
      MoreReports(l.reports, if seek.Trimmed? then [l.positionFailed] else []);
    }
  }

  /** Every failed record is one of the batch. */
  lemma FailedInBatch(ids: seq<Id>, runner: Runner)
    ensures forall id :: id in FailedOf(ids, runner) ==> id in ids
  {
    if runner.Acknowledged? {
      FilterMembers(ids, FailuresOf(runner.response, ToSet(ids)).ids);
    }
  }

  lemma FailedInShard(l: Loop, count: nat, runner: Runner)
    requires l.iterator_ + count <= |l.config.shard|
    ensures
      forall id :: id in FailedOf(l.config.shard[l.iterator_..l.iterator_ + count], runner) ==> id in l.config.shard
  {
    FailedInBatch(l.config.shard[l.iterator_..l.iterator_ + count], runner);
  }

  lemma AdvanceKeeps(l: Loop, count: nat, failed: seq<Id>, closed: bool)
    requires Valid(l) && 1 <= count <= |l.config.shard| - l.iterator_
    ensures
      var (l', exit) := AdvanceSpec(l.(batches := l.batches + 1), count, failed, closed);
      && Safe(l') && (exit == Running ==> Valid(l') && l'.iterator_ == l.iterator_ + count)
      && (forall i :: l.iterator_ <= i < l.iterator_ + count ==> SettledAt(l', i))
      && l'.reports == if failed == [] then l.reports else l.reports + [failed]
  {
    ValidIsSafe(l);
    AdvanceSettles(l, count, failed, closed);
    hide NothingSkipped;
    var (l', exit) := AdvanceSpec(l.(batches := l.batches + 1), count, failed, closed);
    if exit == Running {
      MovedOn(l, l', 1);
      IndexOfAt(l.config.shard, l.iterator_ + count - 1);
      hide RetryBehind, WithinBudget, PositionExact;
      ValidIsSafe(l');
    }
  }

  lemma AdvanceSettles(l: Loop, count: nat, failed: seq<Id>, closed: bool)
    requires l.iterator_ + count <= |l.config.shard| && 1 <= count
    requires NothingSkipped(l)
    ensures
      var l' := AdvanceSpec(l.(batches := l.batches + 1), count, failed, closed).0;
      NothingSkipped(l') && forall i :: l.iterator_ <= i < l.iterator_ + count ==> SettledAt(l', i)
  {
    var l' := AdvanceSpec(l.(batches := l.batches + 1), count, failed, closed).0;
    hide Named;
    MoreReports(l.reports, [failed]);
    ReportNames(l.reports, failed);
    forall i | l.config.start <= i < l'.iterator_
      ensures SettledAt(l', i) || i in l'.lost || i in l'.trimmed
    {
    }
  }

  /** The lowest failed record of a batch: everything before it succeeded. */
  lemma LowestOf(ids: seq<Id>, runner: Runner) returns (k: nat)
    requires FailedOf(ids, runner) != []
    ensures k < |ids| && ids[k] == FailedOf(ids, runner)[0]
    ensures forall i :: 0 <= i < k ==> ids[i] !in FailedOf(ids, runner)
  {
    if runner.Acknowledged? {
      var failed := FailuresOf(runner.response, ToSet(ids)).ids;
      k := LowestFailed(ids, failed);
      FilterMembers(ids, failed);
    } else {
      k := 0;
    }
  }

  lemma RetryKeeps(l: Loop, count: nat, runner: Runner)
    requires Valid(l) && 1 <= count <= |l.config.shard| - l.iterator_
    requires
      var failed := FailedOf(l.config.shard[l.iterator_..l.iterator_ + count], runner);
      failed != [] && !Exhausted(l, failed) && failed[0] in l.config.shard
    ensures
      var failed := FailedOf(l.config.shard[l.iterator_..l.iterator_ + count], runner);
      var l' := RetrySpec(l.(batches := l.batches + 1), count, failed);
      Valid(l') && l.iterator_ <= l'.iterator_ < l.iterator_ + count
  {
    var shard := l.config.shard;
    var ids := shard[l.iterator_..l.iterator_ + count];
    var failed := FailedOf(ids, runner);
    var l' := RetrySpec(l.(batches := l.batches + 1), count, failed);
    var k := LowestOf(ids, runner);
    hide FailedOf, Distinct, IndexOf, SettledAt;
    assert shard[l.iterator_ + k] == ids[k];
    IndexOfAt(shard, l.iterator_ + k);
    hide NothingSkipped, WithinBudget;
    RetrySettles(l, count, runner, k);
    RetryBudget(l, l', k);
  }

  lemma RetrySettles(l: Loop, count: nat, runner: Runner, k: nat)
    requires k < count && l.iterator_ + count <= |l.config.shard| && NothingSkipped(l)
    requires
      var ids := l.config.shard[l.iterator_..l.iterator_ + count];
      var failed := FailedOf(ids, runner);
      && failed != [] && failed[0] in l.config.shard && IndexOf(l.config.shard, failed[0]) == l.iterator_ + k
      && forall i :: 0 <= i < k ==> ids[i] !in failed
    ensures
      var failed := FailedOf(l.config.shard[l.iterator_..l.iterator_ + count], runner);
      NothingSkipped(RetrySpec(l.(batches := l.batches + 1), count, failed))
  {
    hide FailedOf, IndexOf, Named;
    var ids := l.config.shard[l.iterator_..l.iterator_ + count];
    var l' := RetrySpec(l.(batches := l.batches + 1), count, FailedOf(ids, runner));
    forall i | l.config.start <= i < l'.iterator_
      ensures SettledAt(l', i) || i in l'.lost || i in l'.trimmed
    {
      if i >= l.iterator_ {
        assert l.config.shard[i] == ids[i - l.iterator_];
      }
    }
  }

  /** A retry spends one attempt at its record, or moves on to a later one. */
  lemma RetryBudget(l: Loop, l': Loop, k: nat)
    requires Distinct(l.config.shard) && l.config.start <= l.iterator_ <= l.iterator_ + k < |l.config.shard|
    requires RetryBehind(l) && WithinBudget(l)
    requires l'.config == l.config && l'.iterator_ == l.iterator_ + k && l'.batches == l.batches + 1
    requires
      var s := l.config.shard[l.iterator_ + k];
      && l'.retry == Some(Retry(s, AttemptAt(l.retry, s)))
      && (l.config.maxRetryAttempts.Some? ==> AttemptAt(l.retry, s) <= l.config.maxRetryAttempts.value)
    ensures WithinBudget(l')
  {
    if l.config.maxRetryAttempts.Some? {
      var n, m := |l.config.shard|, l.config.maxRetryAttempts.value;
      if k == 0 {
        assert AttemptsHere(l') == AttemptsHere(l) + 1;
      } else {
        if l.retry.Some? {
          IndexOfAt(l.config.shard, l.iterator_ + k);
        }
        assert AttemptsHere(l') == 1;
        PotentialAdvance(n - l.iterator_, n - l.iterator_ - k, m, AttemptsHere(l));
      }
    }
  }

  lemma AbortKeeps(l: Loop)
    requires Valid(l) && l.iterator_ < |l.config.shard|
    ensures Safe(l.(batches := l.batches + 1))
  {
    ValidIsSafe(l);
    assert forall i :: SettledAt(l.(batches := l.batches + 1), i) == SettledAt(l, i);
  }

  lemma BatchKeeps(l: Loop, count: nat, closed: bool, runner: Runner, abortedAfter: bool, seek: Seek)
    requires Valid(l) && 1 <= count <= |l.config.shard| - l.iterator_
    ensures
      var (l', exit) := BatchSpec(l, count, closed, runner, abortedAfter, seek);
      Safe(l') && (exit == Running ==> Valid(l'))
  {
    hide NothingSkipped, RetryBehind, WithinBudget, PositionExact, FailedOf, AdvanceSpec, ReseekSpec, RetrySpec;
    var failed := FailedOf(l.config.shard[l.iterator_..l.iterator_ + count], runner);
    if abortedAfter {
      AbortKeeps(l);
    } else if failed == [] || Exhausted(l, failed) {
      AdvanceKeeps(l, count, failed, closed);
    } else {
      FailedInShard(l, count, runner);
      RetryKeeps(l, count, runner);
      var l' := RetrySpec(l.(batches := l.batches + 1), count, failed);
      ReseekKeeps(l', seek);
      ValidIsSafe(ReseekSpec(l', seek).0);
    }
  }

  lemma ValidBounds(l: Loop)
    requires Valid(l)
    ensures l.config.start <= l.iterator_ <= |l.config.shard|
  {
  }

  lemma ExpiredKeeps(l: Loop, seek: Seek)
    requires Valid(l)
    ensures
      var (l', exit) := ReseekSpec(l, seek);
      Safe(l') && Valid(l')
  {
    hide Valid, Safe, ReseekSpec;
    ValidBounds(l);
    ReseekKeeps(l, seek);
    ValidIsSafe(ReseekSpec(l, seek).0);
  }

  lemma {:induction false} TurnKeeps(l: Loop, turn: Turn)
    requires Valid(l)
    ensures
      var (l', exit) := TurnSpec(l, turn);
      Safe(l') && (exit == Running ==> Valid(l')) && l'.config == l.config
  {
    hide Valid, Safe, BatchSpec, ReseekSpec;
    ValidBounds(l);
    ValidIsSafe(l);
    if turn.Records? {
      var n := Min(turn.count, |l.config.shard| - l.iterator_);
      if n > 0 {
        BatchKeeps(l, n, turn.closed, turn.runner, turn.abortedAfter, turn.seek);
      }
    } else if turn.Expired? {
      ExpiredKeeps(l, turn.seek);
    }
  }

  /** Every run, over any mix of batches acknowledged, partly failed, thrown or
      answered invalidly, empty reads, expiries, errors and aborts: no record is
      skipped, and with M retries and N records it takes at most N * (M + 1)
      batches. */
  lemma {:induction false} EveryRunIsSafe(config: Config, turns: seq<Turn>)
    requires Distinct(config.shard) && config.start <= |config.shard|
    ensures Valid(Begin(config)) && Safe(RunSpec(Begin(config), turns).0)
  {
    BeginValid(config);
    RunFrom(Begin(config), turns);
  }

  lemma {:induction false} RunFrom(l: Loop, turns: seq<Turn>)
    requires Valid(l)
    ensures Safe(RunSpec(l, turns).0)
    decreases |turns|
  {
    ValidIsSafe(l);
    if turns != [] {
      TurnKeeps(l, turns[0]);
      var (l', exit) := TurnSpec(l, turns[0]);
      if exit == Running {
        RunFrom(l', turns[1..]);
      }
    }
  }

  /** With the record settler and the response builder in front, the records the
      loop retries are exactly those whose handler did not fulfil them. */
  lemma SettledBatch(ids: seq<Id>, settled: seq<BatchHandler.Settled>)
    requires Distinct(ids)
    ensures FailedOf(ids, Acknowledged(NotDone(ids, settled, 0))) == NotDone(ids, settled, 0)
  {
    FilterIsResponse(ids, settled);
  }

  /** The property needs the fixed start: from `LATEST`, an iterator that expires
      before the first batch can be replaced by one further on. */
  lemma LatestCanSkip()
    ensures
      var config := Config([7, 8], None, false, 0, false);
      && Valid(Begin(config))
      && var l := RunSpec(Begin(config), [Expired(Found(1))]).0;
         l.iterator_ == 1 && !SettledAt(l, 0) && 0 in l.lost
  {
    BeginValid(Config([7, 8], None, false, 0, false));
  }

  /** Once a batch has been delivered, or the start was fixed, the position never
      floats again on Kinesis and nothing more is passed over. */
  lemma PinnedTurn(l: Loop, turn: Turn)
    requires l.iterator_ <= |l.config.shard| && !l.config.seeksPastTrim
    requires l.position.Floating? ==> turn.Records? && turn.count > 0 && l.iterator_ < |l.config.shard|
    ensures
      var (l', exit) := TurnSpec(l, turn);
      l'.lost == l.lost && (exit == Running ==> !l'.position.Floating?)
  {
    hide FailedOf, IndexOf;
  }

  lemma {:induction false} PinnedRun(l: Loop, turns: seq<Turn>)
    requires l.iterator_ <= |l.config.shard| && !l.config.seeksPastTrim
    requires l.position.Floating? && turns != [] ==>
      turns[0].Records? && turns[0].count > 0 && l.iterator_ < |l.config.shard|
    ensures RunSpec(l, turns).0.lost == l.lost
    decreases |turns|
  {
    if turns != [] {
      PinnedTurn(l, turns[0]);
      hide TurnSpec;
      var (l', exit) := TurnSpec(l, turns[0]);
      if exit == Running {
        PinnedRun(l', turns[1..]);
      }
    }
  }

  /** Nothing passed over is forgotten. */
  lemma {:induction false} LostStays(l: Loop, turns: seq<Turn>)
    requires l.iterator_ <= |l.config.shard|
    ensures l.lost <= RunSpec(l, turns).0.lost && l.trimmed <= RunSpec(l, turns).0.trimmed
    decreases |turns|
  {
    if turns != [] {
      TurnLostStays(l, turns[0]);
      hide TurnSpec;
      var (l', exit) := TurnSpec(l, turns[0]);
      if exit == Running {
        LostStays(l', turns[1..]);
      }
    }
  }

  lemma TurnLostStays(l: Loop, turn: Turn)
    requires l.iterator_ <= |l.config.shard|
    ensures l.lost <= TurnSpec(l, turn).0.lost && l.trimmed <= TurnSpec(l, turn).0.trimmed
  {
    hide FailedOf, IndexOf, Recorded, Span;
  }

  /** The scripts that pass over a record from a floating start: before any batch
      is delivered, a new iterator is found further on than the start. */
  predicate PassesOver(config: Config, turns: seq<Turn>)
    requires config.start <= |config.shard|
    decreases |turns|
  {
    turns != [] &&
    match turns[0]
    case Records(count, closed, _, _, _) =>
      Min(count, |config.shard| - config.start) == 0 && !closed && PassesOver(config, turns[1..])
    case Expired(seek) =>
      seek.Found? && (Min(seek.tip, |config.shard|) > config.start || PassesOver(config, turns[1..]))
    case SendFailed => false
    case Aborted => false
  }

  /** On Kinesis a run from a floating start passes over a record if and only if
      its script does so before the first batch. */
  lemma {:induction false} PassesOverIff(config: Config, turns: seq<Turn>)
    requires config.start <= |config.shard| && !config.fixedStart && !config.seeksPastTrim
    ensures RunSpec(Begin(config), turns).0.lost != {} <==> PassesOver(config, turns)
    decreases |turns|
  {
    var l := Begin(config);
    if turns != [] {
      var (l', exit) := TurnSpec(l, turns[0]);
      if turns[0].Expired? && turns[0].seek.Found? && Min(turns[0].seek.tip, |config.shard|) > config.start {
        assert config.start in l'.lost;
        LostStays(l', turns[1..]);
      } else if turns[0].Records? && Min(turns[0].count, |config.shard| - config.start) > 0 {
        PinnedRun(l, turns);
      } else if exit == Running {
        assert l' == l by {
          EmptyPass(config, turns[0]);
        }
        PassesOverIff(config, turns[1..]);
      }
    }
  }

  lemma EmptyPass(config: Config, turn: Turn)
    requires config.start <= |config.shard| && !config.fixedStart && !config.seeksPastTrim
    requires turn.Records? ==> Min(turn.count, |config.shard| - config.start) == 0
    requires turn.Expired? && turn.seek.Found? ==> Min(turn.seek.tip, |config.shard|) <= config.start
    ensures TurnSpec(Begin(config), turn).0 == Begin(config)
  {
    assert Span(config.start, config.start) == {};
  }

  /** Whatever happens, no record is passed over: exactly from a fixed start on
      Kinesis, or from the end of the shard. */
  lemma {:induction false} NothingPassedOverIff(config: Config)
    requires Distinct(config.shard) && config.start <= |config.shard|
    ensures (forall turns ::
               RunSpec(Begin(config), turns).0.lost == {} && RunSpec(Begin(config), turns).0.trimmed == {})
       <==> (config.fixedStart && !config.seeksPastTrim) || config.start == |config.shard|
  {
    if config.start == |config.shard| {
      forall turns
        ensures RunSpec(Begin(config), turns).0.lost == {} && RunSpec(Begin(config), turns).0.trimmed == {}
      {
        NothingLeftToPass(Begin(config), turns);
      }
    } else if config.fixedStart && !config.seeksPastTrim {
      forall turns
        ensures RunSpec(Begin(config), turns).0.lost == {} && RunSpec(Begin(config), turns).0.trimmed == {}
      {
        EveryRunIsSafe(config, turns);
      }
    } else {
      var turn := Expired(if config.seeksPastTrim then Trimmed(Found(config.start + 1)) else Found(config.start + 1));
      OneTurn(Begin(config), turn);
      var l := RunSpec(Begin(config), [turn]).0;
      assert config.start in l.lost || config.start in l.trimmed;
    }
  }

  lemma OneTurn(l: Loop, turn: Turn)
    requires l.iterator_ <= |l.config.shard|
    ensures RunSpec(l, [turn]) == TurnSpec(l, turn)
  {
    hide TurnSpec;
    var (l', exit) := TurnSpec(l, turn);
    assert [turn][1..] == [];
    if exit == Running {
      assert RunSpec(l', []) == (l', Running);
    }
  }

  lemma {:induction false} NothingLeftToPass(l: Loop, turns: seq<Turn>)
    requires l.iterator_ == |l.config.shard|
    ensures RunSpec(l, turns).0.lost == l.lost && RunSpec(l, turns).0.trimmed == l.trimmed
    decreases |turns|
  {
    if turns != [] {
      assert Span(l.iterator_, l.iterator_) == {};
      var (l', exit) := TurnSpec(l, turns[0]);
      assert l'.iterator_ == l.iterator_ && l'.lost == l.lost && l'.trimmed == l.trimmed;
      if exit == Running {
        NothingLeftToPass(l', turns[1..]);
      }
    }
  }

  // ---- What a batch does, by its response ----

  /** The record failed: the handler threw, or the response fails it. */
  predicate FailedBy(runner: Runner, ids: seq<Id>, id: Id) {
    match runner
    case HandlerThrew => true
    case Acknowledged(response) => Fails(response, ids, id)
  }

  lemma FailedExactly(runner: Runner, ids: seq<Id>)
    ensures forall id :: id in FailedOf(ids, runner) <==> id in ids && FailedBy(runner, ids, id)
    ensures FailedOf(ids, runner) == Filter(ids, AllFailed(runner, ids))
  {
    FilterMembers(ids, AllFailed(runner, ids));
    if runner.Acknowledged? {
      FilterMembers(ids, FailuresOf(runner.response, ToSet(ids)).ids);
      FailsExactly(runner.response, ids);
      assert AllFailed(runner, ids) == FailuresOf(runner.response, ToSet(ids)).ids;
    } else {
      FilterSuperset(ids, AllFailed(runner, ids));
    }
  }

  function AllFailed(runner: Runner, ids: seq<Id>): set<Id> {
    set id | id in ids && FailedBy(runner, ids, id)
  }

  /** The records the batch of a pass delivers. */
  function Batch(l: Loop, count: nat): seq<Id>
    requires l.iterator_ <= |l.config.shard|
  {
    l.config.shard[l.iterator_..l.iterator_ + Min(count, |l.config.shard| - l.iterator_)]
  }

  /** How a retry of the record is counted: on from one at the same record, else anew. */
  ghost predicate Attempt(l: Loop, s: Id, attempt: nat)
  {
    && (l.retry.Some? && l.retry.value.sequenceNumber == s ==> attempt == l.retry.value.attempt + 1)
    && ((l.retry.Some? ==> l.retry.value.sequenceNumber != s) ==> attempt == 1)
  }

  /** The latest settlements of the batch's records changed to this, and no others. */
  ghost predicate Settles(l: Loop, l': Loop, ids: seq<Id>, runner: Runner, given: Settlement)
    requires l.iterator_ + |ids| <= |l.config.shard| && l'.config == l.config
  {
    && (forall i :: l.iterator_ <= i < l.iterator_ + |ids| ==>
          i in l'.latest && l'.latest[i] == if FailedBy(runner, ids, l.config.shard[i]) then given else Succeeded)
    && (forall i :: !(l.iterator_ <= i < l.iterator_ + |ids|) ==>
          (i in l'.latest <==> i in l.latest) && (i in l.latest ==> l'.latest[i] == l.latest[i]))
  }

  /** A batch without a failed record is passed; the iterator stays where it is only
      when the shard closed. */
  lemma GoodBatchDoes(l: Loop, count: nat, closed: bool, runner: Runner, seek: Seek)
    requires l.iterator_ <= |l.config.shard| && Batch(l, count) != []
    requires forall id :: id in Batch(l, count) ==> !FailedBy(runner, Batch(l, count), id)
    ensures
      var ids := Batch(l, count);
      var (l', exit) := TurnSpec(l, Records(count, closed, runner, false, seek));
      && Settles(l, l', ids, runner, Reported) && l'.batches == l.batches + 1
      && l'.reports == l.reports && l'.retry == l.retry && l'.position == After(ids[|ids| - 1])
      && exit == (if closed then SourceClosed else Running)
      && l'.iterator_ == (if closed then l.iterator_ else l.iterator_ + |ids|)
      && l'.positionFailed == [] && l'.lost == l.lost && l'.trimmed == l.trimmed
  {
    hide TurnSpec, FailedOf, ReseekSpec, RetrySpec, Batch, Recorded, Settles, FailedBy;
    var ids := Batch(l, count);
    NoneFailedOf(runner, ids);
    BatchActs(l, count, closed, runner, seek);
    SettlesRecorded(l, TurnSpec(l, Records(count, closed, runner, false, seek)).0, ids, runner, [], Reported);
  }

  lemma NoneFailedOf(runner: Runner, ids: seq<Id>)
    requires forall id :: id in ids ==> !FailedBy(runner, ids, id)
    ensures FailedOf(ids, runner) == []
  {
    FailedExactly(runner, ids);
    FilterNone(ids, AllFailed(runner, ids));
  }

  lemma BatchActs(l: Loop, count: nat, closed: bool, runner: Runner, seek: Seek)
    requires l.iterator_ <= |l.config.shard| && Batch(l, count) != []
    ensures
      var ids, start := Batch(l, count), l.(batches := l.batches + 1);
      && l.iterator_ + |ids| <= |l.config.shard| && ids == l.config.shard[l.iterator_..l.iterator_ + |ids|]
      && (FailedOf(ids, runner) == [] || FailedOf(ids, runner)[0] in l.config.shard)
      && TurnSpec(l, Records(count, closed, runner, false, seek)) ==
         ActSpec(start, |ids|, FailedOf(ids, runner), closed, seek)
  {
    hide FailedOf, ActSpec;
    FailedInShard(l, |Batch(l, count)|, runner);
  }

  lemma SettlesRecorded(l: Loop, l': Loop, ids: seq<Id>, runner: Runner, failed: seq<Id>, given: Settlement)
    requires l.iterator_ + |ids| <= |l.config.shard| && ids == l.config.shard[l.iterator_..l.iterator_ + |ids|]
    requires forall id :: id in failed <==> id in ids && FailedBy(runner, ids, id)
    requires l'.config == l.config
    requires l'.latest == Recorded(l.latest, l.config.shard, l.iterator_, |ids|, failed, given)
    ensures Settles(l, l', ids, runner, given)
  {
    hide FailedBy;
    forall i | l.iterator_ <= i < l.iterator_ + |ids|
      ensures l.config.shard[i] in failed <==> FailedBy(runner, ids, l.config.shard[i])
    {
      assert l.config.shard[i] == ids[i - l.iterator_];
    }
  }

  /** A batch with failed records whose retries are spent is reported once, by exactly
      its failed records in order, and passed. */
  lemma SpentBatchDoes(l: Loop, count: nat, closed: bool, runner: Runner, seek: Seek, k: nat, attempt: nat)
    requires l.iterator_ <= |l.config.shard| && k < |Batch(l, count)|
    requires FailedBy(runner, Batch(l, count), Batch(l, count)[k])
    requires forall j :: 0 <= j < k ==> !FailedBy(runner, Batch(l, count), Batch(l, count)[j])
    requires Attempt(l, Batch(l, count)[k], attempt)
    requires l.config.maxRetryAttempts.Some? && attempt > l.config.maxRetryAttempts.value
    ensures
      var ids := Batch(l, count);
      var (l', exit) := TurnSpec(l, Records(count, closed, runner, false, seek));
      && Settles(l, l', ids, runner, Reported) && l'.batches == l.batches + 1
      && l'.reports == l.reports + [Filter(ids, AllFailed(runner, ids))]
      && l'.retry == l.retry && l'.position == After(ids[|ids| - 1])
      && exit == (if closed then SourceClosed else Running)
      && l'.iterator_ == (if closed then l.iterator_ else l.iterator_ + |ids|)
      && l'.positionFailed == [] && l'.lost == l.lost && l'.trimmed == l.trimmed
  {
    hide TurnSpec, FailedOf, ReseekSpec, RetrySpec, Batch, Recorded, Settles, FailedBy, AllFailed, Filter;
    var ids := Batch(l, count);
    FailedExactly(runner, ids);
    FirstFailedIs(runner, ids, k);
    BatchActs(l, count, closed, runner, seek);
    SettlesRecorded(l, TurnSpec(l, Records(count, closed, runner, false, seek)).0, ids, runner,
                    FailedOf(ids, runner), Reported);
  }

  lemma FirstFailedIs(runner: Runner, ids: seq<Id>, k: nat)
    requires k < |ids| && FailedBy(runner, ids, ids[k])
    requires forall j :: 0 <= j < k ==> !FailedBy(runner, ids, ids[j])
    ensures FailedOf(ids, runner) != [] && FailedOf(ids, runner)[0] == ids[k]
  {
    FailedExactly(runner, ids);
    hide FailedBy;
    var failed := AllFailed(runner, ids);
    assert ids[k] in FailedOf(ids, runner);
    hide FailedOf;
    var j := LowestFailed(ids, failed);
    assert j >= k;
  }

  /** A batch with failed records and retries left: nothing is passed and nothing of it
      reported; the first failed record is what is asked for next, with its attempt
      counted, and the failed records wait for that. */
  lemma FailedBatchDoes(l: Loop, count: nat, closed: bool, runner: Runner, seek: Seek, k: nat, attempt: nat)
    requires Distinct(l.config.shard) && l.iterator_ <= |l.config.shard| && k < |Batch(l, count)|
    requires FailedBy(runner, Batch(l, count), Batch(l, count)[k])
    requires forall j :: 0 <= j < k ==> !FailedBy(runner, Batch(l, count), Batch(l, count)[j])
    requires Attempt(l, Batch(l, count)[k], attempt)
    requires l.config.maxRetryAttempts.Some? ==> attempt <= l.config.maxRetryAttempts.value
    ensures
      var ids := Batch(l, count);
      var (l', exit) := TurnSpec(l, Records(count, closed, runner, false, seek));
      && Settles(l, l', ids, runner, Pending) && l'.batches == l.batches + 1
      && l'.retry == Some(Retry(ids[k], attempt)) && l'.lost == l.lost
      && (!seek.Trimmed? || !l.config.seeksPastTrim ==>
            && l'.reports == l.reports && l'.trimmed == l.trimmed
            && l'.iterator_ == l.iterator_ + k && l'.position == At(ids[k])
            && l'.positionFailed == Filter(ids, AllFailed(runner, ids)))
      && (seek.Trimmed? && l.config.seeksPastTrim ==>
            && l'.reports == l.reports + [Filter(ids, AllFailed(runner, ids))]
            && l'.iterator_ >= l.iterator_ + k && l'.position == Floating && l'.positionFailed == []
            && forall i :: i in l'.trimmed <==> i in l.trimmed || (l.iterator_ + k <= i < l'.iterator_))
      && exit == (match seek
                  case Found(_) => Running
                  case Trimmed(Found(_)) => if l.config.seeksPastTrim then Running else PollFailed
                  case Trimmed(SeekAborted) => if l.config.seeksPastTrim then Stopped else PollFailed
                  case SeekAborted => Stopped
                  case _ => PollFailed)
  {
    hide TurnSpec, FailedOf, AdvanceSpec, IndexOf, Batch, Recorded, Settles, FailedBy, AllFailed, Filter, Distinct;
    var ids := Batch(l, count);
    FailedExactly(runner, ids);
    FirstFailedIs(runner, ids, k);
    BatchActs(l, count, closed, runner, seek);
    assert l.config.shard[l.iterator_ + k] == ids[k];
    IndexOfAt(l.config.shard, l.iterator_ + k);
    SettlesRecorded(l, TurnSpec(l, Records(count, closed, runner, false, seek)).0, ids, runner,
                    FailedOf(ids, runner), Pending);
  }

  /** A batch the loop does not act on, because it was aborted, settles nothing. */
  lemma AbortedBatchDoes(l: Loop, count: nat, closed: bool, runner: Runner, seek: Seek)
    requires l.iterator_ <= |l.config.shard| && Batch(l, count) != []
    ensures TurnSpec(l, Records(count, closed, runner, true, seek)) == (l.(batches := l.batches + 1), Stopped)
  {
  }

  /** A batch whose handler threw, or whose response is invalid: none of its records is
      done. With retries left they all wait, the iterator and the reports as they were;
      otherwise one report names the whole batch. */
  lemma UnansweredBatch(l: Loop, count: nat, closed: bool, runner: Runner, tip: nat)
    requires Distinct(l.config.shard) && l.iterator_ <= |l.config.shard| && Batch(l, count) != []
    requires runner.Acknowledged? ==> exists other :: other in runner.response && other !in Batch(l, count)
    ensures
      var ids := Batch(l, count);
      var (l', exit) := TurnSpec(l, Records(count, closed, runner, false, Found(tip)));
      || (&& l'.iterator_ == l.iterator_ && l'.reports == l.reports && exit == Running
          && forall i :: l.iterator_ <= i < l.iterator_ + |ids| ==> i in l'.latest && l'.latest[i] == Pending)
      || (&& l'.reports == l.reports + [ids]
          && forall i :: l.iterator_ <= i < l.iterator_ + |ids| ==> i in l'.latest && l'.latest[i] == Reported)
  {
    var ids := Batch(l, count);
    var attempt := if l.retry.Some? && l.retry.value.sequenceNumber == ids[0] then l.retry.value.attempt + 1 else 1;
    FilterSuperset(ids, AllFailed(runner, ids));
    if l.config.maxRetryAttempts.Some? && attempt > l.config.maxRetryAttempts.value {
      SpentBatchDoes(l, count, closed, runner, Found(tip), 0, attempt);
    } else {
      FailedBatchDoes(l, count, closed, runner, Found(tip), 0, attempt);
    }
    hide TurnSpec;
  }

  /** The passes without a batch. */
  lemma OtherPassesDo(l: Loop, closed: bool, runner: Runner, abortedAfter: bool, seek: Seek, count: nat)
    requires l.iterator_ <= |l.config.shard|
    ensures TurnSpec(l, SendFailed) == (l, PollFailed) && TurnSpec(l, Aborted) == (l, Stopped)
    ensures Batch(l, count) == [] ==>
      TurnSpec(l, Records(count, closed, runner, abortedAfter, seek)) == (l, if closed then SourceClosed else Running)
  {
  }

  // ---- What became of a record, by the script ----

  /** A batch the loop acted on: its records and what the runner made of it. */
  datatype Delivery = Delivery(ids: seq<Id>, runner: Runner)

  function DeliveryIn(l: Loop, turn: Turn, i: nat): Option<Delivery>
    requires l.iterator_ <= |l.config.shard|
  {
    if turn.Records? && !turn.abortedAfter && l.iterator_ <= i < l.iterator_ + |Batch(l, turn.count)| then
      Some(Delivery(Batch(l, turn.count), turn.runner))
    else None
  }

  /** The last batch of a run that delivered the record. */
  function LastDelivery(l: Loop, turns: seq<Turn>, i: nat): Option<Delivery>
    requires l.iterator_ <= |l.config.shard|
    decreases |turns|
  {
    if turns == [] then None
    else
      var (l', exit) := TurnSpec(l, turns[0]);
      var later := if exit == Running then LastDelivery(l', turns[1..], i) else None;
      if later.Some? then later else DeliveryIn(l, turns[0], i)
  }

  /** `latest` has what the delivery made of the record, or what it had before. */
  ghost predicate LatestBy(l: Loop, l': Loop, delivery: Option<Delivery>, i: nat)
  {
    match delivery
    case Some(d) =>
      && i < |l.config.shard| && i in l'.latest
      && (l'.latest[i] == Succeeded <==> !FailedBy(d.runner, d.ids, l.config.shard[i]))
    case None => (i in l'.latest <==> i in l.latest) && (i in l.latest ==> l'.latest[i] == l.latest[i])
  }

  lemma TurnLatest(l: Loop, turn: Turn, i: nat)
    requires Distinct(l.config.shard) && l.iterator_ <= |l.config.shard|
    ensures LatestBy(l, TurnSpec(l, turn).0, DeliveryIn(l, turn, i), i)
  {
    hide FailedBy, Distinct, Filter;
    if turn.Records? && Batch(l, turn.count) != [] && !turn.abortedAfter {
      BatchLatest(l, turn.count, turn.closed, turn.runner, turn.seek);
      hide TurnSpec;
    } else if turn.Records? && turn.abortedAfter && Batch(l, turn.count) != [] {
      AbortedBatchDoes(l, turn.count, turn.closed, turn.runner, turn.seek);
      hide TurnSpec;
    }
  }

  lemma BatchLatest(l: Loop, count: nat, closed: bool, runner: Runner, seek: Seek)
    requires Distinct(l.config.shard) && l.iterator_ <= |l.config.shard| && Batch(l, count) != []
    ensures
      var (l', exit) := TurnSpec(l, Records(count, closed, runner, false, seek));
      Settles(l, l', Batch(l, count), runner, Reported) || Settles(l, l', Batch(l, count), runner, Pending)
  {
    var ids := Batch(l, count);
    if k :| 0 <= k < |ids| && FailedBy(runner, ids, ids[k])
            && forall j :: 0 <= j < k ==> !FailedBy(runner, ids, ids[j]) {
      var attempt := if l.retry.Some? && l.retry.value.sequenceNumber == ids[k] then l.retry.value.attempt + 1 else 1;
      if l.config.maxRetryAttempts.Some? && attempt > l.config.maxRetryAttempts.value {
        SpentBatchDoes(l, count, closed, runner, seek, k, attempt);
      } else {
        FailedBatchDoes(l, count, closed, runner, seek, k, attempt);
      }
    } else {
      NoneFailed(runner, ids, |ids|);
      GoodBatchDoes(l, count, closed, runner, seek);
    }
    hide TurnSpec, Batch, FailedBy, Settles;
  }

  lemma {:induction false} NoneFailed(runner: Runner, ids: seq<Id>, n: nat)
    requires n <= |ids|
    requires !exists k :: 0 <= k < |ids| && FailedBy(runner, ids, ids[k])
                          && forall j :: 0 <= j < k ==> !FailedBy(runner, ids, ids[j])
    ensures forall j :: 0 <= j < n ==> !FailedBy(runner, ids, ids[j])
  {
    hide FailedBy;
    if n > 0 {
      NoneFailed(runner, ids, n - 1);
    }
  }

  lemma {:induction false} RunLatest(l: Loop, turns: seq<Turn>, i: nat)
    requires Distinct(l.config.shard) && l.iterator_ <= |l.config.shard|
    ensures LatestBy(l, RunSpec(l, turns).0, LastDelivery(l, turns, i), i)
    decreases |turns|
  {
    if turns != [] {
      TurnLatest(l, turns[0], i);
      hide TurnSpec, DeliveryIn, FailedBy, Distinct;
      var (l', exit) := TurnSpec(l, turns[0]);
      if exit == Running {
        RunLatest(l', turns[1..], i);
      }
    }
  }

  /** Over every run, from its script: a record behind the iterator was delivered, and by
      the last batch that delivered it its handler did not throw, and the response was
      valid and did not name it; or a report names it; or it was passed over by a
      floating start or trimmed. */
  lemma EveryRunSettles(config: Config, turns: seq<Turn>, i: nat)
    requires Distinct(config.shard) && config.start <= |config.shard|
    ensures
      var l, last := RunSpec(Begin(config), turns).0, LastDelivery(Begin(config), turns, i);
      && l.iterator_ <= |config.shard|
      && (config.start <= i < l.iterator_ && i !in l.lost && i !in l.trimmed ==>
            last.Some? && (FailedBy(last.value.runner, last.value.ids, config.shard[i]) ==>
                             Named(l.reports, config.shard[i])))
  {
    EveryRunIsSafe(config, turns);
    RunLatest(Begin(config), turns, i);
    RunInShard(Begin(config), turns);
    hide RunSpec, FailedBy, Named, Distinct, LastDelivery, Valid;
  }

  lemma {:induction false} RunInShard(l: Loop, turns: seq<Turn>)
    requires l.iterator_ <= |l.config.shard|
    ensures RunSpec(l, turns).0.iterator_ <= |l.config.shard|
    decreases |turns|
  {
    if turns != [] {
      hide TurnSpec;
      var (l', exit) := TurnSpec(l, turns[0]);
      if exit == Running {
        RunInShard(l', turns[1..]);
      }
    }
  }

  // ---- The poller ----

  class ShardPoller {
    const config: Config
    var iterator_: nat
    var position: Position
    var positionFailed: seq<Id>
    var retry: Option<Retry>
    /** The failed records of each acknowledged event, by event number. */
    var failedRecords: map<nat, seq<Id>>
    var batches: nat
    var reports: seq<seq<Id>>
    ghost var latest: map<nat, Settlement>
    ghost var lost: set<nat>
    ghost var trimmed: set<nat>

    ghost function State(): Loop
      reads this
    {
      Loop(config, iterator_, position, positionFailed, retry, batches, reports, latest, lost, trimmed)
    }

    constructor (config: Config)
      ensures State() == Begin(config) && failedRecords == map[]
    {
      this.config := config;
      iterator_, position := config.start, if config.fixedStart then Fixed(config.start) else Floating;
      positionFailed, retry, failedRecords, batches, reports := [], None, map[], 0, [];
      latest, lost, trimmed := map[], {}, {};
    }

    /** `acknowledge`: keeps the failed records of the event, then raises when the
        response was invalid. */
    method Acknowledge(event: nat, ids: seq<Id>, response: Response) returns (raised: bool)
      modifies `failedRecords
      ensures failedRecords == old(failedRecords)[event := FailedOf(ids, Acknowledged(response))]
      ensures raised <==> !(ToSet(response) <= ToSet(ids))
    {
      var failed := ReadFailures(response, ToSet(ids));
      failedRecords := failedRecords[event := Filter(ids, failed.ids)];
      raised := !failed.valid;
    }

    /** A new iterator at the position, past trimmed records on DynamoDB. */
    method Reseek(seek: Seek) returns (exit: Exit)
      requires iterator_ <= |config.shard|
      modifies this
      ensures (State(), exit) == ReseekSpec(old(State()), seek)
      ensures failedRecords == old(failedRecords) && batches == old(batches)
    {
      if seek.Found? {
        exit := Running;
        if position.Floating? {
          var to := Forward(State(), seek.tip);
          lost := lost + Span(iterator_, to);
          iterator_ := Max(iterator_, Min(seek.tip, |config.shard|));
        }
      } else if seek.Trimmed? && config.seeksPastTrim {
        reports := reports + [positionFailed];
        position, positionFailed := Floating, [];
        if seek.again.Found? {
          exit := Running;
          var to := Forward(State(), seek.again.tip);
          trimmed := trimmed + Span(iterator_, to);
          iterator_ := Max(iterator_, Min(seek.again.tip, |config.shard|));
        } else {
          exit := if seek.again.SeekAborted? then Stopped else PollFailed;
        }
      } else {
        exit := if seek.SeekAborted? then Stopped else PollFailed;
      }
    }

    /** The batch is behind the loop: asked for anew, the iterator starts after its last
        record. */
    method Settle(count: nat, failed: seq<Id>, closed: bool) returns (exit: Exit)
      requires 1 <= count && iterator_ + count <= |config.shard|
      modifies this
      ensures
        var l := old(State());
        && (State(), exit) ==
           (l.(position := After(config.shard[l.iterator_ + count - 1]), positionFailed := [],
               latest := Recorded(l.latest, l.config.shard, l.iterator_, count, failed, Reported),
               iterator_ := if closed then l.iterator_ else l.iterator_ + count),
            if closed then SourceClosed else Running)
      ensures failedRecords == old(failedRecords) && batches == old(batches)
    {
      hide Recorded;
      latest := Recorded(latest, config.shard, iterator_, count, failed, Reported);
      position, positionFailed := After(config.shard[iterator_ + count - 1]), [];
      if closed {
        return SourceClosed;
      }
      iterator_ := iterator_ + count;
      exit := Running;
    }

    /** Advance, discard or retry. */
    method Act(count: nat, failed: seq<Id>, closed: bool, seek: Seek) returns (exit: Exit)
      requires 1 <= count && iterator_ + count <= |config.shard|
      requires failed == [] || failed[0] in config.shard
      modifies this
      ensures (State(), exit) == ActSpec(old(State()), count, failed, closed, seek)
      ensures failedRecords == old(failedRecords) && batches == old(batches)
    {
      hide ReseekSpec, IndexOf, Recorded;
      if failed == [] {
        exit := Settle(count, failed, closed);
        return;
      }
      var attempt := AttemptAt(retry, failed[0]);
      if config.maxRetryAttempts.Some? && attempt > config.maxRetryAttempts.value {
        reports := reports + [failed];
        exit := Settle(count, failed, closed);
        return;
      }
      latest := Recorded(latest, config.shard, iterator_, count, failed, Pending);
      retry := Some(Retry(failed[0], attempt));
      position, positionFailed := At(failed[0]), failed;
      iterator_ := IndexOf(config.shard, failed[0]);
      assert State() == RetrySpec(old(State()), count, failed);
      exit := Reseek(seek);
    }

    /** One batch: yielded to the runner, then acted on when the loop resumes. */
    method Deliver(count: nat, closed: bool, runner: Runner, abortedAfter: bool, seek: Seek) returns (exit: Exit)
      requires 1 <= count && iterator_ + count <= |config.shard|
      requires batches !in failedRecords
      modifies this
      ensures (State(), exit) == BatchSpec(old(State()), count, closed, runner, abortedAfter, seek)
      ensures failedRecords.Keys <= old(failedRecords).Keys + {old(batches)} && batches == old(batches) + 1
    {
      hide ActSpec, IndexOf;
      var event := batches;
      var ids := config.shard[iterator_..iterator_ + count];
      batches := batches + 1;
      if runner.Acknowledged? {
        var _ := Acknowledge(event, ids, runner.response);
      }
      if abortedAfter {
        return Stopped;
      }
      assert (if event in failedRecords then failedRecords[event] else ids) == FailedOf(ids, runner);
      hide FailedOf;
      FailedInShard(old(State()), count, runner);
      exit := Act(count, if event in failedRecords then failedRecords[event] else ids, closed, seek);
    }

    /** `poll`, over the script of what it meets. */
    method Poll(turns: seq<Turn>) returns (exit: Exit)
      requires iterator_ <= |config.shard| && forall event :: event in failedRecords ==> event < batches
      modifies this
      ensures (State(), exit) == RunSpec(old(State()), turns)
    {
      hide BatchSpec, ReseekSpec;
      exit := Running;
      var i := 0;
      while exit == Running && i < |turns|
        invariant i <= |turns| && iterator_ <= |config.shard|
        invariant forall event :: event in failedRecords ==> event < batches
        invariant RunSpec(old(State()), turns) ==
                  if exit == Running then RunSpec(State(), turns[i..]) else (State(), exit)
        decreases |turns| - i
      {
        ghost var before := State();
        match turns[i] {
          case Records(count, closed, runner, abortedAfter, seek) =>
            var n := Min(count, |config.shard| - iterator_);
            if n == 0 {
              exit := if closed then SourceClosed else Running;
            } else {
              exit := Deliver(n, closed, runner, abortedAfter, seek);
            }
          case Expired(seek) => exit := Reseek(seek);
          case SendFailed => exit := PollFailed;
          case Aborted => exit := Stopped;
        }
        assert (State(), exit) == TurnSpec(before, turns[i]);
        assert turns[i..][1..] == turns[i + 1..];
        i := i + 1;
      }
    }
  }
}
