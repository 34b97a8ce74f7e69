/** The Kafka poller: one batch in flight behind a gate, its settled prefix
    resolved and committed. A message is its record key, `topic-partition-offset`. */
module KafkaPoller {
  import opened Wrappers
  import opened Numbers
  import opened BatchFailures

  datatype Batch = Batch(partition: nat, ids: seq<Id>)

  /** How often in a row a partition failed first at this message. */
  datatype Retry = Retry(from: Id, attempt: nat)

  datatype Runner = Acknowledged(response: Response) | HandlerThrew

  /** A batch and what becomes of it: the signal may be aborted when it arrives,
      it or a rebalance may abort before the batch is retried, and the commit may
      fail. */
  datatype Turn = Turn(batch: Batch, aborted: bool, runner: Runner, abortedAtAck: bool, commitFails: bool)

  /** `resolved` is every offset handed to `resolveOffset`, the first `committed`
      of them committed; `succeeded` the messages an acknowledgement did not fail,
      and `latest` what the latest delivery of each message came to. */
  datatype Consumer = Consumer(maxRetryAttempts: Option<nat>, retries: map<nat, Retry>, reports: seq<seq<Id>>,
                               resolved: seq<Id>, committed: nat, succeeded: set<Id>, latest: map<Id, Settlement>)

  // ---- What a batch does ----

  /** The set the gate settles with: the first to settle it wins, the
      acknowledgement before the release with every record failed. */
  function GateOf(ids: seq<Id>, runner: Runner): set<Id> {
    if runner.Acknowledged? then FailuresOf(runner.response, ToSet(ids)).ids else ToSet(ids)
  }

  function AttemptAt(retries: map<nat, Retry>, partition: nat, from: Id): nat {
    if partition in retries && retries[partition].from == from then retries[partition].attempt + 1 else 1
  }

  predicate Exhausted(c: Consumer, batch: Batch, failed: seq<Id>)
    requires failed != []
  {
    c.maxRetryAttempts.Some? && AttemptAt(c.retries, batch.partition, failed[0]) > c.maxRetryAttempts.value
  }

  function RetryOrDiscardSpec(c: Consumer, batch: Batch, failed: set<Id>, aborted: bool): (Consumer, set<Id>) {
    var messages := Filter(batch.ids, failed);
    if messages == [] then (c.(retries := c.retries - {batch.partition}), failed)
    else if aborted then (c, failed)
    else if Exhausted(c, batch, messages) then
      (c.(retries := c.retries - {batch.partition}, reports := c.reports + [messages]), {})
    else
      var attempt := AttemptAt(c.retries, batch.partition, messages[0]);
      (c.(retries := c.retries[batch.partition := Retry(messages[0], attempt)]), failed)
  }

  /** The messages before the first failed one. */
  function Before(ids: seq<Id>, failed: set<Id>): seq<Id> {
    if ids == [] || ids[0] in failed then [] else [ids[0]] + Before(ids[1..], failed)
  }

  function CommitSpec(c: Consumer, prefix: seq<Id>, commitFails: bool): Consumer {
    var c' := c.(resolved := c.resolved + prefix);
    if prefix == [] || commitFails then c' else c'.(committed := |c'.resolved|)
  }

  /** What a delivery comes to, by the set the gate settled with and what is left of
      it once the batch was retried or discarded. */
  function Verdict(id: Id, failed: set<Id>, left: set<Id>): Settlement {
    if id !in failed then Succeeded else if id in left then Pending else Reported
  }

  function Verdicts(ids: seq<Id>, failed: set<Id>, left: set<Id>): map<Id, Settlement> {
    map id | id in ToSet(ids) :: Verdict(id, failed, left)
  }

  function TurnSpec(c: Consumer, turn: Turn): Consumer {
    if turn.aborted then c
    else
      var ids, failed := turn.batch.ids, GateOf(turn.batch.ids, turn.runner);
      var (c', left) := RetryOrDiscardSpec(c, turn.batch, failed, turn.abortedAtAck);
      var settled := c'.(succeeded := c.succeeded + (ToSet(ids) - failed),
                         latest := c.latest + Verdicts(ids, failed, left));
      CommitSpec(settled, Before(ids, left), turn.commitFails)
  }

  function RunSpec(c: Consumer, turns: seq<Turn>): Consumer
    decreases |turns|
  {
    if turns == [] then c else RunSpec(TurnSpec(c, turns[0]), turns[1..])
  }

  // ---- What it promises ----

  /** `Before` is the longest prefix without a failed message. */
  lemma {:induction false} BeforeIsLongest(ids: seq<Id>, failed: set<Id>)
    ensures
      var k := |Before(ids, failed)|;
      && k <= |ids| && Before(ids, failed) == ids[..k]
      && (forall i :: 0 <= i < k ==> ids[i] !in failed)
      && (k == |ids| || ids[k] in failed)
  {
    if ids != [] && ids[0] !in failed {
      BeforeIsLongest(ids[1..], failed);
      var k := |Before(ids[1..], failed)|;
      assert ids[..k + 1] == [ids[0]] + ids[1..][..k];
    }
  }

  /** Every resolved message, hence every committed one, was acknowledged as
      succeeded or reported as discarded; no retry exceeds the limit. */
  ghost predicate Safe(c: Consumer)
  {
    && c.committed <= |c.resolved|
    && (forall id :: id in c.resolved ==> id in c.succeeded || Named(c.reports, id))
    && (c.maxRetryAttempts.Some? ==>
          forall p :: p in c.retries ==> 1 <= c.retries[p].attempt <= c.maxRetryAttempts.value)
  }

  /** What one batch resolves: the longest prefix free of failed messages, each of
      them acknowledged as succeeded or named by the report this batch made; after
      a throw or an invalid response nothing, unless a report names the batch. */
  lemma TurnResolves(c: Consumer, turn: Turn)
    requires !turn.aborted
    ensures
      var ids := turn.batch.ids;
      var failed := GateOf(ids, turn.runner);
      var c' := TurnSpec(c, turn);
      var discarded := c'.reports != c.reports;
      var k := if discarded then |ids| else |Before(ids, failed)|;
      && k <= |ids|
      && c'.resolved == c.resolved + ids[..k]
      && (discarded ==> c'.reports == c.reports + [Filter(ids, failed)])
      && (!discarded ==> forall i :: 0 <= i < k ==> turn.runner.Acknowledged? && ids[i] !in failed)
      && (!discarded && k < |ids| ==> ids[k] in failed)
      && ((turn.runner.Acknowledged? ==> !FailuresOf(turn.runner.response, ToSet(ids)).valid) ==>
            c'.resolved == c.resolved || c'.reports == c.reports + [ids])
      && (c'.committed != c.committed ==> c'.committed == |c'.resolved| > |c.resolved| && !turn.commitFails)
  {
    var ids := turn.batch.ids;
    var failed := GateOf(ids, turn.runner);
    BeforeIsLongest(ids, failed);
    BeforeIsLongest(ids, {});
    if turn.runner.Acknowledged? ==> !FailuresOf(turn.runner.response, ToSet(ids)).valid {
      FilterSuperset(ids, failed);
    }
    hide GateOf, Filter, AttemptAt;
  }

  lemma TurnKeeps(c: Consumer, turn: Turn)
    requires Safe(c)
    ensures Safe(TurnSpec(c, turn)) && TurnSpec(c, turn).maxRetryAttempts == c.maxRetryAttempts
  {
    if !turn.aborted {
      var ids := turn.batch.ids;
      var failed := GateOf(ids, turn.runner);
      FilterMembers(ids, failed);
      BeforeIsLongest(ids, failed);
      MoreReports(c.reports, [Filter(ids, failed)]);
      ReportNames(c.reports, Filter(ids, failed));
      TurnResolves(c, turn);
      TurnRetries(c, turn);
      TurnSettles(c, turn);
      hide GateOf, Filter, Before, Named, RetryOrDiscardSpec, TurnSpec, Verdicts;
    }
  }

  /** A delivery's verdicts: failed messages wait for their retry, or are reported
      once the batch is discarded. */
  lemma TurnSettles(c: Consumer, turn: Turn)
    requires !turn.aborted
    ensures
      var failed := GateOf(turn.batch.ids, turn.runner);
      var c' := TurnSpec(c, turn);
      && c'.succeeded == c.succeeded + (ToSet(turn.batch.ids) - failed)
      && c'.latest == c.latest + Verdicts(turn.batch.ids, failed, if c'.reports != c.reports then {} else failed)
  {
    hide GateOf, Filter, Before, Verdicts;
  }

  lemma TurnRetries(c: Consumer, turn: Turn)
    requires Safe(c)
    ensures
      var c' := TurnSpec(c, turn);
      && c'.maxRetryAttempts == c.maxRetryAttempts
      && (c.maxRetryAttempts.Some? ==>
            forall p :: p in c'.retries ==> 1 <= c'.retries[p].attempt <= c.maxRetryAttempts.value)
  {
    hide GateOf, Filter, Before, Named;
  }

  /** The latest delivery of every resolved message succeeded, or was discarded with
      a report that names it. */
  ghost predicate LatestSettled(c: Consumer)
  {
    forall id :: id in c.resolved ==>
      id in c.latest && (c.latest[id] == Succeeded || (c.latest[id] == Reported && Named(c.reports, id)))
  }

  /** The batch brings no message again that was resolved. */
  predicate NewTo(c: Consumer, batch: Batch) {
    forall id :: id in batch.ids ==> id !in c.resolved
  }

  lemma LatestStays(c: Consumer, turn: Turn)
    requires LatestSettled(c) && (!turn.aborted ==> NewTo(c, turn.batch))
    ensures LatestSettled(TurnSpec(c, turn))
  {
    if !turn.aborted {
      var ids := turn.batch.ids;
      var failed := GateOf(ids, turn.runner);
      FilterMembers(ids, failed);
      BeforeIsLongest(ids, failed);
      MoreReports(c.reports, [Filter(ids, failed)]);
      ReportNames(c.reports, Filter(ids, failed));
      TurnResolves(c, turn);
      TurnSettles(c, turn);
      hide GateOf, Filter, Before, Named, RetryOrDiscardSpec, TurnSpec;
    }
  }

  /** A resolved message brought again can be left failing: by a handler that throws
      when a shutdown keeps it from being retried or discarded. */
  lemma LatestLost(c: Consumer, batch: Batch, id: Id)
    requires id in batch.ids && id in c.resolved
    ensures !LatestSettled(TurnSpec(c, Turn(batch, false, HandlerThrew, true, true)))
  {
    var c' := TurnSpec(c, Turn(batch, false, HandlerThrew, true, true));
    FilterMembers(batch.ids, ToSet(batch.ids));
    assert Filter(batch.ids, ToSet(batch.ids)) != [];
    assert c'.latest[id] == Pending && id in c'.resolved;
    hide Named, Before, Filter;
  }

  /** Whatever becomes of a batch, the latest delivery of every resolved message stays
      settled: exactly when the batch brings none of them again. */
  lemma LatestIff(c: Consumer, batch: Batch)
    requires LatestSettled(c)
    ensures (forall turn: Turn | turn.batch == batch && !turn.aborted :: LatestSettled(TurnSpec(c, turn)))
       <==> NewTo(c, batch)
  {
    if NewTo(c, batch) {
      forall turn: Turn | turn.batch == batch && !turn.aborted
        ensures LatestSettled(TurnSpec(c, turn))
      {
        LatestStays(c, turn);
      }
    } else {
      var id :| id in batch.ids && id in c.resolved;
      LatestLost(c, batch, id);
      assert Turn(batch, false, HandlerThrew, true, true).batch == batch;
    }
    hide TurnSpec, LatestSettled;
  }

  function Begin(maxRetryAttempts: Option<nat>): Consumer {
    Consumer(maxRetryAttempts, map[], [], [], 0, {}, map[])
  }

  /** No batch of the run brings again a message it resolved before. */
  predicate NoneAgain(c: Consumer, turns: seq<Turn>)
    decreases |turns|
  {
    turns != [] ==> (!turns[0].aborted ==> NewTo(c, turns[0].batch)) && NoneAgain(TurnSpec(c, turns[0]), turns[1..])
  }

  /** Every run commits only settled messages; unless a resolved message is brought
      again, its latest delivery is the settled one. */
  lemma {:induction false} EveryRunIsSafe(c: Consumer, turns: seq<Turn>)
    requires Safe(c)
    ensures Safe(RunSpec(c, turns))
    ensures LatestSettled(c) && NoneAgain(c, turns) ==> LatestSettled(RunSpec(c, turns))
    decreases |turns|
  {
    if turns != [] {
      TurnKeeps(c, turns[0]);
      if LatestSettled(c) && NoneAgain(c, turns) {
        LatestStays(c, turns[0]);
      }
      hide TurnSpec, Safe, LatestSettled;
      EveryRunIsSafe(TurnSpec(c, turns[0]), turns[1..]);
    }
  }

  /** A delivery of the partition that fails, first of all at one message. */
  predicate FailsAt(turn: Turn, partition: nat, from: Id) {
    && turn.batch.partition == partition && !turn.aborted && !turn.abortedAtAck
    && var failed := Filter(turn.batch.ids, GateOf(turn.batch.ids, turn.runner));
       failed != [] && failed[0] == from
  }

  /** Every delivery of the partition fails first at the message, whatever else it
      holds and however it was answered; other partitions do what they like. */
  predicate KeepsFailing(turns: seq<Turn>, partition: nat, from: Id) {
    forall k :: 0 <= k < |turns| ==> turns[k].batch.partition != partition || FailsAt(turns[k], partition, from)
  }

  function Deliveries(turns: seq<Turn>, partition: nat): nat {
    if turns == [] then 0
    else Deliveries(turns[..|turns| - 1], partition) + Once(turns[|turns| - 1].batch.partition == partition)
  }

  lemma {:induction false} RunAppend(c: Consumer, turns: seq<Turn>, turn: Turn)
    ensures RunSpec(c, turns + [turn]) == TurnSpec(RunSpec(c, turns), turn)
    decreases |turns|
  {
    if turns == [] {
      assert [] + [turn] == [turn];
      assert [turn][1..] == [];
    } else {
      RunAppend(TurnSpec(c, turns[0]), turns[1..], turn);
      assert (turns + [turn])[1..] == turns[1..] + [turn];
    }
  }

  lemma OtherPartition(c: Consumer, turn: Turn, partition: nat)
    requires turn.batch.partition != partition
    ensures
      var c' := TurnSpec(c, turn);
      && c'.maxRetryAttempts == c.maxRetryAttempts
      && (partition in c'.retries <==> partition in c.retries)
      && (partition in c.retries ==> c'.retries[partition] == c.retries[partition])
  {
    hide GateOf, Filter, Before, Verdicts;
  }

  /** No retry of the partition is counted at the message: none at all, or one at
      another message. */
  predicate NotHeld(c: Consumer, partition: nat, from: Id) {
    partition in c.retries ==> c.retries[partition].from != from
  }

  /** One more failing delivery, after n before it. */
  lemma FailsAgain(c: Consumer, turn: Turn, from: Id, n: nat)
    requires c.maxRetryAttempts.Some? && n <= c.maxRetryAttempts.value
    requires FailsAt(turn, turn.batch.partition, from)
    requires
      var p := turn.batch.partition;
      if n == 0 then NotHeld(c, p, from) else p in c.retries && c.retries[p] == Retry(from, n)
    ensures
      var p, c' := turn.batch.partition, TurnSpec(c, turn);
      && c'.maxRetryAttempts == c.maxRetryAttempts
      && if n < c.maxRetryAttempts.value then
           c'.reports == c.reports && p in c'.retries && c'.retries[p] == Retry(from, n + 1)
         else
           && p !in c'.retries
           && c'.reports == c.reports + [Filter(turn.batch.ids, GateOf(turn.batch.ids, turn.runner))]
  {
    hide GateOf, Filter, Before, Verdicts;
    assert AttemptAt(c.retries, turn.batch.partition, from) == n + 1;
  }

  lemma {:induction false} CountsRetries(c: Consumer, turns: seq<Turn>, partition: nat, from: Id)
    requires c.maxRetryAttempts.Some? && NotHeld(c, partition, from)
    requires KeepsFailing(turns, partition, from) && Deliveries(turns, partition) <= c.maxRetryAttempts.value
    ensures
      var c', n := RunSpec(c, turns), Deliveries(turns, partition);
      && c'.maxRetryAttempts == c.maxRetryAttempts
      && if n == 0 then NotHeld(c', partition, from)
         else partition in c'.retries && c'.retries[partition] == Retry(from, n)
  {
    if turns != [] {
      var front, turn := turns[..|turns| - 1], turns[|turns| - 1];
      assert turns == front + [turn];
      CountsRetries(c, front, partition, from);
      RunAppend(c, front, turn);
      hide RunSpec, TurnSpec, FailsAt;
      if turn.batch.partition == partition {
        FailsAgain(RunSpec(c, front), turn, from, Deliveries(front, partition));
      } else {
        OtherPartition(RunSpec(c, front), turn, partition);
      }
    }
  }

  /** A partition whose deliveries keep failing first at one message, with whatever
      retries were counted at another message before, is redelivered M times without a
      report for it; the delivery after that is reported, resolved and forgotten, so
      counting starts over. */
  lemma {:induction false} DiscardedAfterRetries(c: Consumer, turns: seq<Turn>, turn: Turn, from: Id)
    requires c.maxRetryAttempts.Some? && NotHeld(c, turn.batch.partition, from)
    requires KeepsFailing(turns, turn.batch.partition, from) && FailsAt(turn, turn.batch.partition, from)
    requires Deliveries(turns, turn.batch.partition) <= c.maxRetryAttempts.value
    ensures
      var p, n := turn.batch.partition, Deliveries(turns, turn.batch.partition);
      var before, after := RunSpec(c, turns), RunSpec(c, turns + [turn]);
      if n < c.maxRetryAttempts.value then
        after.reports == before.reports && p in after.retries && after.retries[p] == Retry(from, n + 1)
      else
        && p !in after.retries
        && after.reports == before.reports + [Filter(turn.batch.ids, GateOf(turn.batch.ids, turn.runner))]
        && after.resolved == before.resolved + turn.batch.ids
  {
    CountsRetries(c, turns, turn.batch.partition, from);
    RunAppend(c, turns, turn);
    FailsAgain(RunSpec(c, turns), turn, from, Deliveries(turns, turn.batch.partition));
    TurnResolves(RunSpec(c, turns), turn);
    assert turn.batch.ids[..|turn.batch.ids|] == turn.batch.ids;
    hide RunSpec, TurnSpec, GateOf, Filter, Before, Deliveries;
  }

  // ---- What a batch does, by its response ----

  /** The message failed: the handler threw, or the response fails it. */
  predicate FailedBy(runner: Runner, ids: seq<Id>, id: Id) {
    match runner
    case HandlerThrew => true
    case Acknowledged(response) => Fails(response, ids, id)
  }

  /** The failed messages of a batch. */
  function AllFailed(batch: Batch, runner: Runner): set<Id> {
    set id | id in batch.ids && FailedBy(runner, batch.ids, id)
  }

  lemma GateExactly(ids: seq<Id>, runner: Runner)
    ensures forall id :: id in GateOf(ids, runner) <==> id in ids && FailedBy(runner, ids, id)
  {
    if runner.Acknowledged? {
      FailsExactly(runner.response, ids);
    }
  }

  /** The first failed message of the batch. */
  ghost predicate FailsFirstAt(batch: Batch, runner: Runner, k: nat)
  {
    && k < |batch.ids| && FailedBy(runner, batch.ids, batch.ids[k])
    && forall j :: 0 <= j < k ==> !FailedBy(runner, batch.ids, batch.ids[j])
  }

  lemma FirstFailedIs(batch: Batch, runner: Runner, k: nat)
    requires FailsFirstAt(batch, runner, k)
    ensures
      var failed := GateOf(batch.ids, runner);
      && failed == AllFailed(batch, runner)
      && Filter(batch.ids, failed) != [] && Filter(batch.ids, failed)[0] == batch.ids[k]
      && Before(batch.ids, failed) == batch.ids[..k]
  {
    var failed := GateOf(batch.ids, runner);
    GateExactly(batch.ids, runner);
    assert failed == AllFailed(batch, runner);
    hide GateOf, FailedBy;
    FilterFirst(batch.ids, failed, k);
    BeforeIsLongest(batch.ids, failed);
  }

  lemma {:induction false} FilterFirst(ids: seq<Id>, failed: set<Id>, k: nat)
    requires k < |ids| && ids[k] in failed && forall j :: 0 <= j < k ==> ids[j] !in failed
    ensures Filter(ids, failed) != [] && Filter(ids, failed)[0] == ids[k]
  {
    if k > 0 {
      FilterFirst(ids[1..], failed, k - 1);
    }
  }

  /** How a retry of the partition at the message is counted: on from one at the same
      message, else anew. */
  ghost predicate Attempt(c: Consumer, partition: nat, from: Id, attempt: nat)
  {
    && (partition in c.retries && c.retries[partition].from == from ==> attempt == c.retries[partition].attempt + 1)
    && (NotHeld(c, partition, from) ==> attempt == 1)
  }

  /** What a delivery made of its messages, and of no others. */
  ghost predicate Settles(c: Consumer, c': Consumer, batch: Batch, runner: Runner, given: Settlement)
  {
    && (forall id :: id in batch.ids ==>
          id in c'.latest && c'.latest[id] == if FailedBy(runner, batch.ids, id) then given else Succeeded)
    && (forall id :: id !in batch.ids ==>
          (id in c'.latest <==> id in c.latest) && (id in c.latest ==> c'.latest[id] == c.latest[id]))
    && (forall id :: id in c'.succeeded <==>
          id in c.succeeded || (id in batch.ids && !FailedBy(runner, batch.ids, id)))
  }

  /** A commit covers all resolved offsets; it happens when the batch resolved some, and
      does not fail. */
  ghost predicate Commits(c: Consumer, c': Consumer, resolved: seq<Id>, commitFails: bool)
  {
    && c'.resolved == c.resolved + resolved
    && c'.committed == if resolved != [] && !commitFails then |c'.resolved| else c.committed
  }

  /** A batch without a failed message is resolved whole, and its partition's retries
      are forgotten. */
  lemma GoodBatchDoes(c: Consumer, turn: Turn)
    requires !turn.aborted
    requires forall id :: id in turn.batch.ids ==> !FailedBy(turn.runner, turn.batch.ids, id)
    ensures
      var c' := TurnSpec(c, turn);
      && Settles(c, c', turn.batch, turn.runner, Pending) && Commits(c, c', turn.batch.ids, turn.commitFails)
      && c'.reports == c.reports && c'.retries == c.retries - {turn.batch.partition}
  {
    hide GateOf, FailedBy, Filter, Before, Verdicts, Settles;
    var ids := turn.batch.ids;
    GateExactly(ids, turn.runner);
    var failed := GateOf(ids, turn.runner);
    assert failed == {};
    FilterNone(ids, failed);
    BeforeIsLongest(ids, failed);
    TurnSettles(c, turn);
    SettlesVerdicts(c, TurnSpec(c, turn), turn.batch, turn.runner, failed);
  }

  lemma SettlesVerdicts(c: Consumer, c': Consumer, batch: Batch, runner: Runner, left: set<Id>)
    requires left == {} || left == GateOf(batch.ids, runner)
    requires c'.succeeded == c.succeeded + (ToSet(batch.ids) - GateOf(batch.ids, runner))
    requires c'.latest == c.latest + Verdicts(batch.ids, GateOf(batch.ids, runner), left)
    ensures Settles(c, c', batch, runner, if left == {} then Reported else Pending)
    ensures left == {} && GateOf(batch.ids, runner) == {} ==> Settles(c, c', batch, runner, Pending)
  {
    GateExactly(batch.ids, runner);
    hide GateOf, FailedBy;
  }

  /** A batch with failed messages and retries left, or aborted: what is before the first
      failed message is resolved and nothing reported. The retry is counted at that
      message, unless a shutdown or a rebalance took the batch away. */
  lemma FailedBatchDoes(c: Consumer, turn: Turn, k: nat, attempt: nat)
    requires !turn.aborted && FailsFirstAt(turn.batch, turn.runner, k)
    requires Attempt(c, turn.batch.partition, turn.batch.ids[k], attempt)
    requires c.maxRetryAttempts.Some? && !turn.abortedAtAck ==> attempt <= c.maxRetryAttempts.value
    ensures
      var c', p := TurnSpec(c, turn), turn.batch.partition;
      && Settles(c, c', turn.batch, turn.runner, Pending) && Commits(c, c', turn.batch.ids[..k], turn.commitFails)
      && c'.reports == c.reports
      && c'.retries == if turn.abortedAtAck then c.retries else c.retries[p := Retry(turn.batch.ids[k], attempt)]
  {
    hide GateOf, FailedBy, Filter, Before, AllFailed, Verdicts, Settles;
    FirstFailedIs(turn.batch, turn.runner, k);
    GateExactly(turn.batch.ids, turn.runner);
    TurnSettles(c, turn);
    SettlesVerdicts(c, TurnSpec(c, turn), turn.batch, turn.runner, GateOf(turn.batch.ids, turn.runner));
  }

  /** A batch whose retries are spent: one report with exactly its failed messages, in
      order, and the whole batch resolved; the partition's retries are forgotten. */
  lemma SpentBatchDoes(c: Consumer, turn: Turn, k: nat, attempt: nat)
    requires !turn.aborted && !turn.abortedAtAck && FailsFirstAt(turn.batch, turn.runner, k)
    requires Attempt(c, turn.batch.partition, turn.batch.ids[k], attempt)
    requires c.maxRetryAttempts.Some? && attempt > c.maxRetryAttempts.value
    ensures
      var c', p := TurnSpec(c, turn), turn.batch.partition;
      && Settles(c, c', turn.batch, turn.runner, Reported) && Commits(c, c', turn.batch.ids, turn.commitFails)
      && c'.reports == c.reports + [Filter(turn.batch.ids, AllFailed(turn.batch, turn.runner))]
      && c'.retries == c.retries - {p}
  {
    hide GateOf, FailedBy, Filter, Before, AllFailed, Verdicts, Settles;
    FirstFailedIs(turn.batch, turn.runner, k);
    BeforeIsLongest(turn.batch.ids, {});
    TurnSettles(c, turn);
    SettlesVerdicts(c, TurnSpec(c, turn), turn.batch, turn.runner, {});
  }

  /** The batch brings the message, and the response succeeds it. */
  predicate Succeeds(turn: Turn, id: Id) {
    !turn.aborted && id in turn.batch.ids && !FailedBy(turn.runner, turn.batch.ids, id)
  }

  lemma TurnSucceeds(c: Consumer, turn: Turn, id: Id)
    ensures id in TurnSpec(c, turn).succeeded <==> id in c.succeeded || Succeeds(turn, id)
  {
    if !turn.aborted {
      GateExactly(turn.batch.ids, turn.runner);
      TurnSettles(c, turn);
      hide TurnSpec, GateOf, FailedBy, Verdicts;
    }
  }

  lemma {:induction false} RunSucceeds(c: Consumer, turns: seq<Turn>, id: Id)
    ensures id in RunSpec(c, turns).succeeded <==>
            id in c.succeeded || exists k :: 0 <= k < |turns| && Succeeds(turns[k], id)
    decreases |turns|
  {
    hide TurnSpec, Succeeds;
    if turns != [] {
      TurnSucceeds(c, turns[0], id);
      RunSucceeds(TurnSpec(c, turns[0]), turns[1..], id);
      if k :| 0 <= k < |turns| && Succeeds(turns[k], id) {
        assert k > 0 ==> turns[k] == turns[1..][k - 1];
      }
    }
  }

  /** Every run, from its batches: a resolved message was brought by a batch whose
      response was valid and did not name it, or a report names it. */
  lemma EveryRunSettles(maxRetryAttempts: Option<nat>, turns: seq<Turn>, id: Id)
    ensures
      var c := RunSpec(Begin(maxRetryAttempts), turns);
      && c.committed <= |c.resolved|
      && (id in c.resolved ==>
            (exists k :: 0 <= k < |turns| && Succeeds(turns[k], id)) || Named(c.reports, id))
  {
    EveryRunIsSafe(Begin(maxRetryAttempts), turns);
    RunSucceeds(Begin(maxRetryAttempts), turns, id);
    hide RunSpec, Succeeds, Named;
  }

  // ---- The poller ----

  /** A promise of the failed set: only its first settlement counts. */
  class Gate {
    var outcome: Option<set<Id>>

    constructor ()
      ensures outcome == None
    {
      outcome := None;
    }

    method Settle(failed: set<Id>)
      modifies this
      ensures outcome == if old(outcome).None? then Some(failed) else old(outcome)
    {
      if outcome.None? {
        outcome := Some(failed);
      }
    }
  }

  class KafkaPoller {
    const maxRetryAttempts: Option<nat>
    var retries: map<nat, Retry>
    var resolveAck: Gate?
    var inflightIds: set<Id>
    var reports: seq<seq<Id>>
    var resolved: seq<Id>
    var committed: nat
    ghost var succeeded: set<Id>
    ghost var latest: map<Id, Settlement>

    ghost function State(): Consumer
      reads this
    {
      Consumer(maxRetryAttempts, retries, reports, resolved, committed, succeeded, latest)
    }

    constructor (maxRetryAttempts: Option<nat>)
      ensures State() == Begin(maxRetryAttempts) && resolveAck == null
    {
      this.maxRetryAttempts := maxRetryAttempts;
      retries, resolveAck, inflightIds, reports, resolved, committed := map[], null, {}, [], [], 0;
      succeeded, latest := {}, map[];
    }

    /** `acknowledge`: settles the gate of the batch in flight. */
    method Acknowledge(response: Response) returns (raised: bool)
      modifies resolveAck
      ensures raised <==> !(ToSet(response) <= inflightIds)
      ensures resolveAck != null ==>
        resolveAck.outcome == if old(resolveAck.outcome).None? then Some(FailuresOf(response, inflightIds).ids)
                              else old(resolveAck.outcome)
    {
      var failed := ReadFailures(response, inflightIds);
      if resolveAck != null {
        resolveAck.Settle(failed.ids);
      }
      raised := !failed.valid;
    }

    /** `retryOrDiscard`. */
    method RetryOrDiscard(batch: Batch, failed: set<Id>, aborted: bool) returns (left: set<Id>)
      modifies `retries, `reports
      ensures (State(), left) == RetryOrDiscardSpec(old(State()), batch, failed, aborted)
    {
      hide Filter;
      var failedMessages := Filter(batch.ids, failed);
      if failedMessages == [] {
        retries := retries - {batch.partition};
        return failed;
      }
      if aborted {
        return failed;
      }
      var attempt := AttemptAt(retries, batch.partition, failedMessages[0]);
      if maxRetryAttempts.Some? && attempt > maxRetryAttempts.value {
        retries := retries - {batch.partition};
        reports := reports + [failedMessages];
        return {};
      }
      retries := retries[batch.partition := Retry(failedMessages[0], attempt)];
      left := failed;
    }

    /** The offset loop and the commit. */
    method Resolve(ids: seq<Id>, failed: set<Id>, commitFails: bool)
      modifies `resolved, `committed
      ensures State() == CommitSpec(old(State()), Before(ids, failed), commitFails)
    {
      var i := 0;
      while i < |ids| && ids[i] !in failed
        invariant i <= |ids|
        invariant resolved + Before(ids[i..], failed) == old(resolved) + Before(ids, failed)
        invariant |resolved| == |old(resolved)| + i && committed == old(committed)
      {
        assert ids[i..][1..] == ids[i + 1..];
        resolved := resolved + [ids[i]];
        i := i + 1;
      }
      assert Before(ids[i..], failed) == [];
      assert resolved == old(resolved) + Before(ids, failed);
      assert i == |Before(ids, failed)|;
      if i > 0 && !commitFails {
        committed := |resolved|;
      }
    }

    /** `handleBatch`, with the pass of the poll loop that hands the batch to the
        runner, and resumes when it is acknowledged or the handler threw. */
    method HandleBatch(turn: Turn)
      modifies this
      ensures State() == TurnSpec(old(State()), turn)
    {
      if turn.aborted {
        return;
      }
      var ackGate := new Gate();
      inflightIds, resolveAck := ToSet(turn.batch.ids), ackGate;
      var release, ids := ackGate, inflightIds;
      if turn.runner.Acknowledged? {
        var _ := Acknowledge(turn.runner.response);
      }
      release.Settle(ids);
      var failed := ackGate.outcome.value;
      assert failed == GateOf(turn.batch.ids, turn.runner);
      hide GateOf, RetryOrDiscardSpec, Before, Verdicts;
      var left := RetryOrDiscard(turn.batch, failed, turn.abortedAtAck);
      succeeded := succeeded + (ToSet(turn.batch.ids) - failed);
      latest := latest + Verdicts(turn.batch.ids, failed, left);
      Resolve(turn.batch.ids, left, turn.commitFails);
    }

    method Run(turns: seq<Turn>)
      modifies this
      ensures State() == RunSpec(old(State()), turns)
    {
      for i := 0 to |turns|
        invariant RunSpec(State(), turns[i..]) == RunSpec(old(State()), turns)
      {
        assert turns[i..][1..] == turns[i + 1..];
        HandleBatch(turns[i]);
      }
    }
  }
}
